/** Resolution of a peer's advertised listen addresses into addresses other peers may dial. */
module Dial {
  import opened Net
  import Cidr

  const MAX_DIALABLE_CANDIDATES: nat := 8

  datatype Family = FamilyV6 | FamilyV4

  /** An IPv4-mapped IPv6 address counts as IPv4. */
  function FamilyOf(a: SocketAddr): Family {
    if Canonical(a.Host()).V4? then FamilyV4 else FamilyV6
  }

  function Word(hi: Byte, lo: Byte): int {
    hi * 256 + lo
  }

  /** The leading four of the eight 16-bit segments of an IPv6 address. */
  function LeadingSegments(o: Octets16): seq<int> {
    [Word(o[0], o[1]), Word(o[2], o[3]), Word(o[4], o[5]), Word(o[6], o[7])]
  }

  predicate SamePrefix64(a: Octets16, b: Octets16) {
    LeadingSegments(a) == LeadingSegments(b)
  }

  /** The advertised host verifiably belongs to the observed source. */
  predicate BelongsToSource(advertised: Ip, reflexive: Ip) {
    match (Canonical(advertised), Canonical(reflexive))
    case (V4(a), V4(r)) => a == r
    case (V6(a), V6(r)) => SamePrefix64(a, r)
    case (V4(_), V6(_)) => false
    case (V6(_), V4(_)) => false
  }

  predicate IsLocalV4(o: Octets4) {
    || o == [0, 0, 0, 0]                                        // unspecified
    || o[0] == 127                                              // loopback
    || o[0] == 10 || (o[0] == 172 && 16 <= o[1] <= 31) || (o[0] == 192 && o[1] == 168)  // private
    || (o[0] == 169 && o[1] == 254)                             // link-local
  }

  predicate IsLocalV6(o: Octets16) {
    || (o[..15] == [0, 0, 0, 0, 0, 0, 0, 0, 0, 0, 0, 0, 0, 0, 0] && o[15] <= 1)  // unspecified, loopback
    || Cidr.SameHighBits(o[0], 0xFC, 7)                                // masked with fe00: unique-local
    || (o[0] == 0xFE && Cidr.SameHighBits(o[1], 0x80, 2))              // masked with ffc0: link-local
  }

  predicate IsUnroutable(ip: Ip) {
    match Canonical(ip)
    case V4(o) => IsLocalV4(o)
    case V6(o) => IsLocalV6(o)
  }

  /** A host that is not routable, or not verifiably the peer's own, gives way to the observed one. */
  function ResolveOne(candidate: SocketAddr, reflexive: Ip): SocketAddr {
    if !IsUnroutable(candidate.Host()) && BelongsToSource(candidate.Host(), reflexive) then candidate
    else SocketOf(reflexive, candidate.Port())
  }

  // ---- Which hosts are local ----

  const ZERO_16: Octets16 := [0, 0, 0, 0, 0, 0, 0, 0, 0, 0, 0, 0, 0, 0, 0, 0]

  ghost predicate In4(base: Octets4, bits: nat, ip: Ip)
    requires bits <= 32
  {
    Cidr.Block(V4(base), bits).Contains(ip)
  }

  ghost predicate In6(first: Byte, second: Byte, last: Byte, bits: nat, ip: Ip)
    requires bits <= 128
  {
    Cidr.Block(V6([first, second] + ZERO_16[..13] + [last]), bits).Contains(ip)
  }

  /** The blocks no other node can dial into: unspecified, loopback, private and link-local IPv4, and the
      unspecified, loopback, unique-local and link-local IPv6 ones. */
  ghost predicate InLocalBlock(ip: Ip) {
    InLocalBlock4(ip) || InLocalBlock6(ip)
  }

  ghost predicate InLocalBlock4(ip: Ip) {
    || In4([0, 0, 0, 0], 32, ip) || In4([127, 0, 0, 0], 8, ip) || In4([10, 0, 0, 0], 8, ip)
    || In4([172, 16, 0, 0], 12, ip) || In4([192, 168, 0, 0], 16, ip) || In4([169, 254, 0, 0], 16, ip)
  }

  ghost predicate InLocalBlock6(ip: Ip) {
    In6(0, 0, 0, 128, ip) || In6(0, 0, 1, 128, ip) || In6(0xFC, 0, 0, 7, ip) || In6(0xFE, 0x80, 0, 10, ip)
  }

  lemma In4Is(base: Octets4, bits: nat, ip: Ip, o: Octets4)
    requires Canonical(ip) == V4(o) && (bits == 8 || bits == 12 || bits == 16 || bits == 32)
    ensures In4(base, bits, ip) <==>
            && base[0] == o[0]
            && (bits == 12 ==> base[1] as int / 16 == o[1] as int / 16)
            && (bits >= 16 ==> base[1] == o[1]) && (bits == 32 ==> base == o)
  {
    var n := bits / 8;
    Leading(base, o, n);
    if bits == 12 {
      Cidr.HighBitsDivide(base[1], o[1], 4);
      assert Cidr.Pow2(4) == 16;
    }
  }

  lemma Leading(a: seq<Byte>, b: seq<Byte>, n: nat)
    requires |a| == |b| >= 2 && n <= |a|
    ensures a[..n] == b[..n] <==> forall i | 0 <= i < n :: a[i] == b[i]
    ensures a[..|a|] == b[..|a|] <==> a == b
    ensures n >= 1 && a[..n] == b[..n] ==> a[0] == b[0]
  {
    assert a[..|a|] == a && b[..|a|] == b;
    if a[..n] == b[..n] {
      forall i | 0 <= i < n
        ensures a[i] == b[i]
      {
        assert a[..n][i] == b[..n][i];
      }
    }
  }

  lemma In6Is(first: Byte, second: Byte, last: Byte, bits: nat, ip: Ip, o: Octets16)
    requires Canonical(ip) == V6(o) && (bits == 7 || bits == 10 || bits == 128)
    ensures In6(first, second, last, bits, ip) <==>
            match bits
            case 7 => Cidr.SameHighBits(o[0], first, 7)
            case 10 => o[0] == first && Cidr.SameHighBits(o[1], second, 2)
            case _ => o == [first, second] + ZERO_16[..13] + [last]
  {
    var base := [first, second] + ZERO_16[..13] + [last];
    Leading(base, o, bits / 8);
    assert base[0] == first && base[1] == second;
  }

  lemma OneFamilyOfBlocks(ip: Ip)
    ensures Canonical(ip).V4? ==> !InLocalBlock6(ip)
    ensures Canonical(ip).V6? ==> !InLocalBlock4(ip)
  {
  }

  lemma Local4(ip: Ip, o: Octets4)
    requires Canonical(ip) == V4(o)
    ensures InLocalBlock4(ip) <==>
            || o == [0, 0, 0, 0] || o[0] == 127 || o[0] == 10 || (o[0] == 172 && o[1] as int / 16 == 1)
            || (o[0] == 192 && o[1] == 168) || (o[0] == 169 && o[1] == 254)
  {
    In4Is([0, 0, 0, 0], 32, ip, o);
    In4Is([127, 0, 0, 0], 8, ip, o);
    In4Is([10, 0, 0, 0], 8, ip, o);
    In4Is([172, 16, 0, 0], 12, ip, o);
    In4Is([192, 168, 0, 0], 16, ip, o);
    In4Is([169, 254, 0, 0], 16, ip, o);
  }

  lemma Local6(ip: Ip, o: Octets16)
    requires Canonical(ip) == V6(o)
    ensures InLocalBlock6(ip) <==>
            || o == [0, 0] + ZERO_16[..13] + [0] || o == [0, 0] + ZERO_16[..13] + [1]
            || Cidr.SameHighBits(o[0], 0xFC, 7) || (o[0] == 0xFE && Cidr.SameHighBits(o[1], 0x80, 2))
  {
    In6Is(0, 0, 0, 128, ip, o);
    In6Is(0, 0, 1, 128, ip, o);
    In6Is(0xFC, 0, 0, 7, ip, o);
    In6Is(0xFE, 0x80, 0, 10, ip, o);
  }

  lemma LastByte(o: Octets16)
    ensures o[..15] == ZERO_16[..15] && o[15] <= 1 <==>
            o == [0, 0] + ZERO_16[..13] + [0] || o == [0, 0] + ZERO_16[..13] + [1]
  {
    assert o == o[..15] + [o[15]];
    assert [0, 0] + ZERO_16[..13] + [0] == ZERO_16[..15] + [0] && [0, 0] + ZERO_16[..13] + [1] == ZERO_16[..15] + [1];
    assert (ZERO_16[..15] + [0])[..15] == ZERO_16[..15] && (ZERO_16[..15] + [1])[..15] == ZERO_16[..15];
  }

  /** A host is unroutable exactly when it is in one of those blocks. */
  lemma UnroutableIsListed(ip: Ip)
    ensures IsUnroutable(ip) <==> InLocalBlock(ip)
  {
    OneFamilyOfBlocks(ip);
    match Canonical(ip) {
      case V4(o) => Local4(ip, o);
      case V6(o) =>
        Local6(ip, o);
        LastByte(o);
    }
  }

  /** A host of the source's own that is in none of them is published as it is; any other gives way to the
      observed one, on the advertised port. */
  lemma ResolvedIs(candidate: SocketAddr, reflexive: Ip)
    ensures ResolveOne(candidate, reflexive) ==
            if KeyOf(candidate.Host()) == KeyOf(reflexive) && !InLocalBlock(candidate.Host()) then candidate
            else match reflexive
                 case V4(o) => Sock4(o, candidate.Port())
                 case V6(o) => Sock6(o, candidate.Port(), 0, 0)
  {
    UnroutableIsListed(candidate.Host());
    BelongsIsSameKey(candidate.Host(), reflexive);
  }

  // ---- Whose hosts they are ----

  lemma SegmentsAgree(a: Octets16, b: Octets16)
    ensures SamePrefix64(a, b) <==> a[..8] == b[..8]
  {
    var x, y := LeadingSegments(a), LeadingSegments(b);
    if x == y {
      assert x[0] == y[0] && x[1] == y[1] && x[2] == y[2] && x[3] == y[3];
    } else {
      assert x[0] != y[0] || x[1] != y[1] || x[2] != y[2] || x[3] != y[3];
      var p, q := a[..8], b[..8];
      assert p[0] != q[0] || p[1] != q[1] || p[2] != q[2] || p[3] != q[3]
             || p[4] != q[4] || p[5] != q[5] || p[6] != q[6] || p[7] != q[7];
    }
  }

  /** A host belongs to a source exactly when the two share a limiter key. */
  lemma BelongsIsSameKey(a: Ip, r: Ip)
    ensures BelongsToSource(a, r) <==> KeyOf(a) == KeyOf(r)
  {
    SameKey(a, r);
    match (Canonical(a), Canonical(r)) {
      case (V6(x), V6(y)) => SegmentsAgree(x, y);
      case _ =>
    }
  }

  /** Whatever is advertised, the resolved host is under the observed source's key, and the
      advertised port is kept. */
  lemma ResolvedStaysHome(candidate: SocketAddr, reflexive: Ip)
    ensures KeyOf(ResolveOne(candidate, reflexive).Host()) == KeyOf(reflexive)
    ensures ResolveOne(candidate, reflexive).Port() == candidate.Port()
  {
    BelongsIsSameKey(candidate.Host(), reflexive);
  }

  // ---- The list ----

  ghost function ResolveAll(advertised: seq<SocketAddr>, reflexive: Ip): (all: seq<SocketAddr>)
    ensures |all| == |advertised|
    ensures forall i | 0 <= i < |advertised| :: all[i] == ResolveOne(advertised[i], reflexive)
  {
    seq(|advertised|, i requires 0 <= i < |advertised| => ResolveOne(advertised[i], reflexive))
  }

  lemma AllStayHome(advertised: seq<SocketAddr>, reflexive: Ip, a: SocketAddr)
    requires a in ResolveAll(advertised, reflexive)
    ensures KeyOf(a.Host()) == KeyOf(reflexive)
    ensures FamilyOf(a) == if Canonical(reflexive).V4? then FamilyV4 else FamilyV6
    ensures exists i :: 0 <= i < |advertised| && a.Port() == advertised[i].Port()
  {
    var i :| 0 <= i < |advertised| && a == ResolveOne(advertised[i], reflexive);
    ResolvedStaysHome(advertised[i], reflexive);
    SameKey(a.Host(), reflexive);
  }

  ghost predicate Distinct<T>(s: seq<T>) {
    forall i, j | 0 <= i < j < |s| :: s[i] != s[j]
  }

  /** The first `max` distinct elements, in order of first appearance. */
  ghost function FirstDistinct<T>(s: seq<T>, max: nat): seq<T> {
    if s == [] then []
    else
      var before := FirstDistinct(s[..|s| - 1], max);
      var x := s[|s| - 1];
      if x in before || |before| >= max then before else before + [x]
  }

  ghost function OfFamily(s: seq<SocketAddr>, f: Family): seq<SocketAddr> {
    if s == [] then []
    else OfFamily(s[..|s| - 1], f) + if FamilyOf(s[|s| - 1]) == f then [s[|s| - 1]] else []
  }

  lemma {:induction false} FirstDistinctIs<T>(s: seq<T>, max: nat)
    ensures Distinct(FirstDistinct(s, max)) && |FirstDistinct(s, max)| <= max
    ensures forall x | x in FirstDistinct(s, max) :: x in s
    ensures |FirstDistinct(s, max)| < max ==> forall x | x in s :: x in FirstDistinct(s, max)
  {
    if s != [] {
      FirstDistinctIs(s[..|s| - 1], max);
      assert s == s[..|s| - 1] + [s[|s| - 1]];
    }
  }

  /** It grows with its list, so it is in order of first appearance. */
  lemma {:induction false} FirstDistinctGrows<T>(s: seq<T>, n: nat, max: nat)
    requires n <= |s|
    ensures FirstDistinct(s[..n], max) <= FirstDistinct(s, max)
    decreases |s|
  {
    if n == |s| {
      assert s[..n] == s;
    } else {
      assert s[..|s| - 1][..n] == s[..n];
      FirstDistinctGrows(s[..|s| - 1], n, max);
    }
  }

  lemma FirstDistinctNext<T>(s: seq<T>, n: nat, max: nat)
    requires n < |s|
    ensures FirstDistinct(s[..n + 1], max) ==
              var before := FirstDistinct(s[..n], max);
              if s[n] in before || |before| >= max then before else before + [s[n]]
  {
    assert s[..n + 1][..n] == s[..n];
  }

  /** The list takes elements of `s` and stops at `max`: the pipeline with its set of seen addresses. */
  method ResolveDistinct(advertised: seq<SocketAddr>, reflexive: Ip) returns (resolved: seq<SocketAddr>)
    ensures resolved == FirstDistinct(ResolveAll(advertised, reflexive), MAX_DIALABLE_CANDIDATES)
  {
    ghost var all := ResolveAll(advertised, reflexive);
    var seen: set<SocketAddr> := {};
    resolved := [];
    for n := 0 to |advertised|
      invariant resolved == FirstDistinct(all[..n], MAX_DIALABLE_CANDIDATES)
      invariant seen == set a | a in resolved
    {
      var addr := ResolveOne(advertised[n], reflexive);
      FirstDistinctNext(all, n, MAX_DIALABLE_CANDIDATES);
      // `take` stops pulling once it has its fill, so `seen` is no longer consulted.
      if |resolved| < MAX_DIALABLE_CANDIDATES && addr !in seen {
        seen := seen + {addr};
        resolved := resolved + [addr];
      }
    }
    assert all[..|advertised|] == all;
  }

  /** Stable sort by family, IPv6 first: every IPv4 address is moved past the IPv6 ones after it. */
  method OrderIpv6First(candidates: seq<SocketAddr>) returns (ordered: seq<SocketAddr>)
    ensures ordered == OfFamily(candidates, FamilyV6) + OfFamily(candidates, FamilyV4)
  {
    var first, last := [], [];
    for n := 0 to |candidates|
      invariant first == OfFamily(candidates[..n], FamilyV6) && last == OfFamily(candidates[..n], FamilyV4)
    {
      assert candidates[..n + 1][..n] == candidates[..n] && candidates[..n + 1][n] == candidates[n];
      if FamilyOf(candidates[n]) == FamilyV6 {
        first := first + [candidates[n]];
      } else {
        last := last + [candidates[n]];
      }
    }
    assert candidates[..|candidates|] == candidates;
    ordered := first + last;
  }

  lemma {:induction false} OneFamily(s: seq<SocketAddr>, f: Family)
    requires forall a | a in s :: FamilyOf(a) == f
    ensures OfFamily(s, f) == s
    ensures forall g | g != f :: OfFamily(s, g) == []
  {
    if s != [] {
      assert s == s[..|s| - 1] + [s[|s| - 1]];
      OneFamily(s[..|s| - 1], f);
    }
  }

  /** What is published for a peer, as a function of what it advertised and where it was seen. */
  ghost function Published(advertised: seq<SocketAddr>, reflexive: Ip): seq<SocketAddr> {
    FirstDistinct(ResolveAll(advertised, reflexive), MAX_DIALABLE_CANDIDATES)
  }

  lemma PublishedStaysHome(advertised: seq<SocketAddr>, reflexive: Ip)
    ensures forall a | a in Published(advertised, reflexive) :: KeyOf(a.Host()) == KeyOf(reflexive)
  {
    PublishedIsOwn(advertised, reflexive);
    forall a | a in Published(advertised, reflexive)
      ensures KeyOf(a.Host()) == KeyOf(reflexive)
    {
      assert OwnAddress(advertised, reflexive, a);
    }
  }

  /** The addresses published for a peer: at most eight, without duplicates, every one under the
      observed source's limiter key and with a port the peer advertised. The result is the IPv6-first
      partition of the first eight distinct resolved candidates, and since a source has one family,
      the partition moves nothing. */
  method ResolveDialable(advertised: seq<SocketAddr>, reflexive: Ip) returns (published: seq<SocketAddr>)
    ensures var firsts := Published(advertised, reflexive);
            published == OfFamily(firsts, FamilyV6) + OfFamily(firsts, FamilyV4) == firsts
    ensures |published| <= MAX_DIALABLE_CANDIDATES && Distinct(published)
    ensures forall a | a in published :: OwnAddress(advertised, reflexive, a)
    ensures |published| < MAX_DIALABLE_CANDIDATES ==>
              forall a | a in ResolveAll(advertised, reflexive) :: a in published
  {
    var resolved := ResolveDistinct(advertised, reflexive);
    FirstDistinctIs(ResolveAll(advertised, reflexive), MAX_DIALABLE_CANDIDATES);
    PublishedIsOwn(advertised, reflexive);
    OneFamily(resolved, SourceFamily(reflexive));
    published := OrderIpv6First(resolved);
  }

  ghost function SourceFamily(reflexive: Ip): Family {
    if Canonical(reflexive).V4? then FamilyV4 else FamilyV6
  }

  /** `a` is of the source: under its key, of its family, and on a port the peer advertised. */
  ghost predicate OwnAddress(advertised: seq<SocketAddr>, reflexive: Ip, a: SocketAddr) {
    && KeyOf(a.Host()) == KeyOf(reflexive) && FamilyOf(a) == SourceFamily(reflexive)
    && exists i :: 0 <= i < |advertised| && a.Port() == advertised[i].Port()
  }

  lemma PublishedIsOwn(advertised: seq<SocketAddr>, reflexive: Ip)
    ensures forall a | a in Published(advertised, reflexive) :: OwnAddress(advertised, reflexive, a)
  {
    FirstDistinctIs(ResolveAll(advertised, reflexive), MAX_DIALABLE_CANDIDATES);
    forall a | a in Published(advertised, reflexive)
      ensures OwnAddress(advertised, reflexive, a)
    {
      AllStayHome(advertised, reflexive, a);
    }
  }
}
