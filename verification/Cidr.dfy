/** CIDR blocks, and which sources a relay accepts a PROXY header from. */
module Cidr {
  import opened Net

  function Pow2(n: nat): (p: nat)
    ensures p > 0
  {
    if n == 0 then 1 else 2 * Pow2(n - 1)
  }

  /** The big-endian value of a byte string. */
  ghost function Value(s: seq<Byte>): nat {
    if s == [] then 0 else Value(s[..|s| - 1]) * 256 + s[|s| - 1]
  }

  ghost function Over(n: nat, d: nat): nat
    requires d > 0
  {
    n / d
  }

  /** Whether two byte strings agree on their first `bits` bits. */
  predicate PrefixMatches(a: seq<Byte>, b: seq<Byte>, bits: nat)
    requires |a| == |b| && bits <= 8 * |a|
  {
    var whole := bits / 8;
    a[..whole] == b[..whole] && (bits % 8 == 0 || SameHighBits(a[whole], b[whole], bits % 8))
  }

  /** Bitwise and. */
  function And(x: nat, y: nat): (r: nat)
    decreases x
  {
    if x == 0 || y == 0 then 0 else 2 * And(x / 2, y / 2) + (if x % 2 == 1 && y % 2 == 1 then 1 else 0)
  }

  /** `0xFFu8 << (8 - keep)`: the bits shifted past the top of the byte are lost. */
  function Mask(keep: nat): Byte
    requires 0 < keep < 8
  {
    (0xFF * Pow2(8 - keep)) % 256
  }

  /** The high `keep` bits of two bytes, compared under a mask. */
  predicate SameHighBits(x: Byte, y: Byte, keep: nat)
    requires 0 < keep < 8
  {
    And(x, Mask(keep)) == And(y, Mask(keep))
  }

  // ---- The mask is a division ----

  lemma {:induction false} AndOnes(x: nat, j: nat)
    requires x < Pow2(j)
    ensures And(x, Pow2(j) - 1) == x
  {
    if j > 0 && x > 0 {
      AndOnes(x / 2, j - 1);
      assert (Pow2(j) - 1) / 2 == Pow2(j - 1) - 1 && (Pow2(j) - 1) % 2 == 1;
    }
  }

  function Up(m: nat, k: nat): nat {
    if k == 0 then m else 2 * Up(m, k - 1)
  }

  function Down(x: nat, k: nat): nat {
    if k == 0 then x else Down(x / 2, k - 1)
  }

  lemma {:induction false} AndDouble(x: nat, y: nat)
    ensures And(x, 2 * y) == 2 * And(x / 2, y)
  {
    var z := 2 * y;
    assert z / 2 == y && z % 2 == 0;
    if x == 0 || y == 0 {
      assert And(x, z) == 0 && And(x / 2, y) == 0;
    } else {
      assert And(x, z) == 2 * And(x / 2, z / 2);
    }
  }

  /** Zero low bits in one operand clear those of the other. */
  lemma {:induction false} AndShifted(x: nat, m: nat, k: nat)
    ensures And(x, Up(m, k)) == Up(And(Down(x, k), m), k)
  {
    if k > 0 {
      AndDouble(x, Up(m, k - 1));
      AndShifted(x / 2, m, k - 1);
    }
  }

  lemma {:induction false} UpIs(m: nat, k: nat)
    ensures Up(m, k) == m * Pow2(k)
  {
    if k > 0 {
      UpIs(m, k - 1);
      Twice(m, Pow2(k - 1));
    }
  }

  lemma {:induction false} DownIs(x: nat, k: nat)
    ensures Down(x, k) == Over(x, Pow2(k))
  {
    if k > 0 {
      DownIs(x / 2, k - 1);
      DivDiv(x, 2, Pow2(k - 1));
    }
  }

  lemma MaskIs(keep: nat)
    requires 0 < keep < 8
    ensures Mask(keep) == (Pow2(keep) - 1) * Pow2(8 - keep)
  {
    assert Pow2(1) == 2 && Pow2(2) == 4 && Pow2(3) == 8 && Pow2(4) == 16;
    assert Pow2(5) == 32 && Pow2(6) == 64 && Pow2(7) == 128;
  }

  /** What the mask keeps of a byte is a quotient, put back in place. */
  lemma Masked(x: Byte, keep: nat)
    requires 0 < keep < 8
    ensures And(x, Mask(keep)) == Over(x, Pow2(8 - keep)) * Pow2(8 - keep)
  {
    var k := 8 - keep;
    MaskIs(keep);
    UpIs(Pow2(keep) - 1, k);
    AndShifted(x, Pow2(keep) - 1, k);
    DownIs(x, k);
    HighDigit(x, k);
    AndOnes(Down(x, k), keep);
    UpIs(Down(x, k), k);
  }

  lemma HighBitsDivide(x: Byte, y: Byte, keep: nat)
    requires 0 < keep < 8
    ensures SameHighBits(x, y, keep) <==> Over(x, Pow2(8 - keep)) == Over(y, Pow2(8 - keep))
  {
    Masked(x, keep);
    Masked(y, keep);
    SameDigits(Over(x, Pow2(8 - keep)), Over(y, Pow2(8 - keep)), 0, 0, Pow2(8 - keep));
  }

  // ---- Prefixes are quotients ----

  lemma DropByte(v: nat, last: Byte, q: nat)
    requires q > 0
    ensures (v * 256 + last) / (256 * q) == v / q
  {
    var d, r := DivMod(v, q);
    Regroup(d, q, r, 256, last);
    QuotientIs(v * 256 + last, 256 * q, d, r * 256 + last);
  }

  lemma DivMod(v: nat, q: nat) returns (d: nat, r: nat)
    requires q > 0
    ensures v == d * q + r && r < q && d == v / q
  {
    d, r := v / q, v % q;
  }

  lemma Regroup(d: nat, q: nat, r: nat, p: nat, t: nat)
    requires r < q && t < p
    ensures (d * q + r) * p + t == d * (p * q) + (r * p + t)
    ensures r * p + t < p * q
  {
    assert (d * q + r) * p == d * q * p + r * p;
    assert d * q * p == d * (p * q);
    assert (r + 1) * p <= q * p;
  }

  lemma QuotientIs(n: nat, q: nat, d: nat, r: nat)
    requires n == d * q + r && r < q
    ensures n / q == d
  {
    SameDigits(n / q, d, n % q, r, q);
  }

  lemma SplitByte(v: nat, last: Byte, k: nat)
    requires 0 < k < 8
    ensures (v * 256 + last) / Pow2(k) == v * Pow2(8 - k) + last / Pow2(k)
    ensures last / Pow2(k) < Pow2(8 - k)
  {
    assert Pow2(1) == 2 && Pow2(2) == 4 && Pow2(3) == 8 && Pow2(4) == 16;
    assert Pow2(5) == 32 && Pow2(6) == 64 && Pow2(7) == 128;
  }

  lemma SameDigits(v: nat, v': nat, d: nat, d': nat, m: nat)
    requires d < m && d' < m
    ensures v * m + d == v' * m + d' <==> v == v' && d == d'
  {
    if v < v' {
      assert (v + 1) * m <= v' * m;
    } else if v > v' {
      assert (v' + 1) * m <= v * m;
    }
  }

  lemma Pow2Splits(n: nat)
    requires n >= 8
    ensures Pow2(n) == 256 * Pow2(n - 8)
  {
    assert Pow2(n) == 2 * Pow2(n - 1) == 4 * Pow2(n - 2) == 8 * Pow2(n - 3) == 16 * Pow2(n - 4);
    assert Pow2(n - 4) == 2 * Pow2(n - 5) == 4 * Pow2(n - 6) == 8 * Pow2(n - 7) == 16 * Pow2(n - 8);
  }

  lemma {:induction false} ValueDetermines(a: seq<Byte>, b: seq<Byte>)
    requires |a| == |b|
    ensures Value(a) == Value(b) <==> a == b
  {
    if a != [] {
      var n := |a| - 1;
      ValueDetermines(a[..n], b[..n]);
      SameDigits(Value(a[..n]), Value(b[..n]), a[n], b[n], 256);
      assert a == a[..n] + [a[n]] && b == b[..n] + [b[n]];
    }
  }

  ghost function Quotient(s: seq<Byte>, bits: nat): nat
    requires bits <= 8 * |s|
  {
    Over(Value(s), Pow2(8 * |s| - bits))
  }

  /** Two byte strings agree on their first `bits` bits exactly when their big-endian values agree
      after division by two to the number of remaining bits. */
  lemma {:induction false} PrefixIsQuotient(a: seq<Byte>, b: seq<Byte>, bits: nat)
    requires |a| == |b| && bits <= 8 * |a|
    ensures PrefixMatches(a, b, bits) <==> Quotient(a, bits) == Quotient(b, bits)
    decreases |a|
  {
    if bits == 8 * |a| {
      ValueDetermines(a, b);
      assert a[..|a|] == a && b[..|b|] == b && Pow2(0) == 1;
    } else if bits > 8 * (|a| - 1) {
      PartialByte(a, b, bits);
    } else {
      var n := |a| - 1;
      ShorterQuotient(a, bits);
      ShorterQuotient(b, bits);
      ShorterPrefix(a, b, bits);
      PrefixIsQuotient(a[..n], b[..n], bits);
    }
  }

  lemma ShorterQuotient(s: seq<Byte>, bits: nat)
    requires |s| > 0 && bits <= 8 * (|s| - 1)
    ensures Quotient(s, bits) == Quotient(s[..|s| - 1], bits)
  {
    var n := |s| - 1;
    Pow2Splits(8 * |s| - bits);
    DropByte(Value(s[..n]), s[n], Pow2(8 * n - bits));
  }

  lemma ShorterPrefix(a: seq<Byte>, b: seq<Byte>, bits: nat)
    requires |a| == |b| > 0 && bits <= 8 * (|a| - 1)
    ensures PrefixMatches(a, b, bits) <==> PrefixMatches(a[..|a| - 1], b[..|b| - 1], bits)
  {
    var n, whole := |a| - 1, bits / 8;
    assert a[..n][..whole] == a[..whole] && b[..n][..whole] == b[..whole];
  }

  lemma PartialQuotient(s: seq<Byte>, k: nat)
    requires |s| > 0 && 0 < k < 8
    ensures Quotient(s, 8 * |s| - k) == Value(s[..|s| - 1]) * Pow2(8 - k) + Over(s[|s| - 1], Pow2(k))
  {
    SplitByte(Value(s[..|s| - 1]), s[|s| - 1], k);
  }

  lemma PartialByte(a: seq<Byte>, b: seq<Byte>, bits: nat)
    requires |a| == |b| > 0 && 8 * (|a| - 1) < bits < 8 * |a|
    ensures PrefixMatches(a, b, bits) <==> Quotient(a, bits) == Quotient(b, bits)
  {
    var n, k := |a| - 1, 8 * |a| - bits;
    assert bits / 8 == n && bits % 8 == 8 - k;
    PartialQuotient(a, k);
    PartialQuotient(b, k);
    ValueDetermines(a[..n], b[..n]);
    LastByte(Value(a[..n]), Value(b[..n]), a[n], b[n], k);
  }

  lemma LastByte(v: nat, v': nat, x: Byte, y: Byte, k: nat)
    requires 0 < k < 8
    ensures v * Pow2(8 - k) + Over(x, Pow2(k)) == v' * Pow2(8 - k) + Over(y, Pow2(k)) <==>
            v == v' && SameHighBits(x, y, 8 - k)
  {
    HighBitsDivide(x, y, 8 - k);
    HighDigit(x, k);
    HighDigit(y, k);
    SameDigits(v, v', Over(x, Pow2(k)), Over(y, Pow2(k)), Pow2(8 - k));
  }

  lemma HighDigit(x: Byte, k: nat)
    requires 0 < k < 8
    ensures Over(x, Pow2(k)) < Pow2(8 - k)
  {
    SplitByte(0, x, k);
  }

  // ---- Blocks ----

  datatype Block = Block(base: Ip, bits: nat) {
    predicate Valid() {
      bits <= if base.V4? then 32 else 128
    }

    /** Whether `ip`, in its canonical form, falls inside this block. */
    predicate Contains(ip: Ip)
      requires Valid()
    {
      match (base, Canonical(ip))
      case (V4(b), V4(i)) => PrefixMatches(b, i, bits)
      case (V6(b), V6(i)) => PrefixMatches(b, i, bits)
      case (V4(_), V6(_)) => false
      case (V6(_), V4(_)) => false
    }
  }

  type ValidBlock = b: Block | b.Valid() witness Block(V4([0, 0, 0, 0]), 0)

  /** `ip` lies in one of the blocks whose front ends may name a client. */
  predicate Trusts(proxies: seq<ValidBlock>, ip: Ip) {
    exists i :: 0 <= i < |proxies| && proxies[i].Contains(ip)
  }

  ghost function Octets(ip: Ip): seq<Byte> {
    match ip
    case V4(o) => o
    case V6(o) => o
  }

  /** Membership is integer arithmetic on the canonical address, within one family. */
  lemma ContainsIsArithmetic(block: ValidBlock, ip: Ip)
    ensures block.Contains(ip) <==>
            && Canonical(ip).V4? == block.base.V4?
            && Quotient(Octets(block.base), block.bits) == Quotient(Octets(Canonical(ip)), block.bits)
  {
    if Canonical(ip).V4? == block.base.V4? {
      PrefixIsQuotient(Octets(block.base), Octets(Canonical(ip)), block.bits);
    }
  }

  /** A front end is trusted exactly when its canonical address agrees with one of the listed blocks, of
      its family, on that block's leading bits. */
  lemma TrustsIsArithmetic(proxies: seq<ValidBlock>, ip: Ip)
    ensures Trusts(proxies, ip) <==>
            exists i :: 0 <= i < |proxies| && SameLeadingBits(proxies[i], ip)
  {
    forall i | 0 <= i < |proxies|
      ensures proxies[i].Contains(ip) <==> SameLeadingBits(proxies[i], ip)
    {
      ContainsIsArithmetic(proxies[i], ip);
    }
  }

  ghost predicate SameLeadingBits(block: ValidBlock, ip: Ip) {
    && Canonical(ip).V4? == block.base.V4?
    && Quotient(Octets(block.base), block.bits) == Quotient(Octets(Canonical(ip)), block.bits)
  }

  /** Shortening a prefix only widens the block. */
  lemma ShorterIsWider(base: Ip, bits: nat, fewer: nat, ip: Ip)
    requires Block(base, bits).Valid() && fewer <= bits
    requires Block(base, bits).Contains(ip)
    ensures Block(base, fewer).Contains(ip)
  {
    FewerBits(Octets(base), Octets(Canonical(ip)), bits, fewer);
  }

  lemma FewerBits(a: seq<Byte>, b: seq<Byte>, bits: nat, fewer: nat)
    requires |a| == |b| && fewer <= bits <= 8 * |a| && PrefixMatches(a, b, bits)
    ensures PrefixMatches(a, b, fewer)
  {
    PrefixIsQuotient(a, b, bits);
    PrefixIsQuotient(a, b, fewer);
    CoarserQuotient(a, bits, fewer);
    CoarserQuotient(b, bits, fewer);
  }

  lemma CoarserQuotient(s: seq<Byte>, bits: nat, fewer: nat)
    requires fewer <= bits <= 8 * |s|
    ensures Quotient(s, fewer) == Quotient(s, bits) / Pow2(bits - fewer)
  {
    var w := 8 * |s|;
    Pow2Adds(w - bits, bits - fewer);
    DivDiv(Value(s), Pow2(w - bits), Pow2(bits - fewer));
  }

  lemma {:induction false} Pow2Adds(m: nat, n: nat)
    ensures Pow2(m + n) == Pow2(m) * Pow2(n)
  {
    if m > 0 {
      Pow2Adds(m - 1, n);
      Twice(Pow2(m - 1), Pow2(n));
    }
  }

  lemma Twice(p: nat, q: nat)
    ensures 2 * (p * q) == (2 * p) * q == p * (2 * q)
  {
  }

  lemma DivDiv(v: nat, p: nat, q: nat)
    requires p > 0 && q > 0
    ensures p * q > 0 && v / (p * q) == v / p / q
  {
    var d, t := DivMod(v, p);
    var e, r := DivMod(d, q);
    Regroup(e, q, r, p, t);
    QuotientIs(v, p * q, e, r * p + t);
  }

  /** An IPv4 proxy is trusted alike in either form it can arrive in. */
  lemma TrustsEitherForm(proxies: seq<ValidBlock>, o: Octets4)
    ensures Trusts(proxies, V4(o)) <==> Trusts(proxies, MappedForm(o))
  {
    var m := MAPPED_PREFIX + o;
    assert m[..12] == MAPPED_PREFIX && m[12..] == o;
    assert Canonical(MappedForm(o)) == Canonical(V4(o));
    forall i | 0 <= i < |proxies|
      ensures proxies[i].Contains(V4(o)) <==> proxies[i].Contains(MappedForm(o))
    {
    }
  }

  /** A block written in the IPv4-mapped form matches no address at all exactly when its /96 is spelled
      out: then every address it could match is compared in its IPv4 form. */
  lemma MappedBlockMatchesNobodyExactlyWhen(block: ValidBlock)
    requires block.base.V6? && IsMapped(block.base.v6)
    ensures (forall ip :: !block.Contains(ip)) <==> block.bits >= 96
  {
    if block.bits >= 96 {
      forall ip
        ensures !block.Contains(ip)
      {
        MappedBlockMisses(block, ip);
      }
    } else {
      var ip := MappedBlockMatches(block);
    }
  }

  lemma MappedBlockMisses(block: ValidBlock, ip: Ip)
    requires block.base.V6? && IsMapped(block.base.v6) && block.bits >= 96
    ensures !block.Contains(ip)
  {
    if block.Contains(ip) {
      var i := Canonical(ip).v6;
      FewerBits(block.base.v6, i, block.bits, 96);
      assert i[..12] == block.base.v6[..12] == MAPPED_PREFIX;
      assert IsMapped(i);
      assert false;
    }
  }

  lemma LastBitApart(x: Byte, y: Byte)
    requires x / 2 == y / 2
    ensures SameHighBits(x, y, 7)
  {
    HighBitsDivide(x, y, 7);
    assert Pow2(1) == 2;
  }

  /** With fewer bits, the address that differs in the last bit of the mapped prefix is in the block. */
  lemma MappedBlockMatches(block: ValidBlock) returns (ip: Ip)
    requires block.base.V6? && IsMapped(block.base.v6) && block.bits < 96
    ensures block.Contains(ip)
  {
    var base := block.base.v6;
    var near := base[11 := 254];
    assert base[..12][11] == MAPPED_PREFIX[11] == 255 && near[..12][11] == 254;
    assert base[..11] == near[..11];
    LastBitApart(255, 254);
    FewerBits(base, near, 95, block.bits);
    ip := V6(near);
  }
}
