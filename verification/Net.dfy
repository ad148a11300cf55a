/** Machine integers, bytes and internet addresses, as the relay uses them. */
module Net {

  type Byte = x: int | 0 <= x < 256
  type U16 = x: int | 0 <= x < 0x1_0000
  type U32 = x: int | 0 <= x < 0x1_0000_0000
  type U64 = x: int | 0 <= x < 0x1_0000_0000_0000_0000

  const U32_MAX: U32 := 0xFFFF_FFFF
  const U64_MAX: U64 := 0xFFFF_FFFF_FFFF_FFFF

  datatype Option<+T> = None | Some(value: T)

  /** `u64::saturating_add`. */
  function SaturatingAdd(a: U64, b: U64): U64 {
    if a + b <= U64_MAX then a + b else U64_MAX
  }

  /** `u64::saturating_sub`. */
  function SaturatingSub(a: U64, b: U64): U64 {
    if b <= a then a - b else 0
  }

  type Octets4 = s: seq<Byte> | |s| == 4 witness [0, 0, 0, 0]
  type Octets16 = s: seq<Byte> | |s| == 16 witness [0, 0, 0, 0, 0, 0, 0, 0, 0, 0, 0, 0, 0, 0, 0, 0]

  datatype Ip = V4(v4: Octets4) | V6(v6: Octets16)

  /** A V6 socket address also carries a flow label and a scope, and equality compares them. */
  datatype SocketAddr =
    | Sock4(ip4: Octets4, port4: U16)
    | Sock6(ip6: Octets16, port6: U16, flow: U32, scope: U32)
  {
    function Host(): Ip {
      match this
      case Sock4(ip, _) => V4(ip)
      case Sock6(ip, _, _, _) => V6(ip)
    }

    function Port(): U16 {
      match this
      case Sock4(_, p) => p
      case Sock6(_, p, _, _) => p
    }
  }

  /** `SocketAddr::new`: no flow label and no scope. */
  function SocketOf(ip: Ip, port: U16): SocketAddr {
    match ip
    case V4(o) => Sock4(o, port)
    case V6(o) => Sock6(o, port, 0, 0)
  }

  const MAPPED_PREFIX: seq<Byte> := [0, 0, 0, 0, 0, 0, 0, 0, 0, 0, 0xFF, 0xFF]

  predicate IsMapped(o: Octets16) {
    o[..12] == MAPPED_PREFIX
  }

  /** The IPv4-mapped IPv6 form `::ffff:a.b.c.d` of an IPv4 address. */
  function MappedForm(o: Octets4): Ip {
    V6(MAPPED_PREFIX + o)
  }

  /** `to_canonical`: an IPv4-mapped IPv6 address becomes the IPv4 address it carries. */
  function Canonical(ip: Ip): Ip {
    match ip
    case V4(_) => ip
    case V6(o) => if IsMapped(o) then V4(o[12..]) else ip
  }

  /** The IPv4-mapped form, and it alone, is another address's canonical one. */
  lemma CanonicalIs(ip: Ip, o: Octets4)
    ensures Canonical(ip) == V4(o) <==> ip == V4(o) || ip == MappedForm(o)
    ensures Canonical(ip).V6? ==> Canonical(ip) == ip
  {
    var m := MAPPED_PREFIX + o;
    assert m[..12] == MAPPED_PREFIX && m[12..] == o;
    if ip.V6? && IsMapped(ip.v6) {
      assert ip.v6 == ip.v6[..12] + ip.v6[12..];
    }
  }

  type IpKey = Ip

  const ZERO_HOST: seq<Byte> := [0, 0, 0, 0, 0, 0, 0, 0]

  /** The key every per-source limit is counted against: IPv4 in full, IPv6 by /64 prefix. */
  function KeyOf(ip: Ip): IpKey {
    match Canonical(ip)
    case V4(o) => V4(o)
    case V6(o) => V6(o[..8] + ZERO_HOST)
  }

  /** A dual-stack client has one key however it arrives, and a key is its own key. */
  lemma OneKeyPerSource(o: Octets4, ip: Ip)
    ensures KeyOf(MappedForm(o)) == KeyOf(V4(o)) == V4(o)
    ensures KeyOf(KeyOf(ip)) == KeyOf(ip)
  {
    var m := MAPPED_PREFIX + o;
    assert m[..12] == MAPPED_PREFIX && m[12..] == o;
    match Canonical(ip)
    case V4(_) =>
    case V6(p) =>
      var key := p[..8] + ZERO_HOST;
      assert key[..12][10] == 0 != MAPPED_PREFIX[10];
      assert key[..8] == p[..8];
  }

  /** Two addresses share a key exactly when they are the same IPv4 address or share a /64. */
  lemma SameKey(a: Ip, b: Ip)
    ensures KeyOf(a) == KeyOf(b) <==>
            match (Canonical(a), Canonical(b))
            case (V4(x), V4(y)) => x == y
            case (V6(x), V6(y)) => x[..8] == y[..8]
            case (V4(_), V6(_)) => false
            case (V6(_), V4(_)) => false
  {
    match (Canonical(a), Canonical(b)) {
      case (V6(x), V6(y)) =>
        assert (x[..8] + ZERO_HOST)[..8] == x[..8];
        assert (y[..8] + ZERO_HOST)[..8] == y[..8];
      case _ =>
    }
  }
}
