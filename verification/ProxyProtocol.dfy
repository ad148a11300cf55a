/** PROXY protocol v2, section 2.2 (binary header format) of "The PROXY protocol, Versions 1 & 2". */
module ProxyProtocol {
  import opened Net

  const V2_SIGNATURE: seq<Byte> := [0x0D, 0x0A, 0x0D, 0x0A, 0x00, 0x0D, 0x0A, 0x51, 0x55, 0x49, 0x54, 0x0A]
  const V2_FIXED_LEN: nat := 16
  const MAX_ADDRESS_BLOCK: nat := 1024
  const CMD_LOCAL: Byte := 0x00
  const CMD_PROXY: Byte := 0x01
  const AF_TCP4: Byte := 0x11
  const AF_TCP6: Byte := 0x21

  datatype HeaderError = NotProxyProtocol | Malformed

  datatype Result<+T> = Ok(value: T) | Err(error: HeaderError)

  datatype Header = Proxy(source: SocketAddr) | NoSource

  function FromBe16(hi: Byte, lo: Byte): U16 {
    hi * 256 + lo
  }

  /** The fixed sixteen bytes: the version and command byte, and the length of what follows. */
  function ParseFixed(fixed: seq<Byte>): Result<(Byte, nat)>
    requires |fixed| == V2_FIXED_LEN
  {
    if fixed[..12] != V2_SIGNATURE then Err(NotProxyProtocol)
    else if fixed[12] / 16 != 2 then Err(Malformed)
    else if fixed[12] % 16 != CMD_PROXY && fixed[12] % 16 != CMD_LOCAL then Err(Malformed)
    else if FromBe16(fixed[14], fixed[15]) > MAX_ADDRESS_BLOCK then Err(Malformed)
    else Ok((fixed[12], FromBe16(fixed[14], fixed[15])))
  }

  /** The address block. Bytes past the addresses are type-length-value records and are ignored. */
  function ParseAddressBlock(verCmd: Byte, family: Byte, block: seq<Byte>): Result<Header> {
    if verCmd % 16 == CMD_LOCAL then Ok(NoSource)
    else if family == AF_TCP4 then
      if |block| < 12 then Err(Malformed)
      else Ok(Proxy(SocketOf(V4(block[..4]), FromBe16(block[8], block[9]))))
    else if family == AF_TCP6 then
      if |block| < 36 then Err(Malformed)
      else Ok(Proxy(SocketOf(V6(block[..16]), FromBe16(block[32], block[33]))))
    else Ok(NoSource)
  }

  /** What a trusted connection's bytes amount to: the source they declare, if any, and the payload
      left for the next layer. Nothing when the stream ends inside the header. */
  function Strip(bytes: seq<Byte>): Option<(Option<SocketAddr>, seq<Byte>)> {
    if |bytes| < V2_FIXED_LEN then None
    else
      match ParseFixed(bytes[..V2_FIXED_LEN])
      case Err(_) => Some((None, bytes))
      case Ok((verCmd, len)) =>
        if |bytes| < V2_FIXED_LEN + len then None
        else
          var source := match ParseAddressBlock(verCmd, bytes[13], bytes[V2_FIXED_LEN..V2_FIXED_LEN + len])
                        case Ok(Proxy(addr)) => Some(addr)
                        case Ok(NoSource) => None
                        case Err(_) => None;
          Some((source, bytes[V2_FIXED_LEN + len..]))
  }

  // ---- The encoder a proxy uses ----

  datatype Endpoints = Tcp4(src4: Octets4, dst4: Octets4) | Tcp6(src6: Octets16, dst6: Octets16) {
    function Source(): Ip {
      match this
      case Tcp4(s, _) => V4(s)
      case Tcp6(s, _) => V6(s)
    }

    function Addresses(): (a: seq<Byte>)
      ensures |a| == if Tcp4? then 8 else 32
    {
      match this
      case Tcp4(s, d) => s + d
      case Tcp6(s, d) => s + d
    }
  }

  function ToBe16(n: U16): (b: seq<Byte>)
    ensures |b| == 2 && FromBe16(b[0], b[1]) == n
  {
    [n / 256, n % 256]
  }

  function EncodeBlock(e: Endpoints, srcPort: U16, dstPort: U16, tlvs: seq<Byte>): (block: seq<Byte>)
    ensures |block| == |e.Addresses()| + 4 + |tlvs|
  {
    e.Addresses() + ToBe16(srcPort) + ToBe16(dstPort) + tlvs
  }

  function EncodeFixed(e: Endpoints, len: U16): (fixed: seq<Byte>)
    ensures |fixed| == V2_FIXED_LEN
  {
    V2_SIGNATURE + [0x21, if e.Tcp4? then AF_TCP4 else AF_TCP6] + ToBe16(len)
  }

  function Encode(e: Endpoints, srcPort: U16, dstPort: U16, tlvs: seq<Byte>): seq<Byte>
    requires |EncodeBlock(e, srcPort, dstPort, tlvs)| <= 0xFFFF
  {
    var block := EncodeBlock(e, srcPort, dstPort, tlvs);
    EncodeFixed(e, |block|) + block
  }

  lemma FixedRoundTrips(e: Endpoints, len: U16)
    ensures ParseFixed(EncodeFixed(e, len)) == if len <= MAX_ADDRESS_BLOCK then Ok((0x21, len)) else Err(Malformed)
    ensures EncodeFixed(e, len)[13] == if e.Tcp4? then AF_TCP4 else AF_TCP6
  {
    var fixed := EncodeFixed(e, len);
    assert fixed[..12] == V2_SIGNATURE && fixed[12] == 0x21;
    assert fixed[14] == ToBe16(len)[0] && fixed[15] == ToBe16(len)[1];
  }

  lemma BlockRoundTrips(e: Endpoints, srcPort: U16, dstPort: U16, tlvs: seq<Byte>)
    ensures ParseAddressBlock(0x21, if e.Tcp4? then AF_TCP4 else AF_TCP6, EncodeBlock(e, srcPort, dstPort, tlvs))
         == Ok(Proxy(SocketOf(e.Source(), srcPort)))
  {
    var block := EncodeBlock(e, srcPort, dstPort, tlvs);
    match e {
      case Tcp4(s, d) =>
        assert block[..4] == s;
        assert block[8] == ToBe16(srcPort)[0] && block[9] == ToBe16(srcPort)[1];
      case Tcp6(s, d) =>
        assert block[..16] == s;
        assert block[32] == ToBe16(srcPort)[0] && block[33] == ToBe16(srcPort)[1];
    }
  }

  /** Decoding inverts encoding: whatever follows the header is left, to the byte, and the declared
      source is the encoded one, for every block the reader is willing to take. */
  lemma DecodeInvertsEncode(e: Endpoints, srcPort: U16, dstPort: U16, tlvs: seq<Byte>, payload: seq<Byte>)
    requires |EncodeBlock(e, srcPort, dstPort, tlvs)| <= MAX_ADDRESS_BLOCK
    ensures Strip(Encode(e, srcPort, dstPort, tlvs) + payload) == Some((Some(SocketOf(e.Source(), srcPort)), payload))
  {
    var block := EncodeBlock(e, srcPort, dstPort, tlvs);
    var fixed := EncodeFixed(e, |block|);
    var bytes := Encode(e, srcPort, dstPort, tlvs) + payload;
    FixedRoundTrips(e, |block|);
    BlockRoundTrips(e, srcPort, dstPort, tlvs);
    assert bytes[..16] == fixed && bytes[13] == fixed[13];
    assert bytes[16..16 + |block|] == block;
    assert bytes[16 + |block|..] == payload;
  }

  /** A header that declares a larger block is not taken at all: every byte of it is left. */
  lemma OversizedHeaderIsLeft(e: Endpoints, srcPort: U16, dstPort: U16, tlvs: seq<Byte>, payload: seq<Byte>)
    requires MAX_ADDRESS_BLOCK < |EncodeBlock(e, srcPort, dstPort, tlvs)| <= 0xFFFF
    ensures Strip(Encode(e, srcPort, dstPort, tlvs) + payload)
            == Some((None, Encode(e, srcPort, dstPort, tlvs) + payload))
  {
    var block := EncodeBlock(e, srcPort, dstPort, tlvs);
    FixedRoundTrips(e, |block|);
    assert (Encode(e, srcPort, dstPort, tlvs) + payload)[..16] == EncodeFixed(e, |block|);
  }

  /** A header of any command and family, around any block. */
  function HeaderBytes(cmd: Byte, family: Byte, block: seq<Byte>): seq<Byte>
    requires cmd < 16 && |block| <= 0xFFFF
  {
    V2_SIGNATURE + [0x20 + cmd, family] + ToBe16(|block|) + block
  }

  /** A header that names no source is taken off all the same: a local one, one of another family, and
      one whose block is too short for its addresses. */
  lemma SourcelessHeaderIsTaken(cmd: Byte, family: Byte, block: seq<Byte>, payload: seq<Byte>)
    requires cmd <= 1 && |block| <= MAX_ADDRESS_BLOCK
    requires cmd == 1 ==> (family == 0x11 ==> |block| < 12) && (family == 0x21 ==> |block| < 36)
    ensures Strip(HeaderBytes(cmd, family, block) + payload) == Some((None, payload))
  {
    var bytes := HeaderBytes(cmd, family, block) + payload;
    var fixed := bytes[..16];
    assert fixed[..12] == V2_SIGNATURE && fixed[12] == 0x20 + cmd && bytes[13] == family;
    assert fixed[14] == ToBe16(|block|)[0] && fixed[15] == ToBe16(|block|)[1];
    assert bytes[16..16 + |block|] == block && bytes[16 + |block|..] == payload;
  }

  /** Sixteen bytes or more that start no header of version 2, or one of an unknown command or with a
      block over the limit. */
  ghost predicate OtherBytes(bytes: seq<Byte>) {
    && |bytes| >= 16
    && (|| bytes[..12] != [13, 10, 13, 10, 0, 13, 10, 81, 85, 73, 84, 10]
        || !(32 <= bytes[12] <= 33) || 256 * (bytes[14] as int) + bytes[15] > 1024)
  }

  /** Such bytes are left as they are. */
  lemma OtherBytesAreLeft(bytes: seq<Byte>)
    requires OtherBytes(bytes)
    ensures Strip(bytes) == Some((None, bytes))
  {
    var fixed := bytes[..16];
    assert fixed[..12] == bytes[..12] && fixed[12] == bytes[12];
    assert fixed[14] == bytes[14] && fixed[15] == bytes[15];
  }
}
