/** The byte path from an accepted socket to the WebSocket layer on the plain listener. */
module FrontEnd {
  import opened Net
  import opened Cidr
  import opened ProxyProtocol

  // ---- Streams ----

  /** The bytes a client will send, delivered in pieces of the network's choosing. */
  class TcpStream {
    var data: seq<Byte>

    constructor (client: seq<Byte>)
      ensures data == client
    {
      data := client;
    }

    /** One read of at most `n` bytes; empty only at the end of the stream or for an empty buffer. */
    method Read(n: nat) returns (out: seq<Byte>)
      modifies this
      ensures out + data == old(data) && |out| <= n
      ensures out == [] <==> n == 0 || old(data) == []
    {
      if n == 0 || data == [] {
        return [];
      }
      var k :| 1 <= k <= n && k <= |data|;
      out := data[..k];
      data := data[k..];
    }
  }

  /** Fill a buffer of `n` bytes, or fail when the stream ends first. */
  method ReadExact(tcp: TcpStream, n: nat) returns (got: Option<seq<Byte>>)
    modifies tcp
    ensures got == if n <= |old(tcp.data)| then Some(old(tcp.data)[..n]) else None
    ensures got.Some? ==> tcp.data == old(tcp.data)[n..]
  {
    var buf := [];
    while |buf| < n
      invariant buf + tcp.data == old(tcp.data) && |buf| <= n
    {
      var more := tcp.Read(n - |buf|);
      if more == [] {
        return None;
      }
      buf := buf + more;
    }
    got := Some(buf);
  }

  /** What the WebSocket layer reads from once the sniff has taken bytes off the connection. */
  class PrefixedStream {
    const prefix: seq<Byte>
    var consumed: nat
    const inner: TcpStream

    ghost predicate Valid()
      reads this
    {
      consumed <= |prefix|
    }

    /** What a reader of this stream has still to see. */
    ghost function Rest(): seq<Byte>
      requires Valid()
      reads this, inner
    {
      prefix[consumed..] + inner.data
    }

    constructor (prefix: seq<Byte>, inner: TcpStream)
      ensures Valid() && this.inner == inner && Rest() == prefix + inner.data
    {
      this.prefix := prefix;
      this.consumed := 0;
      this.inner := inner;
    }

    method Read(n: nat) returns (out: seq<Byte>)
      requires Valid()
      modifies this`consumed, inner
      ensures Valid() && out + Rest() == old(Rest()) && |out| <= n
      ensures out == [] <==> n == 0 || old(Rest()) == []
    {
      var pending := prefix[consumed..];
      if pending != [] {
        var k := if |pending| < n then |pending| else n;
        out := pending[..k];
        consumed := consumed + k;
        assert prefix[consumed..] == pending[k..];
        return;
      }
      out := inner.Read(n);
    }
  }

  /** The second replaying stream, which gives the WebSocket handshake its request head again. */
  class Prefixed {
    const prefix: seq<Byte>
    var pos: nat
    const inner: PrefixedStream

    ghost predicate Valid()
      reads this, inner
    {
      pos <= |prefix| && inner.Valid()
    }

    ghost function Rest(): seq<Byte>
      requires Valid()
      reads this, inner, inner.inner
    {
      prefix[pos..] + inner.Rest()
    }

    constructor (prefix: seq<Byte>, inner: PrefixedStream)
      requires inner.Valid()
      ensures Valid() && this.inner == inner && Rest() == prefix + inner.Rest()
    {
      this.prefix := prefix;
      this.pos := 0;
      this.inner := inner;
    }

    method Read(n: nat) returns (out: seq<Byte>)
      requires Valid()
      modifies this`pos, inner`consumed, inner.inner
      ensures Valid() && out + Rest() == old(Rest()) && |out| <= n
      ensures out == [] <==> n == 0 || old(Rest()) == []
    {
      if pos < |prefix| {
        var remaining := prefix[pos..];
        var k := if |remaining| < n then |remaining| else n;
        out := remaining[..k];
        pos := pos + k;
        assert prefix[pos..] == remaining[k..];
        return;
      }
      out := inner.Read(n);
    }
  }

  // ---- The source address ----

  /** Read a PROXY header if one is there. */
  method ReadSourceAddr(tcp: TcpStream) returns (source: Option<SocketAddr>, stream: Option<PrefixedStream>)
    modifies tcp
    ensures stream.Some? <==> Strip(old(tcp.data)).Some?
    ensures stream.Some? ==>
              && fresh(stream.value) && stream.value.inner == tcp && stream.value.Valid()
              && Strip(old(tcp.data)).value == (source, stream.value.Rest())
  {
    source, stream := None, None;
    var fixed := ReadExact(tcp, V2_FIXED_LEN);
    if fixed.None? {
      return;
    }
    match ParseFixed(fixed.value)
    case Err(_) =>
      // The bytes were payload, or unreadable: they go back in front of the stream.
      var s := new PrefixedStream(fixed.value, tcp);
      stream := Some(s);
      assert s.Rest() == old(tcp.data);
    case Ok((verCmd, len)) =>
      var block := ReadExact(tcp, len);
      if block.None? {
        return;
      }
      match ParseAddressBlock(verCmd, fixed.value[13], block.value) {
        case Ok(Proxy(addr)) => source := Some(addr);
        case Ok(NoSource) =>
        case Err(_) =>
      }
      var s := new PrefixedStream([], tcp);
      stream := Some(s);
      assert s.Rest() == old(tcp.data)[V2_FIXED_LEN + len..];
      assert old(tcp.data)[V2_FIXED_LEN..][..len] == old(tcp.data)[V2_FIXED_LEN..V2_FIXED_LEN + len];
  }

  /** What a connection turns into before the request head is read: its source and its bytes. */
  ghost function Resolved(
      client: seq<Byte>, trusted: bool, inTime: bool, observed: SocketAddr): Option<(SocketAddr, seq<Byte>)>
  {
    if !trusted then Some((observed, client))
    else if !inTime || Strip(client).None? then None
    else
      var (declared, payload) := Strip(client).value;
      Some((if declared.Some? then declared.value else observed, payload))
  }

  /** Resolve the true source of a connection. `inTime` says whether a trusted proxy's header came
      before the timeout. */
  method ResolveSource(proxies: seq<ValidBlock>, tcp: TcpStream, observed: SocketAddr, inTime: bool)
    returns (source: SocketAddr, stream: Option<PrefixedStream>)
    modifies tcp
    ensures var r := Resolved(old(tcp.data), Trusts(proxies, observed.Host()), inTime, observed);
            && (stream.Some? <==> r.Some?)
            && (stream.Some? ==>
                  && fresh(stream.value) && stream.value.inner == tcp && stream.value.Valid()
                  && r.value == (source, stream.value.Rest()))
  {
    source, stream := observed, None;
    if !Trusts(proxies, observed.Host()) {
      var s := new PrefixedStream([], tcp);
      stream := Some(s);
      assert s.Rest() == tcp.data;
    } else if inTime {
      var declared, s := ReadSourceAddr(tcp);
      stream := s;
      if declared.Some? {
        source := declared.value;
      }
    }
  }

  // ---- The request head ----

  const MAX_HEAD_BYTES: nat := 16 * 1024
  const BLANK_LINE: seq<Byte> := [0x0D, 0x0A, 0x0D, 0x0A]

  predicate EndsHead(s: seq<Byte>) {
    |s| >= 4 && s[|s| - 4..] == BLANK_LINE
  }

  /** `n` is the length of the shortest prefix that ends in a blank line. */
  ghost predicate HeadLength(bytes: seq<Byte>, n: nat) {
    n <= |bytes| && EndsHead(bytes[..n]) && forall m | 0 <= m < n :: !EndsHead(bytes[..m])
  }

  datatype Head = HeadBytes(bytes: seq<Byte>) | HeadEof | HeadTooLong

  /** Exactly what reading a head from these bytes must yield. */
  ghost predicate IsHead(bytes: seq<Byte>, head: Head) {
    match head
    case HeadBytes(h) => |h| <= MAX_HEAD_BYTES && HeadLength(bytes, |h|) && h == bytes[..|h|]
    case HeadTooLong => |bytes| >= MAX_HEAD_BYTES && NoHead(bytes, MAX_HEAD_BYTES)
    case HeadEof => |bytes| < MAX_HEAD_BYTES && NoHead(bytes, |bytes|)
  }

  ghost predicate NoHead(bytes: seq<Byte>, n: nat)
    requires n <= |bytes|
  {
    forall m | 0 <= m <= n :: !EndsHead(bytes[..m])
  }

  /** A byte string has only one head. */
  lemma HeadIsUnique(bytes: seq<Byte>, a: Head, b: Head)
    requires IsHead(bytes, a) && IsHead(bytes, b)
    ensures a == b
  {
    HeadEnds(bytes, a);
    HeadEnds(bytes, b);
  }

  lemma HeadEnds(bytes: seq<Byte>, head: Head)
    requires IsHead(bytes, head)
    ensures head.HeadBytes? ==> EndsHead(bytes[..|head.bytes|])
  {
  }

  lemma Regroup(buf: seq<Byte>, byte: seq<Byte>, rest: seq<Byte>)
    ensures (buf + byte) + rest == buf + (byte + rest)
    ensures (buf + (byte + rest))[..|buf + byte|] == buf + byte
  {
  }

  lemma NextByte(bytes: seq<Byte>, n: nat)
    requires n < |bytes| && NoHead(bytes, n)
    ensures if EndsHead(bytes[..n + 1]) then HeadLength(bytes, n + 1) else NoHead(bytes, n + 1)
  {
  }

  /** Read the request head a byte at a time. */
  method ReadRequestHead(stream: PrefixedStream) returns (head: Head)
    requires stream.Valid()
    modifies stream`consumed, stream.inner
    ensures stream.Valid() && IsHead(old(stream.Rest()), head)
    ensures head.HeadBytes? ==> head.bytes + stream.Rest() == old(stream.Rest())
  {
    ghost var bytes := stream.Rest();
    var buf: seq<Byte> := [];
    while true
      invariant stream.Valid() && buf + stream.Rest() == bytes
      invariant |buf| < MAX_HEAD_BYTES && NoHead(bytes, |buf|)
      decreases MAX_HEAD_BYTES - |buf|
    {
      var byte := stream.Read(1);
      if byte == [] {
        assert buf == bytes;
        return HeadEof;
      }
      NextByte(bytes, |buf|);
      Regroup(buf, byte, stream.Rest());
      buf := buf + byte;
      if EndsHead(buf) {
        return HeadBytes(buf);
      }
      if |buf| >= MAX_HEAD_BYTES {
        return HeadTooLong;
      }
    }
  }

  // ---- The whole path ----

  /** What becomes of a connection: dropped, answered as a page, or handed to the WebSocket layer. */
  datatype Fate = Dropped | Page(head: seq<Byte>) | Wire(source: SocketAddr, bytes: seq<Byte>)

  /** The fate of a connection from the bytes its client sends. `classify` reads a request head: none
      when it is malformed, otherwise whether it asks for a WebSocket. */
  ghost predicate IsFate(
      client: seq<Byte>, trusted: bool, inTime: bool, observed: SocketAddr, classify: seq<Byte> -> Option<bool>,
      fate: Fate)
  {
    var r := Resolved(client, trusted, inTime, observed);
    if r.None? then fate == Dropped
    else
      exists head :: IsHead(r.value.1, head) &&
        if !head.HeadBytes? || classify(head.bytes).None? then fate == Dropped
        else if classify(head.bytes).value then fate == Wire(r.value.0, r.value.1)
        else fate == Page(head.bytes)
  }

  lemma FateIsUnique(
      client: seq<Byte>, trusted: bool, inTime: bool, observed: SocketAddr, classify: seq<Byte> -> Option<bool>,
      a: Fate, b: Fate)
    requires IsFate(client, trusted, inTime, observed, classify, a)
    requires IsFate(client, trusted, inTime, observed, classify, b)
    ensures a == b
  {
    var r := Resolved(client, trusted, inTime, observed);
    if r.Some? {
      forall h, h' | IsHead(r.value.1, h) && IsHead(r.value.1, h')
        ensures h == h'
      {
        HeadIsUnique(r.value.1, h, h');
      }
    }
  }

  /** Accept one connection up to the WebSocket handshake. A WebSocket client's stream still holds
      every byte its request resolved to, the peeked head included. */
  method Accept(
      proxies: seq<ValidBlock>, tcp: TcpStream, observed: SocketAddr, inTime: bool, classify: seq<Byte> -> Option<bool>)
    returns (ghost fate: Fate, source: SocketAddr, ws: Option<Prefixed>)
    modifies tcp
    ensures IsFate(old(tcp.data), Trusts(proxies, observed.Host()), inTime, observed, classify, fate)
    ensures ws.Some? <==> fate.Wire?
    ensures ws.Some? ==>
              && fresh(ws.value) && fresh(ws.value.inner) && ws.value.inner.inner == tcp && ws.value.Valid()
              && fate == Wire(source, ws.value.Rest())
  {
    fate, ws := Dropped, None;
    var s;
    source, s := ResolveSource(proxies, tcp, observed, inTime);
    if s.None? {
      return;
    }
    var stream := s.value;
    ghost var bytes := stream.Rest();
    var head := ReadRequestHead(stream);
    assert IsHead(bytes, head);
    if !head.HeadBytes? || classify(head.bytes).None? {
      return;
    }
    if !classify(head.bytes).value {
      fate := Page(head.bytes);
      return;
    }
    var w := new Prefixed(head.bytes, stream);
    ws := Some(w);
    fate := Wire(source, bytes);
  }

  ghost function Joined(chunks: seq<seq<Byte>>): seq<Byte> {
    if chunks == [] then [] else Joined(chunks[..|chunks| - 1]) + chunks[|chunks| - 1]
  }

  /** The WebSocket layer's reads, of any sizes. */
  method ReadAll(ws: Prefixed, sizes: seq<nat>) returns (chunks: seq<seq<Byte>>)
    requires ws.Valid()
    modifies ws`pos, ws.inner`consumed, ws.inner.inner
    ensures ws.Valid() && |chunks| == |sizes|
    ensures Joined(chunks) + ws.Rest() == old(ws.Rest())
    ensures forall i | 0 <= i < |sizes| :: |chunks[i]| <= sizes[i]
    ensures (exists i :: 0 <= i < |sizes| && sizes[i] > 0 && chunks[i] == []) ==> ws.Rest() == []
  {
    chunks := [];
    for n := 0 to |sizes|
      invariant ws.Valid() && |chunks| == n
      invariant Joined(chunks) + ws.Rest() == old(ws.Rest())
      invariant forall i | 0 <= i < n :: |chunks[i]| <= sizes[i]
      invariant (exists i :: 0 <= i < n && sizes[i] > 0 && chunks[i] == []) ==> ws.Rest() == []
    {
      ghost var before := ws.Rest();
      var chunk := ws.Read(sizes[n]);
      assert (chunks + [chunk])[..n] == chunks;
      assert Joined(chunks + [chunk]) + ws.Rest() == Joined(chunks) + before;
      chunks := chunks + [chunk];
    }
  }

  /** End to end: whatever the client sends, however the network splits it and whatever sizes the
      WebSocket layer reads in, that layer sees the bytes of the connection's fate in order, and all
      of them once it has read to the end. */
  method SeenByWebSocket(
      client: seq<Byte>, proxies: seq<ValidBlock>, observed: SocketAddr, inTime: bool,
      classify: seq<Byte> -> Option<bool>, sizes: seq<nat>)
    returns (upgraded: bool, source: SocketAddr, chunks: seq<seq<Byte>>)
    ensures upgraded ==> exists bytes, rest ::
              && IsFate(client, Trusts(proxies, observed.Host()), inTime, observed, classify, Wire(source, bytes))
              && |chunks| == |sizes| && bytes == Joined(chunks) + rest
              && ((exists i :: 0 <= i < |sizes| && sizes[i] > 0 && chunks[i] == []) ==> rest == [])
    ensures !upgraded ==> forall s, bytes ::
              !IsFate(client, Trusts(proxies, observed.Host()), inTime, observed, classify, Wire(s, bytes))
  {
    var tcp := new TcpStream(client);
    ghost var fate;
    var ws;
    fate, source, ws := Accept(proxies, tcp, observed, inTime, classify);
    upgraded, chunks := ws.Some?, [];
    if upgraded {
      chunks := ReadAll(ws.value, sizes);
      ghost var rest := ws.value.Rest();
      assert fate == Wire(source, Joined(chunks) + rest);
    } else {
      forall s, bytes
        ensures !IsFate(client, Trusts(proxies, observed.Host()), inTime, observed, classify, Wire(s, bytes))
      {
        if IsFate(client, Trusts(proxies, observed.Host()), inTime, observed, classify, Wire(s, bytes)) {
          FateIsUnique(client, Trusts(proxies, observed.Host()), inTime, observed, classify, fate, Wire(s, bytes));
          assert false;
        }
      }
    }
  }

  /** Byte transparency: a WebSocket client's bytes are the client's own, less exactly one header when
      its source is trusted and the fixed part of a header parses, and they begin with the head that
      asked for the upgrade, within the size cap. */
  lemma WireBytesAreTheClients(
      client: seq<Byte>, trusted: bool, inTime: bool, observed: SocketAddr, classify: seq<Byte> -> Option<bool>,
      source: SocketAddr, bytes: seq<Byte>)
    requires IsFate(client, trusted, inTime, observed, classify, Wire(source, bytes))
    ensures if trusted && |client| >= V2_FIXED_LEN && ParseFixed(client[..V2_FIXED_LEN]).Ok?
            then var len := ParseFixed(client[..V2_FIXED_LEN]).value.1;
                 V2_FIXED_LEN + len <= |client| && bytes == client[V2_FIXED_LEN + len..]
            else bytes == client
    ensures exists n: nat :: FirstBlankLine(bytes, n) && n <= 16384 && classify(bytes[..n]) == Some(true)
  {
    var head :| IsHead(bytes, head) && head.HeadBytes? && classify(head.bytes) == Some(true);
    HeadIsToTheBlankLine(bytes, |head.bytes|);
    assert FirstBlankLine(bytes, |head.bytes|) && bytes[..|head.bytes|] == head.bytes;
  }

  /** The first blank line, a return and a line feed twice, ends at byte `n`. */
  ghost predicate FirstBlankLine(bytes: seq<Byte>, n: nat) {
    BlankLineAt(bytes, n) && forall m | 0 <= m < n :: !BlankLineAt(bytes, m)
  }

  ghost predicate BlankLineAt(bytes: seq<Byte>, n: nat) {
    4 <= n <= |bytes| && bytes[n - 4..n] == [13, 10, 13, 10]
  }

  /** A request head ends with the first blank line. */
  lemma HeadIsToTheBlankLine(bytes: seq<Byte>, n: nat)
    ensures HeadLength(bytes, n) <==> FirstBlankLine(bytes, n)
  {
    forall m | 4 <= m <= |bytes|
      ensures EndsHead(bytes[..m]) <==> BlankLineAt(bytes, m)
    {
      assert bytes[..m][m - 4..] == bytes[m - 4..m];
    }
    if HeadLength(bytes, n) {
      assert EndsHead(bytes[..n]);
      forall m | 0 <= m < n
        ensures !BlankLineAt(bytes, m)
      {
        assert !EndsHead(bytes[..m]);
      }
    }
  }

  /** A direct client keeps its observed address and all its bytes. */
  lemma DirectKeepsItsAddress(
      client: seq<Byte>, inTime: bool, observed: SocketAddr, classify: seq<Byte> -> Option<bool>, source: SocketAddr,
      bytes: seq<Byte>)
    requires IsFate(client, false, inTime, observed, classify, Wire(source, bytes))
    ensures source == observed && bytes == client
  {
  }

  /** Behind a trusted proxy, a client whose header comes in time has exactly the fate of a direct client
      at the address the header declares, with the bytes after it. */
  lemma ProxiedIsDirect(
      e: Endpoints, srcPort: U16, dstPort: U16, tlvs: seq<Byte>, payload: seq<Byte>, observed: SocketAddr,
      classify: seq<Byte> -> Option<bool>, fate: Fate)
    requires |EncodeBlock(e, srcPort, dstPort, tlvs)| <= MAX_ADDRESS_BLOCK
    ensures IsFate(Encode(e, srcPort, dstPort, tlvs) + payload, true, true, observed, classify, fate)
       <==> IsFate(payload, false, true, SocketOf(e.Source(), srcPort), classify, fate)
  {
    DecodeInvertsEncode(e, srcPort, dstPort, tlvs, payload);
  }

  /** With a header that names no source it has the fate of a direct client at the proxy's own address. */
  lemma SourcelessIsDirect(
      cmd: Byte, family: Byte, block: seq<Byte>, payload: seq<Byte>, observed: SocketAddr,
      classify: seq<Byte> -> Option<bool>, fate: Fate)
    requires cmd <= 1 && |block| <= MAX_ADDRESS_BLOCK
    requires cmd == 1 ==> (family == 0x11 ==> |block| < 12) && (family == 0x21 ==> |block| < 36)
    ensures IsFate(HeaderBytes(cmd, family, block) + payload, true, true, observed, classify, fate)
       <==> IsFate(payload, false, true, observed, classify, fate)
  {
    SourcelessHeaderIsTaken(cmd, family, block, payload);
  }

  /** Without a header it has the fate of a direct client there with all its bytes; and it is dropped if
      the header is late or the stream ends within its fixed part. */
  lemma UnmarkedIsDirect(
      client: seq<Byte>, inTime: bool, observed: SocketAddr, classify: seq<Byte> -> Option<bool>, fate: Fate)
    requires |client| < 16 || OtherBytes(client)
    ensures IsFate(client, true, inTime, observed, classify, fate) <==>
            if inTime && |client| >= 16 then IsFate(client, false, true, observed, classify, fate) else fate == Dropped
  {
    if |client| >= 16 {
      OtherBytesAreLeft(client);
    }
  }
}
