/** The relay's messages, and the pure decision of what an inbound message asks for. */
module Wire {
  import opened Net

  type PeerId = string
  type NetworkId = string

  const NOT_REGISTERED: U32 := 1
  const BAD_MESSAGE: U32 := 2
  const PEER_NOT_FOUND: U32 := 3
  const CAPACITY: U32 := 4
  const ID_IN_USE: U32 := 5
  const IDENTITY_MISMATCH: U32 := 6
  const RATE_LIMITED: U32 := 7

  datatype PeerInfo = PeerInfo(peerId: PeerId, networkId: NetworkId, version: U32, addresses: seq<SocketAddr>)

  datatype Message =
    | Register(peerId: PeerId, networkId: NetworkId, version: U32, listenAddrs: seq<SocketAddr>)
    | RegisterAck(success: bool, connectedPeers: nat)
    | Unregister(leaving: PeerId)
    | Gossip(from: PeerId, to: PeerId, payload: seq<Byte>, seqNo: U64)
    | Broadcast(sender: PeerId, data: seq<Byte>, exclude: seq<PeerId>)
    | PeerConnected(peer: PeerInfo)
    | PeerDisconnected(gone: PeerId)
    | GetPeers(network: Option<NetworkId>)
    | Peers(peers: set<PeerInfo>)
    | Ping(timestamp: U64)
    | Pong(timestamp: U64)
    | HolePunchRequest(claimed: PeerId, target: PeerId, externalAddr: SocketAddr)
    | HolePunchCoordinate(requester: PeerId, externalAddr: SocketAddr)
    | HolePunchResult(about: PeerId, punched: bool)
    | Error(code: U32)
    | GetDhtRecords(maxKeys: nat)
    | DhtRecords(truncated: bool)

  /** The messages that carry the name of the peer they come from. */
  predicate Stamped(m: Message) {
    m.Gossip? || m.Broadcast? || m.HolePunchCoordinate?
  }

  function Stamp(m: Message): PeerId
    requires Stamped(m)
  {
    match m
    case Gossip(from, _, _, _) => from
    case Broadcast(sender, _, _) => sender
    case HolePunchCoordinate(requester, _) => requester
  }

  datatype Session = Session(peer: Option<PeerId>, network: Option<NetworkId>)

  datatype Action =
    | ReplyToSelf(replies: seq<Message>)
    | ListPeers(filter: Option<NetworkId>)
    | DoRegister(peerId: PeerId, networkId: NetworkId, version: U32, listenAddrs: seq<SocketAddr>)
    | ForwardTo(to: PeerId, msg: Message)
    | FanOut(from: PeerId, exclude: seq<PeerId>, msg: Message)
    | Close
    | Nothing
    | Fail(code: U32)

  function SessionId(s: Session): PeerId {
    if s.peer.Some? then s.peer.value else ""
  }

  /** What a parsed message asks for. Before registration only a registration and a peer list are
      served; a relayed message is stamped with the session's own id, whatever it claimed. */
  function Dispatch(s: Session, m: Message): Action {
    match m
    case GetPeers(network) => ListPeers(if network.Some? then network else s.network)
    case Register(p, n, v, l) => DoRegister(p, n, v, l)
    case _ =>
      if s.peer.None? then Fail(NOT_REGISTERED)
      else match m
        case Unregister(_) => Close
        case Gossip(_, to, payload, seqNo) => ForwardTo(to, Gossip(SessionId(s), to, payload, seqNo))
        case Broadcast(_, data, exclude) => FanOut(SessionId(s), exclude, Broadcast(SessionId(s), data, []))
        case DhtRecords(_) => Nothing
        case GetDhtRecords(_) => Fail(BAD_MESSAGE)
        case Ping(t) => ReplyToSelf([Pong(t)])
        case Pong(_) => Nothing
        case HolePunchRequest(_, target, addr) => ForwardTo(target, HolePunchCoordinate(SessionId(s), addr))
        case HolePunchResult(about, punched) => ForwardTo(about, HolePunchResult(about, punched))
        case RegisterAck(_, _) => Nothing
        case Peers(_) => Nothing
        case PeerConnected(_) => Nothing
        case PeerDisconnected(_) => Nothing
        case HolePunchCoordinate(_, _) => Nothing
        case Error(_) => Nothing
  }

  /** The messages an action would put on anyone's queue. */
  function Carried(a: Action): seq<Message> {
    match a
    case ReplyToSelf(replies) => replies
    case ForwardTo(_, msg) => [msg]
    case FanOut(_, _, msg) => [msg]
    case _ => []
  }

  /** The action puts no other name than the session's on a message, and replies only with pongs. */
  ghost predicate CarriesOwnName(s: Session, a: Action) {
    && (forall m | m in Carried(a) && Stamped(m) :: s.peer == Some(Stamp(m)))
    && (a.ForwardTo? ==> (a.msg.Gossip? && a.msg.to == a.to) || a.msg.HolePunchCoordinate? || a.msg.HolePunchResult?)
    && (a.FanOut? ==> a.msg.Broadcast? && s.peer == Some(a.from))
    && (a.ReplyToSelf? ==> forall m | m in a.replies :: m.Pong?)
  }

  /** No inbound message can make the relay carry another peer's name. */
  lemma DispatchStamps(s: Session, m: Message)
    ensures CarriesOwnName(s, Dispatch(s, m))
  {
  }
}
