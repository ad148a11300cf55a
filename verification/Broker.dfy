/** The relay as a step system: every block that holds the registry lock is one step, every send is
    one step, and the steps of different connections interleave freely. */
module Broker {
  import opened Net
  import opened Wire
  import opened Limits
  import Dial

  type ConnId = nat

  datatype Config = Config(
    maxConnections: U64, queueCapacity: nat, deadline: nat, maxConnsPerIp: U32, maxRegsPerIp: U32)

  /** A registry record. Its outbound channel is the one of connection `chan`. */
  datatype Peer = Peer(network: NetworkId, info: PeerInfo, chan: ConnId)

  type Registry = map<PeerId, Peer>

  /** A send still to be tried, and the record it was looked up under, if any. */
  datatype Send = Send(chan: ConnId, msg: Message, to: Option<PeerId>)

  /** Where a connection's task is. */
  datatype Phase =
    | Idle
    | Pending(action: Action)
    | Reserved(peerId: PeerId, networkId: NetworkId, version: U32, listenAddrs: seq<SocketAddr>)
    | Registered(peerId: PeerId, networkId: NetworkId)
    | Declined                                   // refused at the registry, the slot still held
    | Closing
    | Draining
    | Gone

  /** A connection: its task, its registration slot, its liveness stamp and its outbound channel. */
  datatype Conn = Conn(
    ip: Ip, verified: Option<PeerId>, session: Session, phase: Phase, todo: seq<Send>,
    holdsReg: bool, activity: nat, queue: seq<Message>, open: bool)

  datatype State = State(
    now: nat, registry: Registry, connected: U64, conns: map<ConnId, Conn>,
    connCount: map<IpKey, U32>, regCount: map<IpKey, U32>, sweeping: seq<Send>, lastSweep: nat)

  /** One victim of a sweep, and the records told of its departure. */
  datatype Victim = Victim(id: PeerId, told: seq<PeerId>)

  datatype Event =
    | Open(c: ConnId, ip: Ip, verified: Option<PeerId>)
    | Arrive(c: ConnId, frame: Option<Message>)   // no message when the frame does not parse
    | Leave(c: ConnId, byFrame: bool)            // on a frame over budget, or without one
    | Reserve(c: ConnId, rateOk: bool)
    | Commit(c: ConnId, told: seq<PeerId>)
    | Settle(c: ConnId)
    | Act(c: ConnId, told: seq<PeerId>)
    | Deliver(c: ConnId)
    | Deregister(c: ConnId, told: seq<PeerId>)
    | Finish(c: ConnId)
    | Drain(c: ConnId)
    | Shut(c: ConnId)
    | Sweep(at: nat, victims: seq<Victim>)
    | SweepDeliver
    | Tick(to: nat)

  ghost function Init(): State {
    State(0, map[], 0, map[], map[], map[], [], 0)
  }

  // ---- Registry queries ----

  /** The records a fan-out from `from` on `network` goes to. */
  ghost function Targets(reg: Registry, from: PeerId, network: NetworkId, exclude: seq<PeerId>): set<PeerId> {
    set id | id in reg && reg[id].network == network && id != from && id !in exclude
  }

  /** A list of the set's elements, each exactly once, in whatever order the map yields them. */
  ghost predicate Lists(ids: seq<PeerId>, s: set<PeerId>) {
    multiset(ids) == multiset(s)
  }

  ghost function SendsTo(reg: Registry, ids: seq<PeerId>, msg: Message): (sends: seq<Send>)
    requires forall id | id in ids :: id in reg
    ensures |sends| == |ids|
    ensures forall i | 0 <= i < |ids| :: sends[i] == Send(reg[ids[i]].chan, msg, Some(ids[i]))
  {
    seq(|ids|, i requires 0 <= i < |ids| => Send(reg[ids[i]].chan, msg, Some(ids[i])))
  }

  /** Every send goes to a channel there is. */
  ghost predicate SendsOk<T>(chans: map<ConnId, T>, sends: seq<Send>) {
    forall i | 0 <= i < |sends| :: sends[i].chan in chans
  }

  lemma ListsOnly(ids: seq<PeerId>, s: set<PeerId>)
    requires Lists(ids, s)
    ensures forall id :: id in ids <==> id in s
    ensures |ids| == |s|
    ensures forall i, j | 0 <= i < j < |ids| :: ids[i] != ids[j]
  {
    assert forall id :: id in ids <==> id in multiset(ids);
    assert |multiset(ids)| == |ids| && |multiset(s)| == |s|;
    forall i, j | 0 <= i < j < |ids|
      ensures ids[i] != ids[j]
    {
      Repeated(ids, i, j);
    }
  }

  lemma Repeated(ids: seq<PeerId>, i: nat, j: nat)
    requires i < j < |ids|
    ensures ids[i] == ids[j] ==> multiset(ids)[ids[j]] >= 2
  {
    assert ids == ids[..j] + [ids[j]] + ids[j + 1..];
    assert ids[i] in ids[..j];
  }

  ghost predicate IsOpen(s: State, id: PeerId)
    requires id in s.registry && s.registry[id].chan in s.conns
  {
    s.conns[s.registry[id].chan].open
  }

  /** What the health sweep removes: a closed channel, or one silent for longer than the deadline. */
  predicate DeadOrSilent(open: bool, activity: nat, at: nat, deadline: nat) {
    !open || Silence(at, activity) > deadline
  }

  ghost predicate DeadOrStale(cfg: Config, s: State, at: nat, id: PeerId)
    requires id in s.registry && s.registry[id].chan in s.conns
  {
    DeadOrSilent(IsOpen(s, id), s.conns[s.registry[id].chan].activity, at, cfg.deadline)
  }

  function Silence(at: nat, activity: nat): nat {
    if activity <= at then at - activity else 0
  }

  ghost predicate ChansKnown(s: State) {
    forall id | id in s.registry :: s.registry[id].chan in s.conns
  }

  ghost function Victims(cfg: Config, s: State, at: nat): set<PeerId>
    requires ChansKnown(s)
  {
    set id | id in s.registry && DeadOrStale(cfg, s, at, id)
  }

  // ---- The atomic `u64` counter ----

  function Increment(n: U64): U64 {
    if n == U64_MAX then 0 else n + 1
  }

  function Decrement(n: U64): U64 {
    if n == 0 then U64_MAX else n - 1
  }

  // ---- Steps ----

  ghost function With(s: State, c: ConnId, conn: Conn): State {
    s.(conns := s.conns[c := conn])
  }

  /** `try_send` on a channel's queue: dropped when the channel is closed or the queue is full. */
  function Queued(queue: seq<Message>, open: bool, capacity: nat, msg: Message): seq<Message> {
    if open && |queue| < capacity then queue + [msg] else queue
  }

  ghost function TrySend(cfg: Config, conn: Conn, msg: Message): Conn {
    conn.(queue := Queued(conn.queue, conn.open, cfg.queueCapacity, msg))
  }

  ghost function Self(c: ConnId, msgs: seq<Message>): (sends: seq<Send>)
    ensures |sends| == |msgs| && forall i | 0 <= i < |msgs| :: sends[i] == Send(c, msgs[i], None)
  {
    seq(|msgs|, i requires 0 <= i < |msgs| => Send(c, msgs[i], None))
  }

  /** A registration refused for want of a slot: the two replies, and the connection ends. */
  ghost function Refused(c: ConnId, conn: Conn, connected: nat, code: U32): Conn {
    conn.(phase := Closing, todo := Self(c, [RegisterAck(false, connected), Error(code)]))
  }

  /** Connection `c` has nothing left to send. */
  ghost predicate Ready(s: State, c: ConnId) {
    c in s.conns && s.conns[c].todo == []
  }

  ghost function OpenStep(cfg: Config, s: State, c: ConnId, ip: Ip, verified: Option<PeerId>): State {
    var conn := Conn(ip, verified, Session(None, None), Idle, [], false, s.now, [], true);
    With(s, c, conn).(connCount := Take(s.connCount, KeyOf(ip), cfg.maxConnsPerIp))
  }

  ghost function ArriveStep(s: State, c: ConnId, frame: Option<Message>): State
    requires c in s.conns
  {
    var conn := s.conns[c];
    var action := if frame.Some? then Dispatch(conn.session, frame.value) else Fail(BAD_MESSAGE);
    With(s, c, conn.(activity := s.now, phase := Pending(action)))
  }

  /** Rate and slot, before the registry lock. */
  ghost function ReserveStep(cfg: Config, s: State, c: ConnId, rateOk: bool): State
    requires c in s.conns && s.conns[c].phase.Pending? && s.conns[c].phase.action.DoRegister?
  {
    var conn, a := s.conns[c], s.conns[c].phase.action;
    var key := KeyOf(conn.ip);
    if !rateOk then With(s, c, Refused(c, conn, s.connected, RATE_LIMITED))
    else if !CanTake(s.regCount, key, cfg.maxRegsPerIp) then
      With(s, c, Refused(c, conn, s.connected, RATE_LIMITED)).(regCount := Take(s.regCount, key, cfg.maxRegsPerIp))
    else
      With(s, c, conn.(phase := Reserved(a.peerId, a.networkId, a.version, a.listenAddrs)))
        .(regCount := Take(s.regCount, key, cfg.maxRegsPerIp))
  }

  /** Why the registry, of `size` records, refuses `id` to a connection whose certificate, if it has
      one, is for `verified`; `held` is whether an open channel holds the id. */
  ghost function RefusalFor(size: nat, max: nat, verified: Option<PeerId>, id: PeerId, held: bool): Option<U32> {
    if verified.Some? && verified.value != id then Some(IDENTITY_MISMATCH)
    else if size >= max then Some(CAPACITY)
    else if held then Some(ID_IN_USE)
    else None
  }

  ghost function Refusal(cfg: Config, s: State, c: ConnId): Option<U32>
    requires c in s.conns && s.conns[c].phase.Reserved? && ChansKnown(s)
  {
    var id := s.conns[c].phase.peerId;
    RefusalFor(|s.registry|, cfg.maxConnections, s.conns[c].verified, id, id in s.registry && IsOpen(s, id))
  }

  /** The record of a registration from `ip`: its published addresses are resolved at the source. */
  ghost function RecordOf(
      id: PeerId, network: NetworkId, version: U32, listenAddrs: seq<SocketAddr>, ip: Ip, chan: ConnId): Peer
  {
    Peer(network, PeerInfo(id, network, version, Dial.Published(listenAddrs, ip)), chan)
  }

  /** The registry with the reserved registration in it. */
  ghost function Entered(s: State, c: ConnId): Registry
    requires c in s.conns && s.conns[c].phase.Reserved?
  {
    var p := s.conns[c].phase;
    s.registry[p.peerId := RecordOf(p.peerId, p.networkId, p.version, p.listenAddrs, s.conns[c].ip, c)]
  }

  ghost function CommitStep(cfg: Config, s: State, c: ConnId, told: seq<PeerId>): State
    requires c in s.conns && s.conns[c].phase.Reserved? && ChansKnown(s)
    requires Refusal(cfg, s, c).None? ==> forall id | id in told :: id in Entered(s, c)
  {
    var conn, p := s.conns[c], s.conns[c].phase;
    if Refusal(cfg, s, c).Some? then
      With(s, c, Refused(c, conn, |s.registry|, Refusal(cfg, s, c).value).(phase := Declined))
    else
      var reg := Entered(s, c);
      var sends := Self(c, [RegisterAck(true, |reg|)]) + SendsTo(reg, told, PeerConnected(reg[p.peerId].info));
      With(s, c, conn.(phase := Registered(p.peerId, p.networkId), todo := sends))
        .(registry := reg, connected := if p.peerId in s.registry then s.connected else Increment(s.connected))
  }

  /** The end of a registration, its answer sent. Accepted, it keeps the slot in place of any earlier one;
      refused, it gives the slot back and the connection ends. */
  ghost function SettleStep(cfg: Config, s: State, c: ConnId): State
    requires c in s.conns && (s.conns[c].phase.Registered? || s.conns[c].phase.Declined?)
  {
    var conn, p := s.conns[c], s.conns[c].phase;
    var returned := Return(s.regCount, KeyOf(conn.ip), cfg.maxRegsPerIp);
    if p.Declined? then With(s, c, conn.(phase := Closing)).(regCount := returned)
    else
      With(s, c, conn.(phase := Idle, holdsReg := true, session := Session(Some(p.peerId), Some(p.networkId))))
        .(regCount := if conn.holdsReg then returned else s.regCount)
  }

  /** The sends an action makes, given the fan-out order the registry yields. */
  ghost function ActSends(s: State, c: ConnId, told: seq<PeerId>): seq<Send>
    requires c in s.conns && s.conns[c].phase.Pending?
    requires forall id | id in told :: id in s.registry
  {
    var conn := s.conns[c];
    match conn.phase.action
    case ReplyToSelf(replies) => Self(c, replies)
    case ListPeers(filter) =>
      var infos :=
        set id | id in s.registry && (filter == None || filter == Some(s.registry[id].network)) :: s.registry[id].info;
      Self(c, [Peers(infos)])
    case ForwardTo(to, msg) =>
      if conn.session.network.None? then []
      else if to in s.registry && s.registry[to].network == conn.session.network.value
      then SendsTo(s.registry, [to], msg)
      else Self(c, [Error(PEER_NOT_FOUND)])
    case FanOut(_, _, msg) => if conn.session.network.None? then [] else SendsTo(s.registry, told, msg)
    case Fail(code) => Self(c, [Error(code)])
    case DoRegister(_, _, _, _) => []
    case Close => []
    case Nothing => []
  }

  ghost function ActStep(s: State, c: ConnId, told: seq<PeerId>): State
    requires c in s.conns && s.conns[c].phase.Pending?
    requires forall id | id in told :: id in s.registry
  {
    var conn := s.conns[c];
    With(s, c, conn.(phase := if conn.phase.action.Close? then Closing else Idle, todo := ActSends(s, c, told)))
  }

  ghost function DeliverStep(cfg: Config, s: State, c: ConnId): State
    requires c in s.conns && s.conns[c].todo != [] && s.conns[c].todo[0].chan in s.conns
  {
    var send := s.conns[c].todo[0];
    var s' := With(s, c, s.conns[c].(todo := s.conns[c].todo[1..]));
    With(s', send.chan, TrySend(cfg, s'.conns[send.chan], send.msg))
  }

  /** The id a tearing-down connection takes out of the registry, if it is there. */
  ghost function Departing(s: State, c: ConnId): Option<PeerId>
    requires c in s.conns
  {
    var session := s.conns[c].session;
    if session.peer.Some? && session.network.Some? && session.peer.value in s.registry then session.peer else None
  }

  ghost function DeregisterStep(s: State, c: ConnId, told: seq<PeerId>): State
    requires c in s.conns
    requires Departing(s, c).Some? ==> forall id | id in told :: id in s.registry - {Departing(s, c).value}
  {
    var conn := s.conns[c];
    if Departing(s, c).None? then With(s, c, conn.(phase := Draining))
    else
      var id := Departing(s, c).value;
      var reg := s.registry - {id};
      With(s, c, conn.(phase := Draining, todo := SendsTo(reg, told, PeerDisconnected(id))))
        .(registry := reg, connected := Decrement(s.connected))
  }

  ghost function FinishStep(cfg: Config, s: State, c: ConnId): State
    requires c in s.conns
  {
    var conn := s.conns[c];
    With(s, c, conn.(phase := Gone, holdsReg := false))
      .(connCount := Return(s.connCount, KeyOf(conn.ip), cfg.maxConnsPerIp),
        regCount := if conn.holdsReg then Return(s.regCount, KeyOf(conn.ip), cfg.maxRegsPerIp) else s.regCount)
  }

  // ---- The sweep ----

  /** Each victim in turn is a record still there, and the records told are those left on its network. */
  ghost predicate SweepOrder(reg: Registry, victims: seq<Victim>)
    decreases |victims|
  {
    victims != [] ==>
      var v := victims[0];
      && v.id in reg
      && Lists(v.told, Targets(reg - {v.id}, v.id, reg[v.id].network, []))
      && SweepOrder(reg - {v.id}, victims[1..])
  }

  /** The registry, the counter and the notices after removing the victims one by one. */
  ghost function SweepAll(reg: Registry, connected: U64, victims: seq<Victim>): (Registry, U64, seq<Send>)
    requires SweepOrder(reg, victims)
    decreases |victims|
  {
    if victims == [] then (reg, connected, [])
    else
      var v := victims[0];
      var left := reg - {v.id};
      var notices := SweepNotices(reg, v);
      var (reg', connected', sends) := SweepAll(left, Decrement(connected), victims[1..]);
      (reg', connected', notices + sends)
  }

  ghost function SweepNotices(reg: Registry, v: Victim): seq<Send>
    requires v.id in reg && Lists(v.told, Targets(reg - {v.id}, v.id, reg[v.id].network, []))
  {
    ListsOnly(v.told, Targets(reg - {v.id}, v.id, reg[v.id].network, []));
    SendsTo(reg, v.told, PeerDisconnected(v.id))
  }

  ghost function Ids(victims: seq<Victim>): (ids: seq<PeerId>)
    ensures |ids| == |victims| && forall i | 0 <= i < |victims| :: ids[i] == victims[i].id
  {
    seq(|victims|, i requires 0 <= i < |victims| => victims[i].id)
  }

  ghost function SweepStep(s: State, at: nat, victims: seq<Victim>): State
    requires SweepOrder(s.registry, victims)
  {
    var (reg, connected, sends) := SweepAll(s.registry, s.connected, victims);
    s.(registry := reg, connected := connected, sweeping := sends, lastSweep := at)
  }

  ghost function SweepDeliverStep(cfg: Config, s: State): State
    requires s.sweeping != [] && s.sweeping[0].chan in s.conns
  {
    var send := s.sweeping[0];
    With(s, send.chan, TrySend(cfg, s.conns[send.chan], send.msg)).(sweeping := s.sweeping[1..])
  }

  // ---- The step relation ----

  ghost predicate Enabled(cfg: Config, s: State, e: Event) {
    ChansKnown(s) &&
    match e
    case Open(c, ip, _) => c !in s.conns && CanTake(s.connCount, KeyOf(ip), cfg.maxConnsPerIp)
    case Arrive(c, _) => Ready(s, c) && s.conns[c].phase.Idle?
    case Leave(c, _) => Ready(s, c) && s.conns[c].phase.Idle?
    case Reserve(c, _) => Ready(s, c) && s.conns[c].phase.Pending? && s.conns[c].phase.action.DoRegister?
    case Commit(c, told) =>
      && Ready(s, c) && s.conns[c].phase.Reserved?
      && (Refusal(cfg, s, c).None? ==>
            Lists(told, Targets(Entered(s, c), s.conns[c].phase.peerId, s.conns[c].phase.networkId, [])))
    case Settle(c) => Ready(s, c) && (s.conns[c].phase.Registered? || s.conns[c].phase.Declined?)
    case Act(c, told) =>
      && Ready(s, c) && s.conns[c].phase.Pending? && !s.conns[c].phase.action.DoRegister?
      && var conn := s.conns[c];
      if conn.phase.action.FanOut? && conn.session.network.Some? then
        Lists(told, Targets(s.registry, conn.phase.action.from, conn.session.network.value, conn.phase.action.exclude))
      else told == []
    case Deliver(c) => c in s.conns && s.conns[c].todo != [] && s.conns[c].todo[0].chan in s.conns
    case Deregister(c, told) =>
      && Ready(s, c) && s.conns[c].phase.Closing?
      && (Departing(s, c).Some? ==>
            var id := Departing(s, c).value;
            Lists(told, Targets(s.registry - {id}, id, s.conns[c].session.network.value, [])))
    case Finish(c) => Ready(s, c) && s.conns[c].phase.Draining? && !s.conns[c].open
    case Drain(c) => c in s.conns && s.conns[c].open && s.conns[c].queue != []
    case Shut(c) => c in s.conns
    case Sweep(at, victims) =>
      && s.sweeping == [] && s.lastSweep <= at <= s.now
      && multiset(Ids(victims)) == multiset(Victims(cfg, s, at)) && SweepOrder(s.registry, victims)
    case SweepDeliver => s.sweeping != [] && s.sweeping[0].chan in s.conns
    case Tick(to) => s.now <= to
  }

  lemma TargetsInRegistry(reg: Registry, told: seq<PeerId>, from: PeerId, network: NetworkId, exclude: seq<PeerId>)
    requires Lists(told, Targets(reg, from, network, exclude))
    ensures forall id | id in told :: id in reg && reg[id].network == network && id != from && id !in exclude
    ensures forall id | id in reg && reg[id].network == network && id != from && id !in exclude :: id in told
  {
    ListsOnly(told, Targets(reg, from, network, exclude));
  }

  ghost function Step(cfg: Config, s: State, e: Event): State
    requires Enabled(cfg, s, e)
  {
    match e
    case Open(c, ip, verified) => OpenStep(cfg, s, c, ip, verified)
    case Arrive(c, frame) => ArriveStep(s, c, frame)
    case Leave(c, byFrame) =>
      With(s, c, s.conns[c].(phase := Closing, activity := if byFrame then s.now else s.conns[c].activity))
    case Reserve(c, rateOk) => ReserveStep(cfg, s, c, rateOk)
    case Commit(c, told) => CommitNow(cfg, s, c, told)
    case Settle(c) => SettleStep(cfg, s, c)
    case Act(c, told) => ActNow(cfg, s, c, told)
    case Deliver(c) => DeliverStep(cfg, s, c)
    case Deregister(c, told) => DeregisterNow(cfg, s, c, told)
    case Finish(c) => FinishStep(cfg, s, c)
    case Drain(c) => With(s, c, s.conns[c].(queue := s.conns[c].queue[1..]))
    case Shut(c) => With(s, c, s.conns[c].(open := false, queue := []))
    case Sweep(at, victims) => SweepStep(s, at, victims)
    case SweepDeliver => SweepDeliverStep(cfg, s)
    case Tick(to) => s.(now := to)
  }

  ghost function CommitNow(cfg: Config, s: State, c: ConnId, told: seq<PeerId>): State
    requires Enabled(cfg, s, Commit(c, told))
  {
    if Refusal(cfg, s, c).None? then
      TargetsInRegistry(Entered(s, c), told, s.conns[c].phase.peerId, s.conns[c].phase.networkId, []);
      CommitStep(cfg, s, c, told)
    else CommitStep(cfg, s, c, told)
  }

  ghost function ActNow(cfg: Config, s: State, c: ConnId, told: seq<PeerId>): State
    requires Enabled(cfg, s, Act(c, told))
  {
    var conn := s.conns[c];
    if conn.phase.action.FanOut? && conn.session.network.Some? then
      TargetsInRegistry(s.registry, told, conn.phase.action.from, conn.session.network.value,
                        conn.phase.action.exclude);
      ActStep(s, c, told)
    else ActStep(s, c, told)
  }

  ghost function DeregisterNow(cfg: Config, s: State, c: ConnId, told: seq<PeerId>): State
    requires Enabled(cfg, s, Deregister(c, told))
  {
    if Departing(s, c).Some? then
      var id := Departing(s, c).value;
      TargetsInRegistry(s.registry - {id}, told, id, s.conns[c].session.network.value, []);
      DeregisterStep(s, c, told)
    else DeregisterStep(s, c, told)
  }

  // ---- Frames ----

  /** The connection whose task takes the step, if it is a connection's. */
  ghost function Owner(e: Event): Option<ConnId> {
    match e
    case Sweep(_, _) => None
    case SweepDeliver => None
    case Tick(_) => None
    case _ => Some(e.c)
  }

  /** A step that holds the registry lock changes no connection but its own. */
  lemma LockedStepsAreLocal(cfg: Config, s: State, e: Event, c: ConnId)
    requires Enabled(cfg, s, e) && (e.Commit? || e.Act? || e.Deregister?)
    ensures c in Step(cfg, s, e).conns <==> c in s.conns
    ensures c in s.conns && e.c != c ==> Step(cfg, s, e).conns[c] == s.conns[c]
  {
    if e.Commit? {
      var t := CommitNow(cfg, s, e.c, e.told);
      assert t.conns == s.conns[e.c := t.conns[e.c]];
    } else if e.Act? {
      var t := ActNow(cfg, s, e.c, e.told);
      assert t.conns == s.conns[e.c := t.conns[e.c]];
    }
  }

  /** Nothing changes a connection but its own steps, except for what others put on its queue. */
  lemma OthersOnlySend(cfg: Config, s: State, e: Event, c: ConnId)
    requires Enabled(cfg, s, e) && Owner(e) != Some(c)
    ensures var s' := Step(cfg, s, e);
            && (c in s'.conns <==> c in s.conns)
            && (c in s.conns ==> s'.conns[c] == s.conns[c].(queue := s'.conns[c].queue))
            && (c in s.conns && !e.Deliver? && !e.SweepDeliver? ==> s'.conns[c] == s.conns[c])
  {
    if e.Commit? || e.Act? || e.Deregister? {
      LockedStepsAreLocal(cfg, s, e, c);
    }
  }

  /** What a connection's own step makes of its task, slot, session and liveness stamp. */
  ghost predicate OwnChange(cfg: Config, s: State, e: Event, c: ConnId, v: Conn)
    requires Enabled(cfg, s, e) && Owner(e) == Some(c)
  {
    if e.Open? then v == Conn(e.ip, e.verified, Session(None, None), Idle, [], false, s.now, [], true)
    else
      var x := s.conns[c];
      && v.ip == x.ip && v.verified == x.verified
      && v.activity == (if e.Arrive? || (e.Leave? && e.byFrame) then s.now else x.activity)
      && v.holdsReg == ((e.Settle? && x.phase.Registered?) || (x.holdsReg && !e.Finish?))
      && v.session == (if e.Settle? && x.phase.Registered? then Session(Some(x.phase.peerId), Some(x.phase.networkId))
                       else x.session)
      && match e
         case Arrive(_, frame) =>
           v.phase == Pending(if frame.Some? then Dispatch(x.session, frame.value) else Fail(BAD_MESSAGE))
         case Reserve(_, _) => v.phase.Closing? || v.phase.Reserved?
         case Commit(_, _) =>
           if Refusal(cfg, s, c).Some? then v.phase.Declined?
           else v.phase == Registered(x.phase.peerId, x.phase.networkId)
         case Settle(_) => v.phase == if x.phase.Registered? then Idle else Closing
         case Act(_, _) => v.phase.Idle? || v.phase.Closing?
         case Leave(_, _) => v.phase.Closing?
         case Deregister(_, _) => v.phase.Draining?
         case Finish(_) => v.phase.Gone?
         case _ => v.phase == x.phase
  }

  lemma OwnStep(cfg: Config, s: State, e: Event, c: ConnId)
    requires Enabled(cfg, s, e) && Owner(e) == Some(c)
    ensures c in Step(cfg, s, e).conns && OwnChange(cfg, s, e, c, Step(cfg, s, e).conns[c])
  {
    if e.Commit? {
      assert OwnChange(cfg, s, e, c, CommitNow(cfg, s, c, e.told).conns[c]);
    } else if e.Act? {
      assert OwnChange(cfg, s, e, c, ActNow(cfg, s, c, e.told).conns[c]);
    } else if e.Deregister? {
      assert OwnChange(cfg, s, e, c, DeregisterNow(cfg, s, c, e.told).conns[c]);
    } else {
      OwnPlainStep(cfg, s, e, c);
    }
  }

  lemma OwnPlainStep(cfg: Config, s: State, e: Event, c: ConnId)
    requires Enabled(cfg, s, e) && Owner(e) == Some(c) && !e.Commit? && !e.Act? && !e.Deregister?
    ensures c in Step(cfg, s, e).conns && OwnChange(cfg, s, e, c, Step(cfg, s, e).conns[c])
  {
    if e.Reserve? {
      assert OwnChange(cfg, s, e, c, ReserveStep(cfg, s, c, e.rateOk).conns[c]);
    } else if e.Settle? {
      assert OwnChange(cfg, s, e, c, SettleStep(cfg, s, c).conns[c]);
    } else if e.Deliver? {
      assert OwnChange(cfg, s, e, c, DeliverStep(cfg, s, c).conns[c]);
    }
  }
}
