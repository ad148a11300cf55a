/** What every step of the relay keeps. */
module BrokerInvariant {
  import opened Net
  import opened Wire
  import opened Limits
  import opened Broker
  import Dial

  // ---- Counting connections ----

  ghost function Count(conns: map<ConnId, Conn>, pick: Conn -> bool): nat {
    |Picked(conns, pick)|
  }

  ghost function Picked(conns: map<ConnId, Conn>, pick: Conn -> bool): set<ConnId> {
    set c | c in conns && pick(conns[c])
  }

  lemma CountUpdate(conns: map<ConnId, Conn>, c: ConnId, v: Conn, pick: Conn -> bool)
    ensures Count(conns[c := v], pick)
         == Count(conns, pick) - (if c in conns && pick(conns[c]) then 1 else 0) + (if pick(v) then 1 else 0)
  {
    var before, after := Picked(conns, pick), Picked(conns[c := v], pick);
    assert after == before - {c} + if pick(v) then {c} else {};
  }

  /** The connections from `key` that hold a connection slot: all that have not ended. */
  ghost function LiveFrom(key: IpKey): Conn -> bool {
    (x: Conn) => !x.phase.Gone? && KeyOf(x.ip) == key
  }

  /** The connections from `key` that hold a registration slot for a finished registration. */
  ghost function SettledFrom(key: IpKey): Conn -> bool {
    (x: Conn) => x.holdsReg && KeyOf(x.ip) == key
  }

  /** The connections from `key` that hold a registration slot for one still under way. */
  ghost function InFlightFrom(key: IpKey): Conn -> bool {
    (x: Conn) => InFlight(x) && KeyOf(x.ip) == key
  }

  ghost predicate InFlight(x: Conn) {
    x.phase.Reserved? || x.phase.Registered? || x.phase.Declined?
  }

  ghost function RegSlots(conns: map<ConnId, Conn>, key: IpKey): nat {
    Count(conns, SettledFrom(key)) + Count(conns, InFlightFrom(key))
  }

  /** A count is the number of live slots, never above its cap, and absent when there are none. */
  ghost predicate CountIs(counts: map<IpKey, U32>, key: IpKey, n: nat, cap: U32) {
    if cap == 0 then key !in counts
    else (key in counts <==> n > 0) && (key in counts ==> counts[key] == n) && n <= cap
  }

  ghost predicate SlotsOk(cfg: Config, s: State) {
    forall k :: SlotsOkFor(cfg, s.conns, s.connCount, s.regCount, k)
  }

  ghost predicate SlotsOkFor(
      cfg: Config, conns: map<ConnId, Conn>, connCount: map<IpKey, U32>, regCount: map<IpKey, U32>, k: IpKey)
  {
    && CountIs(connCount, k, Count(conns, LiveFrom(k)), cfg.maxConnsPerIp)
    && CountIs(regCount, k, RegSlots(conns, k), cfg.maxRegsPerIp)
  }

  // ---- Records and connections ----

  /** A record names a known connection and itself; a connection with a certificate has registered no
      other id than the certificate's; and every published address is under that connection's key. */
  ghost predicate PeerOk(conns: map<ConnId, Conn>, id: PeerId, p: Peer) {
    && p.chan in conns
    && p.info.peerId == id && p.info.networkId == p.network
    && (conns[p.chan].verified.Some? ==> conns[p.chan].verified.value == id)
    && forall a | a in p.info.addresses :: KeyOf(a.Host()) == KeyOf(conns[p.chan].ip)
  }

  ghost predicate RecordsOk(conns: map<ConnId, Conn>, reg: Registry) {
    forall id {:trigger PeerOk(conns, id, reg[id])} | id in reg :: PeerOk(conns, id, reg[id])
  }

  ghost predicate ConnOk(cfg: Config, now: nat, conns: map<ConnId, Conn>, x: Conn) {
    && |x.queue| <= cfg.queueCapacity && x.activity <= now && SendsOk(conns, x.todo)
    && (x.session.peer.Some? <==> x.session.network.Some?)
    && (x.phase.Gone? ==> !x.holdsReg && !x.open && x.todo == [])
    && (x.verified.Some? ==>
          && (x.session.peer.Some? ==> x.session.peer == x.verified)
          && (x.phase.Registered? ==> x.phase.peerId == x.verified.value))
  }

  ghost predicate ConnsOk(cfg: Config, now: nat, conns: map<ConnId, Conn>) {
    forall c {:trigger ConnOk(cfg, now, conns, conns[c])} | c in conns :: ConnOk(cfg, now, conns, conns[c])
  }

  ghost predicate Inv(cfg: Config, s: State) {
    && s.connected == |s.registry| <= cfg.maxConnections
    && RecordsOk(s.conns, s.registry)
    && ConnsOk(cfg, s.now, s.conns)
    && SendsOk(s.conns, s.sweeping)
    && s.lastSweep <= s.now
    && SlotsOk(cfg, s)
  }

  lemma InitInv(cfg: Config)
    ensures Inv(cfg, Init())
  {
    forall k
      ensures SlotsOkFor(cfg, Init().conns, Init().connCount, Init().regCount, k)
    {
      assert Picked(map[], LiveFrom(k)) == {};
      assert Picked(map[], SettledFrom(k)) == {} && Picked(map[], InFlightFrom(k)) == {};
    }
  }

  // ---- Steps that keep a connection's slots ----

  /** An update that changes no identity, takes or returns no slot and reopens nothing. */
  ghost predicate Quiet(a: Conn, b: Conn) {
    && a.ip == b.ip && a.verified == b.verified && a.holdsReg == b.holdsReg
    && (a.phase.Gone? <==> b.phase.Gone?) && (InFlight(a) <==> InFlight(b)) && (b.open ==> a.open)
  }

  lemma KnownStays(conns: map<ConnId, Conn>, c: ConnId, v: Conn, sends: seq<Send>)
    requires SendsOk(conns, sends)
    ensures SendsOk(conns[c := v], sends)
  {
  }

  lemma ConnsUpdate(cfg: Config, now: nat, conns: map<ConnId, Conn>, c: ConnId, v: Conn)
    requires ConnsOk(cfg, now, conns) && ConnOk(cfg, now, conns[c := v], v)
    ensures ConnsOk(cfg, now, conns[c := v])
  {
    var after := conns[c := v];
    forall x | x in after
      ensures ConnOk(cfg, now, after, after[x])
    {
      if x != c {
        assert ConnOk(cfg, now, conns, conns[x]);
        KnownStays(conns, c, v, conns[x].todo);
      }
    }
  }

  lemma RecordsUpdate(conns: map<ConnId, Conn>, reg: Registry, c: ConnId, v: Conn)
    requires RecordsOk(conns, reg)
    requires c in conns ==> conns[c].ip == v.ip && conns[c].verified == v.verified
    ensures RecordsOk(conns[c := v], reg)
  {
    forall id | id in reg
      ensures PeerOk(conns[c := v], id, reg[id])
    {
      assert PeerOk(conns, id, reg[id]);
    }
  }

  lemma SlotsUpdate(cfg: Config, s: State, c: ConnId, v: Conn)
    requires SlotsOk(cfg, s) && c in s.conns && Quiet(s.conns[c], v)
    ensures SlotsOk(cfg, With(s, c, v))
  {
    var after := s.conns[c := v];
    forall k
      ensures SlotsOkFor(cfg, after, s.connCount, s.regCount, k)
    {
      assert SlotsOkFor(cfg, s.conns, s.connCount, s.regCount, k);
      CountUpdate(s.conns, c, v, LiveFrom(k));
      CountUpdate(s.conns, c, v, SettledFrom(k));
      CountUpdate(s.conns, c, v, InFlightFrom(k));
    }
  }

  lemma QuietUpdate(cfg: Config, s: State, c: ConnId, v: Conn)
    requires Inv(cfg, s) && c in s.conns && Quiet(s.conns[c], v) && ConnOk(cfg, s.now, s.conns[c := v], v)
    ensures Inv(cfg, With(s, c, v))
  {
    ConnsUpdate(cfg, s.now, s.conns, c, v);
    RecordsUpdate(s.conns, s.registry, c, v);
    SlotsUpdate(cfg, s, c, v);
    KnownStays(s.conns, c, v, s.sweeping);
  }

  /** The same with a change of the registry that keeps its records and its count in order. */
  lemma RegistryUpdate(cfg: Config, s: State, reg: Registry, connected: U64, c: ConnId, v: Conn)
    requires Inv(cfg, s) && c in s.conns && Quiet(s.conns[c], v) && ConnOk(cfg, s.now, s.conns[c := v], v)
    requires RecordsOk(s.conns, reg) && connected == |reg| <= cfg.maxConnections
    ensures Inv(cfg, With(s, c, v).(registry := reg, connected := connected))
  {
    var s' := s.(registry := reg, connected := connected);
    SlotsCarry(cfg, s, s');
    QuietUpdate(cfg, s', c, v);
  }

  lemma SlotsCarry(cfg: Config, s: State, s': State)
    requires SlotsOk(cfg, s) && s'.conns == s.conns && s'.connCount == s.connCount && s'.regCount == s.regCount
    ensures SlotsOk(cfg, s')
  {
  }

  // ---- Steps that take or return a slot ----

  lemma TakeCounts(counts: map<IpKey, U32>, key: IpKey, cap: U32, k: IpKey, n: nat)
    requires CountIs(counts, k, n, cap)
    ensures CanTake(counts, key, cap) ==> CountIs(Take(counts, key, cap), k, n + (if k == key then 1 else 0), cap)
    ensures !CanTake(counts, key, cap) ==> CountIs(Take(counts, key, cap), k, n, cap)
  {
  }

  lemma ReturnCounts(counts: map<IpKey, U32>, key: IpKey, cap: U32, k: IpKey, n: nat)
    requires CountIs(counts, k, n, cap) && (k == key ==> n > 0)
    ensures CountIs(Return(counts, key, cap), k, n - (if k == key then 1 else 0), cap)
  {
  }

  /** How many registration slots a connection holds. */
  ghost function HeldBy(x: Conn): nat {
    (if x.holdsReg then 1 else 0) + if InFlight(x) then 1 else 0
  }

  lemma RegSlotsUpdate(conns: map<ConnId, Conn>, c: ConnId, v: Conn, k: IpKey)
    requires c in conns && conns[c].ip == v.ip
    ensures KeyOf(v.ip) == k ==> RegSlots(conns[c := v], k) == RegSlots(conns, k) - HeldBy(conns[c]) + HeldBy(v)
    ensures KeyOf(v.ip) != k ==> RegSlots(conns[c := v], k) == RegSlots(conns, k)
  {
    CountUpdate(conns, c, v, SettledFrom(k));
    CountUpdate(conns, c, v, InFlightFrom(k));
  }

  lemma HeldIsCounted(conns: map<ConnId, Conn>, c: ConnId)
    requires c in conns
    ensures RegSlots(conns, KeyOf(conns[c].ip)) >= HeldBy(conns[c])
    ensures !conns[c].phase.Gone? ==> Count(conns, LiveFrom(KeyOf(conns[c].ip))) >= 1
  {
    var k := KeyOf(conns[c].ip);
    if conns[c].holdsReg {
      assert c in Picked(conns, SettledFrom(k));
    }
    if InFlight(conns[c]) {
      assert c in Picked(conns, InFlightFrom(k));
    }
    if !conns[c].phase.Gone? {
      assert c in Picked(conns, LiveFrom(k));
    }
  }

  lemma SlotTaken(cfg: Config, s: State, c: ConnId, v: Conn)
    requires SlotsOk(cfg, s) && c in s.conns && s.conns[c].ip == v.ip && (s.conns[c].phase.Gone? <==> v.phase.Gone?)
    requires HeldBy(v) == HeldBy(s.conns[c]) + 1 && CanTake(s.regCount, KeyOf(v.ip), cfg.maxRegsPerIp)
    ensures SlotsOk(cfg, With(s, c, v).(regCount := Take(s.regCount, KeyOf(v.ip), cfg.maxRegsPerIp)))
  {
    var after, counts := s.conns[c := v], Take(s.regCount, KeyOf(v.ip), cfg.maxRegsPerIp);
    forall k
      ensures SlotsOkFor(cfg, after, s.connCount, counts, k)
    {
      assert SlotsOkFor(cfg, s.conns, s.connCount, s.regCount, k);
      CountUpdate(s.conns, c, v, LiveFrom(k));
      RegSlotsUpdate(s.conns, c, v, k);
      TakeCounts(s.regCount, KeyOf(v.ip), cfg.maxRegsPerIp, k, RegSlots(s.conns, k));
    }
  }

  lemma SlotReturned(cfg: Config, s: State, c: ConnId, v: Conn)
    requires SlotsOk(cfg, s) && c in s.conns && s.conns[c].ip == v.ip && (s.conns[c].phase.Gone? <==> v.phase.Gone?)
    requires HeldBy(v) == HeldBy(s.conns[c]) - 1
    ensures SlotsOk(cfg, With(s, c, v).(regCount := Return(s.regCount, KeyOf(v.ip), cfg.maxRegsPerIp)))
  {
    var after, counts := s.conns[c := v], Return(s.regCount, KeyOf(v.ip), cfg.maxRegsPerIp);
    HeldIsCounted(s.conns, c);
    forall k
      ensures SlotsOkFor(cfg, after, s.connCount, counts, k)
    {
      assert SlotsOkFor(cfg, s.conns, s.connCount, s.regCount, k);
      CountUpdate(s.conns, c, v, LiveFrom(k));
      RegSlotsUpdate(s.conns, c, v, k);
      ReturnCounts(s.regCount, KeyOf(v.ip), cfg.maxRegsPerIp, k, RegSlots(s.conns, k));
    }
  }

  lemma SlotKept(cfg: Config, s: State, c: ConnId, v: Conn)
    requires SlotsOk(cfg, s) && c in s.conns && s.conns[c].ip == v.ip && (s.conns[c].phase.Gone? <==> v.phase.Gone?)
    requires HeldBy(v) == HeldBy(s.conns[c])
    ensures SlotsOk(cfg, With(s, c, v))
  {
    var after := s.conns[c := v];
    forall k
      ensures SlotsOkFor(cfg, after, s.connCount, s.regCount, k)
    {
      assert SlotsOkFor(cfg, s.conns, s.connCount, s.regCount, k);
      CountUpdate(s.conns, c, v, LiveFrom(k));
      RegSlotsUpdate(s.conns, c, v, k);
    }
  }

  // ---- Each step ----

  lemma OpenInv(cfg: Config, s: State, c: ConnId, ip: Ip, verified: Option<PeerId>)
    requires Inv(cfg, s) && c !in s.conns && CanTake(s.connCount, KeyOf(ip), cfg.maxConnsPerIp)
    ensures Inv(cfg, OpenStep(cfg, s, c, ip, verified))
  {
    var v := Conn(ip, verified, Session(None, None), Idle, [], false, s.now, [], true);
    ConnsUpdate(cfg, s.now, s.conns, c, v);
    RecordsUpdate(s.conns, s.registry, c, v);
    KnownStays(s.conns, c, v, s.sweeping);
    var after, counts := s.conns[c := v], Take(s.connCount, KeyOf(ip), cfg.maxConnsPerIp);
    forall k
      ensures SlotsOkFor(cfg, after, counts, s.regCount, k)
    {
      assert SlotsOkFor(cfg, s.conns, s.connCount, s.regCount, k);
      CountUpdate(s.conns, c, v, LiveFrom(k));
      CountUpdate(s.conns, c, v, SettledFrom(k));
      CountUpdate(s.conns, c, v, InFlightFrom(k));
      TakeCounts(s.connCount, KeyOf(ip), cfg.maxConnsPerIp, k, Count(s.conns, LiveFrom(k)));
    }
  }

  lemma ArriveInv(cfg: Config, s: State, c: ConnId, frame: Option<Message>)
    requires Inv(cfg, s) && Ready(s, c) && s.conns[c].phase.Idle?
    ensures Inv(cfg, ArriveStep(s, c, frame))
  {
    assert ConnOk(cfg, s.now, s.conns, s.conns[c]);
    QuietUpdate(cfg, s, c, ArriveStep(s, c, frame).conns[c]);
  }

  /** An update of one connection that leaves the registry alone keeps everything but the slots. */
  lemma ConnUpdateInv(cfg: Config, s: State, s': State, c: ConnId, v: Conn)
    requires Inv(cfg, s) && c in s.conns && s.conns[c].ip == v.ip && s.conns[c].verified == v.verified
    requires s' == With(s, c, v).(regCount := s'.regCount) && ConnOk(cfg, s.now, s'.conns, v)
    requires SlotsOk(cfg, s')
    ensures Inv(cfg, s')
  {
    ConnsUpdate(cfg, s.now, s.conns, c, v);
    RecordsUpdate(s.conns, s.registry, c, v);
    KnownStays(s.conns, c, v, s.sweeping);
  }

  lemma ReserveInv(cfg: Config, s: State, c: ConnId, rateOk: bool)
    requires Inv(cfg, s) && Enabled(cfg, s, Reserve(c, rateOk))
    ensures Inv(cfg, ReserveStep(cfg, s, c, rateOk))
  {
    var s', v := ReserveStep(cfg, s, c, rateOk), ReserveStep(cfg, s, c, rateOk).conns[c];
    if rateOk && CanTake(s.regCount, KeyOf(s.conns[c].ip), cfg.maxRegsPerIp) {
      assert ConnOk(cfg, s.now, s.conns, s.conns[c]);
      SlotTaken(cfg, s, c, v);
      ConnUpdateInv(cfg, s, s', c, v);
    } else {
      RefusedInv(cfg, s, c, s.connected, RATE_LIMITED);
      if rateOk {
        FullTakesNothing(cfg, s, s', KeyOf(s.conns[c].ip));
      }
    }
  }

  lemma RefusedInv(cfg: Config, s: State, c: ConnId, connected: nat, code: U32)
    requires Inv(cfg, s) && c in s.conns && s.conns[c].phase.Pending?
    ensures Inv(cfg, With(s, c, Refused(c, s.conns[c], connected, code)))
  {
    assert ConnOk(cfg, s.now, s.conns, s.conns[c]);
    QuietUpdate(cfg, s, c, Refused(c, s.conns[c], connected, code));
  }

  lemma FullTakesNothing(cfg: Config, s: State, s': State, key: IpKey)
    requires Inv(cfg, s'.(regCount := s.regCount)) && !CanTake(s.regCount, key, cfg.maxRegsPerIp)
    requires s'.regCount == Take(s.regCount, key, cfg.maxRegsPerIp)
    ensures Inv(cfg, s')
  {
    assert SlotsOkFor(cfg, s'.conns, s'.connCount, s.regCount, key);
    assert s'.regCount == s.regCount;
  }

  lemma SendsToKnown(conns: map<ConnId, Conn>, reg: Registry, ids: seq<PeerId>, msg: Message)
    requires RecordsOk(conns, reg) && forall id | id in ids :: id in reg
    ensures SendsOk(conns, SendsTo(reg, ids, msg))
  {
    var sends := SendsTo(reg, ids, msg);
    forall i | 0 <= i < |sends|
      ensures sends[i].chan in conns
    {
      assert ids[i] in ids;
      assert PeerOk(conns, ids[i], reg[ids[i]]);
    }
  }

  lemma CommitInv(cfg: Config, s: State, c: ConnId, told: seq<PeerId>)
    requires Inv(cfg, s) && Enabled(cfg, s, Commit(c, told))
    ensures Inv(cfg, CommitNow(cfg, s, c, told))
  {
    var s' := CommitNow(cfg, s, c, told);
    assert ConnOk(cfg, s.now, s.conns, s.conns[c]);
    if Refusal(cfg, s, c).Some? {
      QuietUpdate(cfg, s, c, s'.conns[c]);
    } else {
      EnteredInv(cfg, s, c, told);
    }
  }

  lemma EnteredInv(cfg: Config, s: State, c: ConnId, told: seq<PeerId>)
    requires Inv(cfg, s) && Enabled(cfg, s, Commit(c, told)) && Refusal(cfg, s, c).None?
    ensures Inv(cfg, CommitNow(cfg, s, c, told))
  {
    var s' := CommitNow(cfg, s, c, told);
    var v := s'.conns[c];
    assert ConnOk(cfg, s.now, s.conns, s.conns[c]);
    EnteredRecords(cfg, s, c);
    WelcomeKnown(cfg, s, c, told);
    KnownStays(s.conns, c, v, v.todo);
    RegistryUpdate(cfg, s, s'.registry, s'.connected, c, v);
  }

  /** The acknowledgement and the announcements go to known channels; the connection is otherwise unchanged. */
  lemma WelcomeKnown(cfg: Config, s: State, c: ConnId, told: seq<PeerId>)
    requires Enabled(cfg, s, Commit(c, told)) && Refusal(cfg, s, c).None? && RecordsOk(s.conns, Entered(s, c))
    ensures var s', p := CommitNow(cfg, s, c, told), s.conns[c].phase;
            var v := s'.conns[c];
            && SendsOk(s.conns, v.todo) && v == s.conns[c].(phase := Registered(p.peerId, p.networkId), todo := v.todo)
            && s' == With(s, c, v).(registry := Entered(s, c), connected := s'.connected)
            && s'.connected == if p.peerId in s.registry then s.connected else Increment(s.connected)
  {
    var reg, p := Entered(s, c), s.conns[c].phase;
    TargetsInRegistry(reg, told, p.peerId, p.networkId, []);
    SendsToKnown(s.conns, reg, told, PeerConnected(reg[p.peerId].info));
  }

  lemma EnteredRecords(cfg: Config, s: State, c: ConnId)
    requires c in s.conns && s.conns[c].phase.Reserved? && RecordsOk(s.conns, s.registry)
    requires ChansKnown(s) && Refusal(cfg, s, c).None?
    ensures RecordsOk(s.conns, Entered(s, c))
    ensures |Entered(s, c)| == if s.conns[c].phase.peerId in s.registry then |s.registry| else |s.registry| + 1
  {
    Dial.PublishedStaysHome(s.conns[c].phase.listenAddrs, s.conns[c].ip);
    var reg := Entered(s, c);
    assert reg.Keys == s.registry.Keys + {s.conns[c].phase.peerId};
    forall id | id in reg
      ensures PeerOk(s.conns, id, reg[id])
    {
      if id != s.conns[c].phase.peerId {
        assert PeerOk(s.conns, id, s.registry[id]);
      }
    }
  }

  lemma SettleInv(cfg: Config, s: State, c: ConnId)
    requires Inv(cfg, s) && Enabled(cfg, s, Settle(c))
    ensures Inv(cfg, SettleStep(cfg, s, c))
  {
    var s' := SettleStep(cfg, s, c);
    assert ConnOk(cfg, s.now, s.conns, s.conns[c]);
    if s.conns[c].holdsReg || s.conns[c].phase.Declined? {
      SlotReturned(cfg, s, c, s'.conns[c]);
    } else {
      SlotKept(cfg, s, c, s'.conns[c]);
    }
    ConnUpdateInv(cfg, s, s', c, s'.conns[c]);
  }

  lemma ActInv(cfg: Config, s: State, c: ConnId, told: seq<PeerId>)
    requires Inv(cfg, s) && Enabled(cfg, s, Act(c, told))
    ensures Inv(cfg, ActNow(cfg, s, c, told))
  {
    var s' := ActNow(cfg, s, c, told);
    var v := s'.conns[c];
    assert ConnOk(cfg, s.now, s.conns, s.conns[c]);
    ActSendsKnown(cfg, s, c, told);
    KnownStays(s.conns, c, v, v.todo);
    QuietUpdate(cfg, s, c, v);
  }

  lemma ActSendsKnown(cfg: Config, s: State, c: ConnId, told: seq<PeerId>)
    requires RecordsOk(s.conns, s.registry) && Enabled(cfg, s, Act(c, told))
    ensures SendsOk(s.conns, ActNow(cfg, s, c, told).conns[c].todo)
  {
    var conn := s.conns[c];
    match conn.phase.action {
      case FanOut(from, exclude, msg) =>
        if conn.session.network.Some? {
          TargetsInRegistry(s.registry, told, from, conn.session.network.value, exclude);
          SendsToKnown(s.conns, s.registry, told, msg);
        }
      case ForwardTo(to, msg) =>
        if to in s.registry {
          SendsToKnown(s.conns, s.registry, [to], msg);
        }
      case _ =>
    }
  }

  lemma TrySendInv(cfg: Config, s: State, c: ConnId, msg: Message)
    requires Inv(cfg, s) && c in s.conns
    ensures Inv(cfg, With(s, c, TrySend(cfg, s.conns[c], msg)))
  {
    var v := TrySend(cfg, s.conns[c], msg);
    assert ConnOk(cfg, s.now, s.conns, s.conns[c]);
    KnownStays(s.conns, c, v, v.todo);
    QuietUpdate(cfg, s, c, v);
  }

  lemma DeliverInv(cfg: Config, s: State, c: ConnId)
    requires Inv(cfg, s) && Enabled(cfg, s, Deliver(c))
    ensures Inv(cfg, DeliverStep(cfg, s, c))
  {
    var v := s.conns[c].(todo := s.conns[c].todo[1..]);
    assert ConnOk(cfg, s.now, s.conns, s.conns[c]);
    assert SendsOk(s.conns[c := v], v.todo);
    QuietUpdate(cfg, s, c, v);
    TrySendInv(cfg, With(s, c, v), s.conns[c].todo[0].chan, s.conns[c].todo[0].msg);
  }

  lemma FewerRecords(conns: map<ConnId, Conn>, reg: Registry, id: PeerId)
    requires RecordsOk(conns, reg) && id in reg
    ensures RecordsOk(conns, reg - {id}) && |reg - {id}| == |reg| - 1
  {
    var less := reg - {id};
    assert less.Keys == reg.Keys - {id};
    forall x | x in less
      ensures PeerOk(conns, x, less[x])
    {
      assert PeerOk(conns, x, reg[x]);
    }
  }

  lemma DeregisterInv(cfg: Config, s: State, c: ConnId, told: seq<PeerId>)
    requires Inv(cfg, s) && Enabled(cfg, s, Deregister(c, told))
    ensures Inv(cfg, DeregisterNow(cfg, s, c, told))
  {
    var s' := DeregisterNow(cfg, s, c, told);
    var v := s'.conns[c];
    assert ConnOk(cfg, s.now, s.conns, s.conns[c]);
    if Departing(s, c).Some? {
      var id := Departing(s, c).value;
      FewerRecords(s.conns, s.registry, id);
      FarewellKnown(s.conns, s'.registry, told, id, s.conns[c].session.network.value);
      KnownStays(s.conns, c, v, v.todo);
      RegistryUpdate(cfg, s, s'.registry, s'.connected, c, v);
    } else {
      QuietUpdate(cfg, s, c, v);
    }
  }

  lemma FarewellKnown(conns: map<ConnId, Conn>, reg: Registry, told: seq<PeerId>, id: PeerId, network: NetworkId)
    requires RecordsOk(conns, reg) && Lists(told, Targets(reg, id, network, []))
    ensures (forall i | i in told :: i in reg) && SendsOk(conns, SendsTo(reg, told, PeerDisconnected(id)))
  {
    TargetsInRegistry(reg, told, id, network, []);
    SendsToKnown(conns, reg, told, PeerDisconnected(id));
  }

  lemma FinishInv(cfg: Config, s: State, c: ConnId)
    requires Inv(cfg, s) && Enabled(cfg, s, Finish(c))
    ensures Inv(cfg, FinishStep(cfg, s, c))
  {
    var s' := FinishStep(cfg, s, c);
    var v := s'.conns[c];
    assert ConnOk(cfg, s.now, s.conns, s.conns[c]);
    ConnsUpdate(cfg, s.now, s.conns, c, v);
    RecordsUpdate(s.conns, s.registry, c, v);
    KnownStays(s.conns, c, v, s.sweeping);
    HeldIsCounted(s.conns, c);
    forall k
      ensures SlotsOkFor(cfg, s'.conns, s'.connCount, s'.regCount, k)
    {
      assert SlotsOkFor(cfg, s.conns, s.connCount, s.regCount, k);
      FinishSlots(cfg, s, c, k);
    }
  }

  lemma FinishSlots(cfg: Config, s: State, c: ConnId, k: IpKey)
    requires c in s.conns && s.conns[c].phase.Draining?
    requires SlotsOkFor(cfg, s.conns, s.connCount, s.regCount, k)
    ensures var s' := FinishStep(cfg, s, c);
            SlotsOkFor(cfg, s'.conns, s'.connCount, s'.regCount, k)
  {
    var v, key := FinishStep(cfg, s, c).conns[c], KeyOf(s.conns[c].ip);
    HeldIsCounted(s.conns, c);
    CountUpdate(s.conns, c, v, LiveFrom(k));
    RegSlotsUpdate(s.conns, c, v, k);
    ReturnCounts(s.connCount, key, cfg.maxConnsPerIp, k, Count(s.conns, LiveFrom(k)));
    if s.conns[c].holdsReg {
      ReturnCounts(s.regCount, key, cfg.maxRegsPerIp, k, RegSlots(s.conns, k));
    }
  }

  /** Removing victims one by one removes just them, counts them off, and notifies known channels. */
  lemma {:induction false} SweepKeeps(conns: map<ConnId, Conn>, reg: Registry, connected: U64, victims: seq<Victim>)
    requires SweepOrder(reg, victims) && RecordsOk(conns, reg) && connected == |reg|
    ensures var (reg', connected', sends) := SweepAll(reg, connected, victims);
            RecordsOk(conns, reg') && connected' == |reg'| <= |reg| && SendsOk(conns, sends)
    decreases |victims|
  {
    if victims != [] {
      var v := victims[0];
      FewerRecords(conns, reg, v.id);
      SweepKeeps(conns, reg - {v.id}, Decrement(connected), victims[1..]);
      NoticesKnown(conns, reg, v);
    }
  }

  lemma NoticesKnown(conns: map<ConnId, Conn>, reg: Registry, v: Victim)
    requires RecordsOk(conns, reg)
    requires v.id in reg && Lists(v.told, Targets(reg - {v.id}, v.id, reg[v.id].network, []))
    ensures SendsOk(conns, SweepNotices(reg, v))
  {
    TargetsInRegistry(reg - {v.id}, v.told, v.id, reg[v.id].network, []);
    SendsToKnown(conns, reg, v.told, PeerDisconnected(v.id));
  }

  lemma SweepInv(cfg: Config, s: State, at: nat, victims: seq<Victim>)
    requires Inv(cfg, s) && Enabled(cfg, s, Sweep(at, victims))
    ensures Inv(cfg, SweepStep(s, at, victims))
  {
    SweepKeeps(s.conns, s.registry, s.connected, victims);
    SlotsCarry(cfg, s, SweepStep(s, at, victims));
  }

  lemma SweepDeliverInv(cfg: Config, s: State)
    requires Inv(cfg, s) && Enabled(cfg, s, SweepDeliver)
    ensures Inv(cfg, SweepDeliverStep(cfg, s))
  {
    TrySendInv(cfg, s, s.sweeping[0].chan, s.sweeping[0].msg);
    SlotsCarry(cfg, With(s, s.sweeping[0].chan, TrySend(cfg, s.conns[s.sweeping[0].chan], s.sweeping[0].msg)),
               SweepDeliverStep(cfg, s));
  }

  lemma TickInv(cfg: Config, s: State, to: nat)
    requires Inv(cfg, s) && s.now <= to
    ensures Inv(cfg, s.(now := to))
  {
    forall c | c in s.conns
      ensures ConnOk(cfg, to, s.conns, s.conns[c])
    {
      assert ConnOk(cfg, s.now, s.conns, s.conns[c]);
    }
    SlotsCarry(cfg, s, s.(now := to));
  }

  lemma OwnStepInv(cfg: Config, s: State, c: ConnId, v: Conn)
    requires Inv(cfg, s) && c in s.conns && Quiet(s.conns[c], v) && v.session == s.conns[c].session
    requires v.todo == s.conns[c].todo && |v.queue| <= |s.conns[c].queue|
    requires v.activity == s.conns[c].activity || v.activity == s.now
    requires !s.conns[c].phase.Gone? || v.phase == s.conns[c].phase
    requires v.phase.Registered? ==> v.phase == s.conns[c].phase
    ensures Inv(cfg, With(s, c, v))
  {
    assert ConnOk(cfg, s.now, s.conns, s.conns[c]);
    KnownStays(s.conns, c, v, v.todo);
    QuietUpdate(cfg, s, c, v);
  }

  /** Every step of the relay keeps the invariant. */
  lemma StepInv(cfg: Config, s: State, e: Event)
    requires Inv(cfg, s) && Enabled(cfg, s, e)
    ensures Inv(cfg, Step(cfg, s, e))
  {
    match e {
      case Open(c, ip, verified) => OpenInv(cfg, s, c, ip, verified);
      case Arrive(c, frame) => ArriveInv(cfg, s, c, frame);
      case Leave(c, byFrame) => LeaveInv(cfg, s, c, byFrame);
      case Reserve(c, rateOk) => ReserveInv(cfg, s, c, rateOk);
      case Commit(c, told) => CommitInv(cfg, s, c, told);
      case Settle(c) => SettleInv(cfg, s, c);
      case Act(c, told) => ActInv(cfg, s, c, told);
      case Deliver(c) => DeliverInv(cfg, s, c);
      case Deregister(c, told) => DeregisterInv(cfg, s, c, told);
      case Finish(c) => FinishInv(cfg, s, c);
      case Drain(c) => OwnStepInv(cfg, s, c, s.conns[c].(queue := s.conns[c].queue[1..]));
      case Shut(c) => OwnStepInv(cfg, s, c, s.conns[c].(open := false, queue := []));
      case Sweep(at, victims) => SweepInv(cfg, s, at, victims);
      case SweepDeliver => SweepDeliverInv(cfg, s);
      case Tick(to) => TickInv(cfg, s, to);
    }
  }

  lemma LeaveInv(cfg: Config, s: State, c: ConnId, byFrame: bool)
    requires Inv(cfg, s) && Enabled(cfg, s, Leave(c, byFrame))
    ensures Inv(cfg, Step(cfg, s, Leave(c, byFrame)))
  {
    assert ConnOk(cfg, s.now, s.conns, s.conns[c]);
    OwnStepInv(cfg, s, c, Step(cfg, s, Leave(c, byFrame)).conns[c]);
  }
}
