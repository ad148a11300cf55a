/** A registration as a task, from its reservation to its end, with other tasks running in between. */
module ServerRegistration {
  import opened Net
  import opened Wire
  import opened Limits
  import opened Broker
  import opened BrokerInvariant
  import opened BrokerRuns
  import opened BrokerScenarios
  import opened RelayRegistry
  import opened Server
  import opened ServerSteps

  ghost function Replies(c: ConnId, connected: nat, code: U32): seq<Send> {
    Self(c, [RegisterAck(false, connected), Error(code)])
  }

  /** What reserving leaves: the slot, or the refusal yet to be sent. */
  ghost predicate Reserving(cfg: Config, s: State, c: ConnId, granted: bool, t: State)
    requires Ready(s, c) && s.conns[c].phase.Pending? && s.conns[c].phase.action.DoRegister?
  {
    var x, key, a := s.conns[c], KeyOf(s.conns[c].ip), s.conns[c].phase.action;
    && t == s.(conns := t.conns, regCount := t.regCount) && c in t.conns && t.conns == s.conns[c := t.conns[c]]
    && t.regCount == (if granted then Take(s.regCount, key, cfg.maxRegsPerIp) else s.regCount)
    && t.conns[c] == if granted && CanTake(s.regCount, key, cfg.maxRegsPerIp)
                     then x.(phase := Phase.Reserved(a.peerId, a.networkId, a.version, a.listenAddrs))
                     else x.(phase := Closing, todo := Replies(c, s.connected, RATE_LIMITED))
  }

  lemma ReserveIsReserving(cfg: Config, s: State, c: ConnId, granted: bool)
    requires Ready(s, c) && s.conns[c].phase.Pending? && s.conns[c].phase.action.DoRegister?
    ensures Reserving(cfg, s, c, granted, ReserveStep(cfg, s, c, granted))
  {
  }

  lemma ReservePath(cfg: Config, s: State, c: ConnId, granted: bool, links: Links) returns (t: State)
    requires Inv(cfg, s) && Enabled(cfg, s, Event.Reserve(c, granted)) && LinksMirror(s.conns, links)
    ensures Takes(cfg, Some(c), s, Event.Reserve(c, granted), t) && Inv(cfg, t)
    ensures Reserving(cfg, s, c, granted, t) && LinksMirror(t.conns, links)
  {
    t := ReserveStep(cfg, s, c, granted);
    ReserveIsReserving(cfg, s, c, granted);
    LinksMirrorOne(s.conns, links, c, t.conns[c]);
    StepInv(cfg, s, Event.Reserve(c, granted));
    OneStep(cfg, Some(c), s, Event.Reserve(c, granted));
  }

  /** The connection asks to register what `ask` says. */
  ghost predicate AsksToRegister(s: State, c: ConnId, ask: Message) {
    && ask.Register? && Ready(s, c)
    && s.conns[c].phase == Pending(DoRegister(ask.peerId, ask.networkId, ask.version, ask.listenAddrs))
  }

  /** It has its slot and is before the registry. */
  ghost predicate BeforeRegistry(s: State, c: ConnId, ask: Message) {
    && ask.Register? && Ready(s, c)
    && s.conns[c].phase == Phase.Reserved(ask.peerId, ask.networkId, ask.version, ask.listenAddrs)
  }

  /** It has been refused, and ends once the replies are sent. */
  ghost predicate TurnedAway(s: State, c: ConnId, connected: nat, code: U32) {
    c in s.conns && s.conns[c].phase.Closing? && s.conns[c].todo == Replies(c, connected, code)
  }

  /** The rate and the slot of a registration are the broker's reservation. */
  method ReserveSteps(relay: RelayState, conn: Connection, ask: Message, now: U64, ghost s: State)
    returns (slot: Option<Slot>, granted: bool, ghost t: State)
    requires Stands(relay, conn, s) && AsksToRegister(s, conn.chan, ask)
    requires relay.abuse.RatesOk() && relay.abuse.BansOk()
    requires relay.abuse.regClock <= now && relay.abuse.banClock <= now
    modifies relay.abuse`regBuckets, relay.abuse`regLog, relay.abuse`regClock, relay.abuse`regsPerIp
    modifies relay.abuse`liveRegs, relay.abuse`strikes, relay.abuse`bans, relay.abuse`strikeLog, relay.abuse`banClock
    ensures relay.abuse.RatesOk() && relay.abuse.BansOk()
    ensures Takes(relay.cfg, Some(conn.chan), s, Event.Reserve(conn.chan, granted), t)
    ensures Stands(relay, conn, t) && (slot.Some? ==> granted && slot.value == SlotFrom(relay, conn.ip))
    ensures if slot.Some? then BeforeRegistry(t, conn.chan, ask)
            else TurnedAway(t, conn.chan, s.connected, RATE_LIMITED)
  {
    KnownChans(relay.cfg, s);
    ghost var links := relay.links;
    slot, granted := relay.Reserve(conn.ip, now);
    t := ReservePath(relay.cfg, s, conn.chan, granted, links);
  }

  /** The code's verdict on a registration with its slot. */
  ghost predicate Verdict(cfg: Config, s: State, c: ConnId, links: Links, refused: Option<U32>) {
    && c in s.conns && s.conns[c].phase.Reserved? && Linked(s.registry, links)
    && var id := s.conns[c].phase.peerId;
       refused == RefusalFor(|s.registry|, cfg.maxConnections, s.conns[c].verified, id,
                             id in s.registry && links[s.registry[id].chan].open)
  }

  /** What the registry makes of a registration: refused, only the answer to send; accepted, the record
      too, and its announcements. */
  ghost predicate Entering(cfg: Config, s: State, c: ConnId, refused: Option<U32>, told: seq<PeerId>, t: State)
    requires c in s.conns && s.conns[c].phase.Reserved?
  {
    var x, p := s.conns[c], s.conns[c].phase;
    && t == s.(registry := t.registry, connected := t.connected, conns := t.conns)
    && c in t.conns && t.conns == s.conns[c := t.conns[c]]
    && if refused.Some? then
         && t.registry == s.registry && t.connected == s.connected
         && t.conns[c] == x.(phase := Declined, todo := Replies(c, |s.registry|, refused.value))
       else
         && t.registry == Entered(s, c) && (forall id | id in told :: id in t.registry)
         && t.connected == (if p.peerId in s.registry then s.connected else Increment(s.connected))
         && t.conns[c] == x.(phase := Phase.Registered(p.peerId, p.networkId),
                             todo := Self(c, [RegisterAck(true, |t.registry|)])
                                     + SendsTo(t.registry, told, PeerConnected(t.registry[p.peerId].info)))
  }

  lemma CommitIsEntering(cfg: Config, s: State, c: ConnId, told: seq<PeerId>)
    requires Enabled(cfg, s, Commit(c, told))
    ensures Entering(cfg, s, c, Refusal(cfg, s, c), told, CommitNow(cfg, s, c, told))
  {
    if Refusal(cfg, s, c).None? {
      TargetsInRegistry(Entered(s, c), told, s.conns[c].phase.peerId, s.conns[c].phase.networkId, []);
    }
  }

  /** The code's verdict and listing are the broker's commit. */
  lemma EnterIsCommit(cfg: Config, s: State, c: ConnId, refused: Option<U32>, told: seq<PeerId>, links: Links)
    returns (t: State)
    requires Inv(cfg, s) && Ready(s, c) && LinksMirror(s.conns, links) && Verdict(cfg, s, c, links, refused)
    requires refused.None? ==>
               Lists(told, Targets(Entered(s, c), s.conns[c].phase.peerId, s.conns[c].phase.networkId, []))
    ensures Takes(cfg, Some(c), s, Commit(c, told), t) && Inv(cfg, t)
    ensures Entering(cfg, s, c, refused, told, t) && LinksMirror(t.conns, links)
  {
    KnownChans(cfg, s);
    assert refused == Refusal(cfg, s, c);
    CommitIsEntering(cfg, s, c, told);
    StepInv(cfg, s, Commit(c, told));
    OneStep(cfg, Some(c), s, Commit(c, told));
    t := CommitNow(cfg, s, c, told);
    LinksMirrorOne(s.conns, links, c, t.conns[c]);
  }

  /** The answer to send: the two replies of a refusal, or an acknowledgement and then `news` to each of
      the targets. */
  ghost predicate AnswerIs(
      x: Conn, c: ConnId, ask: Message, refused: Option<U32>, size: nat, targets: seq<ConnId>, news: Message,
      told: seq<PeerId>)
  {
    && ask.Register?
    && if refused.Some? then x.phase.Declined? && x.todo == Replies(c, size, refused.value)
       else
         && x.phase == Phase.Registered(ask.peerId, ask.networkId) && |targets| == |told|
         && ThenEach(x.todo, c, RegisterAck(true, size), targets, news)
  }

  lemma AnswerFollows(
      cfg: Config, s: State, c: ConnId, ask: Message, refused: Option<U32>, size: nat, targets: seq<ConnId>,
      news: Message, told: seq<PeerId>, t: State)
    requires BeforeRegistry(s, c, ask) && Entering(cfg, s, c, refused, told, t) && size == |t.registry|
    requires refused.None? ==>
               Paired(t.registry, targets, told) && news == PeerConnected(t.registry[ask.peerId].info)
    ensures AnswerIs(t.conns[c], c, ask, refused, size, targets, news, told)
  {
    if refused.None? {
      var ack, rest := Self(c, [RegisterAck(true, size)]), SendsTo(t.registry, told, news);
      assert (ack + rest)[0] == ack[0] && (ack + rest)[1..] == rest;
    }
  }

  ghost predicate SameTask(x: Conn, y: Conn) {
    x.ip == y.ip && x.verified == y.verified && x.session == y.session && x.holdsReg == y.holdsReg
  }

  lemma EnterPath(
      cfg: Config, s: State, c: ConnId, ask: Message, refused: Option<U32>, told: seq<PeerId>, targets: seq<ConnId>,
      news: Message, links: Links)
    returns (t: State)
    requires Inv(cfg, s) && BeforeRegistry(s, c, ask) && LinksMirror(s.conns, links)
    requires Verdict(cfg, s, c, links, refused)
    requires refused.None? ==>
               && Lists(told, Targets(Entered(s, c), ask.peerId, ask.networkId, []))
               && Paired(Entered(s, c), targets, told) && news == PeerConnected(Entered(s, c)[ask.peerId].info)
    ensures Takes(cfg, Some(c), s, Commit(c, told), t) && Inv(cfg, t)
    ensures t.registry == (if refused.Some? then s.registry else Entered(s, c)) && t.regCount == s.regCount
    ensures t.connected == if refused.Some? || ask.peerId in s.registry then s.connected else Increment(s.connected)
    ensures LinksMirror(t.conns, links) && c in t.conns && SameTask(s.conns[c], t.conns[c])
    ensures AnswerIs(t.conns[c], c, ask, refused, |t.registry|, targets, news, told)
  {
    t := EnterIsCommit(cfg, s, c, refused, told, links);
    AnswerFollows(cfg, s, c, ask, refused, |t.registry|, targets, news, told, t);
  }

  /** The block under the registry's lock: the broker's commit, its answer still to be sent. */
  method EnterSteps(relay: RelayState, conn: Connection, ask: Message, ghost s: State)
    returns (refused: Option<U32>, size: nat, targets: seq<ConnId>, news: Message, ghost told: seq<PeerId>,
             ghost t: State)
    requires Stands(relay, conn, s) && BeforeRegistry(s, conn.chan, ask)
    modifies relay`connected, relay.registry`peers
    ensures Takes(relay.cfg, Some(conn.chan), s, Commit(conn.chan, told), t)
    ensures Stands(relay, conn, t) && AnswerIs(t.conns[conn.chan], conn.chan, ask, refused, size, targets, news, told)
  {
    KnownChans(relay.cfg, s);
    refused := relay.Enter(conn, ask);
    size, targets, told, news := |relay.registry.peers|, [], [], ask;
    if refused.None? {
      targets, told := relay.registry.BroadcastTargets(ask.peerId, ask.networkId, []);
      news := PeerConnected(relay.registry.peers[ask.peerId].info);
    }
    t := EnterPath(relay.cfg, s, conn.chan, ask, refused, told, targets, news, relay.links);
  }

  // ---- The answer and the end of a registration ----

  lemma {:induction false} DeliversFirst(c: ConnId, n: nat)
    ensures [Deliver(c)] + Delivers(c, n) == Delivers(c, 1 + n)
  {
    if n > 0 {
      DeliversFirst(c, n - 1);
      assert [Deliver(c)] + Delivers(c, n) == [Deliver(c)] + Delivers(c, n - 1) + [Deliver(c)];
    }
  }

  /** A message to the connection itself, and then one to a list. */
  method SendBoth(
      relay: RelayState, conn: Connection, first: Message, targets: seq<ConnId>, second: Message, ghost s: State)
    returns (ghost events: seq<Event>, ghost t: State)
    requires Stands(relay, conn, s) && ThenEach(s.conns[conn.chan].todo, conn.chan, first, targets, second)
    modifies relay, relay.registry, relay.abuse
    ensures Leads(relay.cfg, Some(conn.chan), s, events, Delivers(conn.chan, 1 + |targets|), t)
    ensures Stands(relay, conn, t) && AsBefore(s.conns[conn.chan].(todo := []), t.conns[conn.chan])
  {
    ghost var c, rest := conn.chan, s.conns[conn.chan].todo[1..];
    var a, mid := SendNext(relay, conn, conn.chan, first, s);
    assert rest + [] == rest;
    var b, last := SendEach(relay, conn, targets, second, rest, [], mid);
    LeadsOn(relay.cfg, Some(c), s, a, [Deliver(c)], mid, b, Delivers(c, |targets|), last);
    DeliversFirst(c, |targets|);
    events, t := a + b, last;
  }

  /** One send to `c` itself and then one to each of the targets. */
  ghost predicate ThenEach(todo: seq<Send>, c: ConnId, first: Message, targets: seq<ConnId>, second: Message) {
    todo != [] && todo[0].chan == c && todo[0].msg == first && SendsAre(todo[1..], targets, second)
  }

  lemma RepliesSplit(c: ConnId, connected: nat, code: U32)
    ensures ThenEach(Replies(c, connected, code), c, RegisterAck(false, connected), [c], Error(code))
  {
  }

  /** The answer, with other tasks running before each send of it. */
  method AnswerSteps(
      relay: RelayState, conn: Connection, ask: Message, refused: Option<U32>, size: nat, targets: seq<ConnId>,
      news: Message, ghost told: seq<PeerId>, ghost s: State)
    returns (ghost events: seq<Event>, ghost t: State)
    requires Stands(relay, conn, s) && AnswerIs(s.conns[conn.chan], conn.chan, ask, refused, size, targets, news, told)
    modifies relay, relay.registry, relay.abuse
    ensures Leads(relay.cfg, Some(conn.chan), s, events,
                  Delivers(conn.chan, if refused.Some? then 2 else 1 + |told|), t)
    ensures Stands(relay, conn, t) && AsBefore(s.conns[conn.chan].(todo := []), t.conns[conn.chan])
  {
    if refused.Some? {
      RepliesSplit(conn.chan, size, refused.value);
      events, t := SendBoth(relay, conn, RegisterAck(false, size), [conn.chan], Error(refused.value), s);
    } else {
      events, t := SendBoth(relay, conn, RegisterAck(true, size), targets, news, s);
    }
  }

  /** A slot a connection holds is among the live ones. */
  lemma HeldIsLive(cfg: Config, s: State, c: ConnId, live: multiset<IpKey>)
    requires Inv(cfg, s) && c in s.conns && cfg.maxRegsPerIp > 0 && SlotsMatch(s.regCount, live, cfg.maxRegsPerIp)
    ensures live[KeyOf(s.conns[c].ip)] >= HeldBy(s.conns[c])
  {
    var k := KeyOf(s.conns[c].ip);
    HeldIsCounted(s.conns, c);
    assert SlotsOkFor(cfg, s.conns, s.connCount, s.regCount, k);
    assert SlotMatch(s.regCount, live, cfg.maxRegsPerIp, k);
  }

  lemma SettleIs(cfg: Config, s: State, c: ConnId, links: Links) returns (t: State)
    requires Inv(cfg, s) && Enabled(cfg, s, Settle(c)) && LinksMirror(s.conns, links)
    ensures Takes(cfg, Some(c), s, Settle(c), t) && Inv(cfg, t) && t == SettleStep(cfg, s, c)
    ensures LinksMirror(t.conns, links)
  {
    t := SettleStep(cfg, s, c);
    LinksMirrorOne(s.conns, links, c, t.conns[c]);
    StepInv(cfg, s, Settle(c));
    OneStep(cfg, Some(c), s, Settle(c));
  }

  /** The end of a registration: the slot is kept or given back, and the session set if it was accepted. */
  method SettleSteps(
      relay: RelayState, conn: Connection, slot: Slot, ask: Message, accepted: bool, ghost s: State)
    returns (ghost t: State)
    requires Stands(relay, conn, s) && Ready(s, conn.chan) && slot == SlotFrom(relay, conn.ip) && ask.Register?
    requires s.conns[conn.chan].phase == if accepted then Phase.Registered(ask.peerId, ask.networkId) else Declined
    modifies relay.abuse`regsPerIp, relay.abuse`liveRegs, conn`session, conn`regSlot
    ensures Takes(relay.cfg, Some(conn.chan), s, Settle(conn.chan), t) && Stands(relay, conn, t)
    ensures Ready(t, conn.chan) && t.conns[conn.chan].phase == if accepted then Idle else Closing
  {
    KnownChans(relay.cfg, s);
    t := SettleIs(relay.cfg, s, conn.chan, relay.links);
    if slot.tracked {
      HeldIsLive(relay.cfg, s, conn.chan, relay.abuse.liveRegs);
    }
    relay.SettleSlot(conn, slot, accepted);
    if accepted {
      conn.session := Session(Some(ask.peerId), Some(ask.networkId));
    }
  }

  /** The steps of a registration from its turn at the registry to the last send of its answer. */
  function AnswerEvents(c: ConnId, told: seq<PeerId>, refused: bool): seq<Event> {
    [Commit(c, told)] + Delivers(c, if refused then 2 else 1 + |told|)
  }

  /** Its answer is sent, and it has only to settle. */
  ghost predicate Answered(s: State, c: ConnId, ask: Message, refused: Option<U32>) {
    && ask.Register? && Ready(s, c)
    && s.conns[c].phase == if refused.None? then Phase.Registered(ask.peerId, ask.networkId) else Declined
  }

  /** Others run, and then it is the registration's turn at the registry. */
  method EnterNext(relay: RelayState, conn: Connection, ask: Message, ghost s: State)
    returns (refused: Option<U32>, ghost told: seq<PeerId>, ghost events: seq<Event>, ghost t: State,
             size: nat, targets: seq<ConnId>, news: Message)
    requires Stands(relay, conn, s) && BeforeRegistry(s, conn.chan, ask)
    modifies relay, relay.registry, relay.abuse
    ensures Leads(relay.cfg, Some(conn.chan), s, events, [Commit(conn.chan, told)], t) && Stands(relay, conn, t)
    ensures AnswerIs(t.conns[conn.chan], conn.chan, ask, refused, size, targets, news, told)
  {
    ghost var others, mid;
    others, mid := Yield(relay, conn, s);
    refused, size, targets, news, told, t := EnterSteps(relay, conn, ask, mid);
    StepOn(relay.cfg, Some(conn.chan), s, others, [], mid, Commit(conn.chan, told), t);
    events := others + [Commit(conn.chan, told)];
  }

  /** Up to the last send of the answer. */
  method EnterAndAnswer(relay: RelayState, conn: Connection, ask: Message, ghost s: State)
    returns (refused: Option<U32>, ghost told: seq<PeerId>, ghost events: seq<Event>, ghost t: State)
    requires Stands(relay, conn, s) && BeforeRegistry(s, conn.chan, ask)
    modifies relay, relay.registry, relay.abuse
    ensures Leads(relay.cfg, Some(conn.chan), s, events, AnswerEvents(conn.chan, told, refused.Some?), t)
    ensures Stands(relay, conn, t) && Answered(t, conn.chan, ask, refused)
  {
    var size, targets, news;
    ghost var entered, mid, sends;
    refused, told, entered, mid, size, targets, news := EnterNext(relay, conn, ask, s);
    sends, t := AnswerSteps(relay, conn, ask, refused, size, targets, news, told, mid);
    LeadsOn(relay.cfg, Some(conn.chan), s, entered, [Commit(conn.chan, told)], mid,
            sends, Delivers(conn.chan, if refused.Some? then 2 else 1 + |told|), t);
    events := entered + sends;
  }

  /** Others run, and then the registration ends. */
  method SettleNext(relay: RelayState, conn: Connection, slot: Slot, ask: Message, accepted: bool, ghost s: State)
    returns (ghost events: seq<Event>, ghost t: State)
    requires Stands(relay, conn, s) && Ready(s, conn.chan) && slot == SlotFrom(relay, conn.ip) && ask.Register?
    requires s.conns[conn.chan].phase == if accepted then Phase.Registered(ask.peerId, ask.networkId) else Declined
    modifies relay, relay.registry, relay.abuse, conn
    ensures Leads(relay.cfg, Some(conn.chan), s, events, [Settle(conn.chan)], t) && Stands(relay, conn, t)
    ensures Ready(t, conn.chan) && t.conns[conn.chan].phase == if accepted then Idle else Closing
  {
    ghost var others, ready;
    others, ready := Yield(relay, conn, s);
    t := SettleSteps(relay, conn, slot, ask, accepted, ready);
    StepOn(relay.cfg, Some(conn.chan), s, others, [], ready, Settle(conn.chan), t);
    events := others + [Settle(conn.chan)];
  }

  /** A registration with its slot: its own steps are the broker's commit, a delivery for each send of the
      answer, and its settling. */
  method ConcludeSteps(relay: RelayState, conn: Connection, slot: Slot, ask: Message, ghost s: State)
    returns (refused: Option<U32>, ghost told: seq<PeerId>, ghost events: seq<Event>, ghost t: State)
    requires Stands(relay, conn, s) && BeforeRegistry(s, conn.chan, ask) && slot == SlotFrom(relay, conn.ip)
    modifies relay, relay.registry, relay.abuse, conn
    ensures Leads(relay.cfg, Some(conn.chan), s, events,
                  AnswerEvents(conn.chan, told, refused.Some?) + [Settle(conn.chan)], t)
    ensures Stands(relay, conn, t) && Ready(t, conn.chan)
    ensures t.conns[conn.chan].phase == if refused.None? then Idle else Closing
  {
    ghost var answered, mid, last;
    refused, told, answered, mid := EnterAndAnswer(relay, conn, ask, s);
    last, t := SettleNext(relay, conn, slot, ask, refused.None?, mid);
    LeadsOn(relay.cfg, Some(conn.chan), s, answered, AnswerEvents(conn.chan, told, refused.Some?), mid,
            last, [Settle(conn.chan)], t);
    events := answered + last;
  }

  /** A whole registration: the broker's reservation, and then the two replies to one without a slot, or
      the steps of one with it. */
  method RegisterSteps(relay: RelayState, conn: Connection, ask: Message, now: U64, ghost s: State)
    returns (granted: bool, slotted: bool, refused: Option<U32>, ghost told: seq<PeerId>, ghost events: seq<Event>,
             ghost t: State)
    requires Stands(relay, conn, s) && AsksToRegister(s, conn.chan, ask)
    requires relay.abuse.RatesOk() && relay.abuse.BansOk()
    requires relay.abuse.regClock <= now && relay.abuse.banClock <= now
    modifies relay, relay.registry, relay.abuse, conn
    ensures Leads(relay.cfg, Some(conn.chan), s, events,
                  [Event.Reserve(conn.chan, granted)] + RestOfSteps(conn.chan, slotted, told, refused.Some?), t)
    ensures Stands(relay, conn, t) && Ready(t, conn.chan) && (!slotted ==> refused == Some(RATE_LIMITED))
    ensures t.conns[conn.chan].phase == if refused.None? then Idle else Closing
  {
    var connected := relay.connected;
    var slot;
    ghost var mid, rest;
    slot, granted, mid := ReserveSteps(relay, conn, ask, now, s);
    slotted, told, refused := slot.Some?, [], Some(RATE_LIMITED);
    if slot.Some? {
      refused, told, rest, t := ConcludeSteps(relay, conn, slot.value, ask, mid);
    } else {
      RepliesSplit(conn.chan, connected, RATE_LIMITED);
      rest, t := SendBoth(relay, conn, RegisterAck(false, connected), [conn.chan], Error(RATE_LIMITED), mid);
    }
    ghost var first := [Event.Reserve(conn.chan, granted)];
    LeadsOn(relay.cfg, Some(conn.chan), s, first, first, mid,
            rest, RestOfSteps(conn.chan, slotted, told, refused.Some?), t);
    events := first + rest;
  }

  /** The steps of a registration after its reservation. */
  function RestOfSteps(c: ConnId, slotted: bool, told: seq<PeerId>, refused: bool): seq<Event> {
    if slotted then AnswerEvents(c, told, refused) + [Settle(c)] else Delivers(c, 2)
  }
}
