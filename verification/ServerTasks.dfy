/** The relay's functions as tasks, built from the blocks of `Server`. Between any two of its blocks and
    sends, other tasks may do whatever the broker lets them. Each method shows steps of the broker that
    lead from the state reflected before to one reflected after, and which of them, in order, are its own. */
module ServerTasks {
  import opened Net
  import opened Wire
  import opened Limits
  import opened Broker
  import opened BrokerInvariant
  import opened BrokerRuns
  import opened BrokerScenarios
  import opened RelayRegistry
  import opened Server
  import opened ServerSteps

  // ---- Teardown ----

  /** What the code's removal leaves is the broker's teardown step. */
  lemma RemoveIsDeregister(cfg: Config, s: State, c: ConnId, told: seq<PeerId>, links: Links) returns (t: State)
    requires Inv(cfg, s) && Ready(s, c) && s.conns[c].phase.Closing? && LinksMirror(s.conns, links)
    requires match Departing(s, c)
             case None => told == []
             case Some(id) => Lists(told, Targets(s.registry - {id}, id, s.conns[c].session.network.value, []))
    ensures Takes(cfg, Some(c), s, Deregister(c, told), t) && Inv(cfg, t)
    ensures LinksMirror(t.conns, links) && t.regCount == s.regCount && c in t.conns
    ensures t.conns[c] == s.conns[c].(phase := Draining, todo := t.conns[c].todo)
    ensures match Departing(s, c)
            case None => t.registry == s.registry && t.connected == s.connected && t.conns[c].todo == []
            case Some(id) =>
              && t.registry == s.registry - {id} && t.connected == Decrement(s.connected)
              && (forall x | x in told :: x in t.registry)
              && t.conns[c].todo == SendsTo(t.registry, told, PeerDisconnected(id))
  {
    KnownChans(cfg, s);
    if Departing(s, c).Some? {
      var id := Departing(s, c).value;
      TargetsInRegistry(s.registry - {id}, told, id, s.conns[c].session.network.value, []);
    }
    t := DeregisterNow(cfg, s, c, told);
    LinksMirrorOne(s.conns, links, c, t.conns[c]);
    StepInv(cfg, s, Deregister(c, told));
    OneStep(cfg, Some(c), s, Deregister(c, told));
  }

  /** The block under the registry's lock: the broker's teardown step, its notices still to be sent. */
  method RemoveSteps(relay: RelayState, conn: Connection, ghost s: State)
    returns (targets: seq<ConnId>, ghost told: seq<PeerId>, ghost t: State)
    requires Stands(relay, conn, s) && Ready(s, conn.chan) && s.conns[conn.chan].phase.Closing?
    modifies relay`connected, relay.registry`peers
    ensures Takes(relay.cfg, Some(conn.chan), s, Deregister(conn.chan, told), t)
    ensures Stands(relay, conn, t) && |targets| == |told|
    ensures t.conns[conn.chan] == s.conns[conn.chan].(phase := Draining, todo := t.conns[conn.chan].todo)
    ensures SendsAre(t.conns[conn.chan].todo, targets, PeerDisconnected(SessionId(conn.session)))
  {
    KnownChans(relay.cfg, s);
    ghost var gone;
    targets, gone, told := relay.RemoveSession(conn.session);
    t := RemoveIsDeregister(relay.cfg, s, conn.chan, told, relay.links);
  }

  /** A teardown: its own steps are the broker's teardown step and a delivery to each record told. */
  method DeregisterSteps(relay: RelayState, conn: Connection, ghost s: State)
    returns (ghost told: seq<PeerId>, ghost events: seq<Event>, ghost t: State)
    requires Stands(relay, conn, s) && Ready(s, conn.chan) && s.conns[conn.chan].phase.Closing?
    modifies relay, relay.registry, relay.abuse
    ensures Leads(relay.cfg, Some(conn.chan), s, events,
                  [Deregister(conn.chan, told)] + Delivers(conn.chan, |told|), t)
    ensures Stands(relay, conn, t) && Ready(t, conn.chan) && t.conns[conn.chan].phase.Draining?
  {
    ghost var cfg, c := relay.cfg, conn.chan;
    var before, s1 := Yield(relay, conn, s);
    var targets;
    ghost var s2;
    targets, told, s2 := RemoveSteps(relay, conn, s1);
    StepOn(cfg, Some(c), s, before, [], s1, Deregister(c, told), s2);
    var news := PeerDisconnected(SessionId(conn.session));
    var after, s3 := SendEach(relay, conn, targets, news, s2.conns[c].todo, [], s2);
    LeadsOn(cfg, Some(c), s, before + [Deregister(c, told)], [Deregister(c, told)], s2, after, Delivers(c, |told|), s3);
    events, t := before + [Deregister(c, told)] + after, s3;
  }

  // ---- Forwarding ----

  /** What the code looks up for an action is the broker's step of it. */
  lemma LookupIsAct(cfg: Config, s: State, c: ConnId, told: seq<PeerId>, links: Links) returns (t: State)
    requires Inv(cfg, s) && Enabled(cfg, s, Act(c, told)) && LinksMirror(s.conns, links)
    requires !s.conns[c].phase.action.Close?
    ensures forall x | x in told :: x in s.registry
    ensures Takes(cfg, Some(c), s, Act(c, told), t) && Inv(cfg, t)
    ensures LinksMirror(t.conns, links) && t == s.(conns := t.conns) && c in t.conns
    ensures t.conns[c] == s.conns[c].(phase := Idle, todo := ActSends(s, c, told))
  {
    var a, session := s.conns[c].phase.action, s.conns[c].session;
    if a.FanOut? && session.network.Some? {
      TargetsInRegistry(s.registry, told, a.from, session.network.value, a.exclude);
    }
    t := ActNow(cfg, s, c, told);
    LinksMirrorOne(s.conns, links, c, t.conns[c]);
    StepInv(cfg, s, Act(c, told));
    OneStep(cfg, Some(c), s, Act(c, told));
  }

  /** `t` is `s` after connection `c`'s action, which has `m` to send to each of the targets. */
  ghost predicate Acted(s: State, c: ConnId, targets: seq<ConnId>, m: Message, t: State) {
    && c in s.conns && c in t.conns && t == s.(conns := t.conns)
    && t.conns[c] == s.conns[c].(phase := Idle, todo := t.conns[c].todo) && SendsAre(t.conns[c].todo, targets, m)
  }

  lemma FanOutIsAct(
      cfg: Config, s: State, c: ConnId, a: Action, told: seq<PeerId>, targets: seq<ConnId>, links: Links)
    returns (t: State)
    requires Inv(cfg, s) && Ready(s, c) && s.conns[c].phase == Pending(a) && a.FanOut? && LinksMirror(s.conns, links)
    requires Paired(s.registry, targets, told)
    requires match s.conns[c].session.network
             case None => told == []
             case Some(network) => Lists(told, Targets(s.registry, a.from, network, a.exclude))
    ensures Takes(cfg, Some(c), s, Act(c, told), t) && Inv(cfg, t) && LinksMirror(t.conns, links)
    ensures Acted(s, c, targets, a.msg, t)
  {
    KnownChans(cfg, s);
    t := LookupIsAct(cfg, s, c, told, links);
    FanOutSends(s, c, told);
  }

  lemma FanOutSends(s: State, c: ConnId, told: seq<PeerId>)
    requires c in s.conns && s.conns[c].phase.Pending? && s.conns[c].phase.action.FanOut?
    requires (forall x | x in told :: x in s.registry) && (s.conns[c].session.network.None? ==> told == [])
    ensures ActSends(s, c, told) == SendsTo(s.registry, told, s.conns[c].phase.action.msg)
  {
  }

  /** Where the code sends a forward: nowhere without a network, to the record on it, or back an error. */
  ghost predicate Found(
      reg: Registry, session: Session, c: ConnId, to: PeerId, m: Message, targets: seq<ConnId>, msg: Message)
  {
    if session.network.None? then targets == []
    else if to in reg && reg[to].network == session.network.value then targets == [reg[to].chan] && msg == m
    else targets == [c] && msg == Error(PEER_NOT_FOUND)
  }

  lemma ForwardIsAct(
      cfg: Config, s: State, c: ConnId, a: Action, targets: seq<ConnId>, msg: Message, links: Links)
    returns (t: State)
    requires Inv(cfg, s) && Ready(s, c) && s.conns[c].phase == Pending(a) && a.ForwardTo? && LinksMirror(s.conns, links)
    requires Found(s.registry, s.conns[c].session, c, a.to, a.msg, targets, msg)
    ensures Takes(cfg, Some(c), s, Act(c, []), t) && Inv(cfg, t) && LinksMirror(t.conns, links)
    ensures Acted(s, c, targets, msg, t)
  {
    KnownChans(cfg, s);
    t := LookupIsAct(cfg, s, c, [], links);
    ForwardSends(s, c, targets, msg);
  }

  lemma ForwardSends(s: State, c: ConnId, targets: seq<ConnId>, msg: Message)
    requires c in s.conns && s.conns[c].phase.Pending? && s.conns[c].phase.action.ForwardTo?
    requires var a := s.conns[c].phase.action; Found(s.registry, s.conns[c].session, c, a.to, a.msg, targets, msg)
    ensures SendsAre(ActSends(s, c, []), targets, msg)
  {
  }

  /** The lookup of a fan-out under the registry's lock. */
  method LookupSteps(
      relay: RelayState, conn: Connection, from: PeerId, exclude: seq<PeerId>, m: Message, ghost s: State)
    returns (targets: seq<ConnId>, ghost told: seq<PeerId>, ghost t: State)
    requires Stands(relay, conn, s) && Ready(s, conn.chan)
    requires s.conns[conn.chan].phase == Pending(FanOut(from, exclude, m))
    ensures Takes(relay.cfg, Some(conn.chan), s, Act(conn.chan, told), t)
    ensures Stands(relay, conn, t) && |targets| == |told|
    ensures Acted(s, conn.chan, targets, m, t)
    ensures |targets| == if conn.session.network.None? then 0
                         else |Targets(relay.registry.peers, from, conn.session.network.value, exclude)|
  {
    KnownChans(relay.cfg, s);
    targets, told := [], [];
    if conn.session.network.Some? {
      targets, told := relay.registry.BroadcastTargets(from, conn.session.network.value, exclude);
    }
    t := FanOutIsAct(relay.cfg, s, conn.chan, FanOut(from, exclude, m), told, targets, relay.links);
  }

  /** A fan-out: its own steps are the broker's lookup of it and a delivery to each record listed. */
  method BroadcastSteps(
      relay: RelayState, conn: Connection, from: PeerId, exclude: seq<PeerId>, m: Message, ghost s: State)
    returns (ghost told: seq<PeerId>, ghost events: seq<Event>, ghost t: State)
    requires Stands(relay, conn, s) && Ready(s, conn.chan)
    requires s.conns[conn.chan].phase == Pending(FanOut(from, exclude, m))
    modifies relay, relay.registry, relay.abuse
    ensures Leads(relay.cfg, Some(conn.chan), s, events, [Act(conn.chan, told)] + Delivers(conn.chan, |told|), t)
    ensures Stands(relay, conn, t) && Ready(t, conn.chan) && t.conns[conn.chan].phase.Idle?
  {
    ghost var cfg, c := relay.cfg, conn.chan;
    var before, s1 := Yield(relay, conn, s);
    var targets;
    ghost var s2;
    targets, told, s2 := LookupSteps(relay, conn, from, exclude, m, s1);
    StepOn(cfg, Some(c), s, before, [], s1, Act(c, told), s2);
    var after, s3 := SendEach(relay, conn, targets, m, s2.conns[c].todo, [], s2);
    LeadsOn(cfg, Some(c), s, before + [Act(c, told)], [Act(c, told)], s2, after, Delivers(c, |told|), s3);
    events, t := before + [Act(c, told)] + after, s3;
  }

  /** The lookup of one record under the registry's lock: what to send, and on which channel. */
  method FindSteps(relay: RelayState, conn: Connection, to: PeerId, m: Message, ghost s: State)
    returns (targets: seq<ConnId>, msg: Message, ghost t: State)
    requires Stands(relay, conn, s) && Ready(s, conn.chan)
    requires s.conns[conn.chan].phase == Pending(Action.ForwardTo(to, m))
    ensures Takes(relay.cfg, Some(conn.chan), s, Act(conn.chan, []), t) && Stands(relay, conn, t)
    ensures Acted(s, conn.chan, targets, msg, t) && |targets| <= 1
  {
    KnownChans(relay.cfg, s);
    targets, msg := [], m;
    if conn.session.network.Some? {
      var sender := relay.registry.SenderInNetwork(to, conn.session.network.value);
      if sender.Some? {
        targets := [sender.value];
      } else {
        targets, msg := [conn.chan], Error(PEER_NOT_FOUND);
      }
    }
    t := ForwardIsAct(relay.cfg, s, conn.chan, Action.ForwardTo(to, m), targets, msg, relay.links);
  }

  /** A forward to one record, or its error: the broker's lookup of it and one delivery at most. */
  method ForwardSteps(relay: RelayState, conn: Connection, to: PeerId, m: Message, ghost s: State)
    returns (ghost n: nat, ghost events: seq<Event>, ghost t: State)
    requires Stands(relay, conn, s) && Ready(s, conn.chan)
    requires s.conns[conn.chan].phase == Pending(Action.ForwardTo(to, m))
    modifies relay, relay.registry, relay.abuse
    ensures Leads(relay.cfg, Some(conn.chan), s, events, [Act(conn.chan, [])] + Delivers(conn.chan, n), t) && n <= 1
    ensures Stands(relay, conn, t) && Ready(t, conn.chan) && t.conns[conn.chan].phase.Idle?
  {
    ghost var cfg, c := relay.cfg, conn.chan;
    var before, s1 := Yield(relay, conn, s);
    var targets, msg, s2 := FindSteps(relay, conn, to, m, s1);
    StepOn(cfg, Some(c), s, before, [], s1, Act(c, []), s2);
    var after, s3 := SendEach(relay, conn, targets, msg, s2.conns[c].todo, [], s2);
    LeadsOn(cfg, Some(c), s, before + [Act(c, [])], [Act(c, [])], s2, after, Delivers(c, |targets|), s3);
    n, events, t := |targets|, before + [Act(c, [])] + after, s3;
  }

  // ---- The sweep ----

  function SweepDelivers(n: nat): seq<Event> {
    if n == 0 then [] else SweepDelivers(n - 1) + [SweepDeliver]
  }

  lemma {:induction false} SweepDeliversJoin(m: nat, n: nat)
    ensures SweepDelivers(m) + SweepDelivers(n) == SweepDelivers(m + n)
    decreases n
  {
    if n > 0 {
      SweepDeliversJoin(m, n - 1);
      assert SweepDelivers(m) + SweepDelivers(n) == SweepDelivers(m) + SweepDelivers(n - 1) + [SweepDeliver];
    }
  }

  /** One send of a sweep is one of its deliveries. */
  lemma SendIsSweepDeliver(cfg: Config, s: State, links: Links) returns (t: State)
    requires Inv(cfg, s) && LinksMirror(s.conns, links) && s.sweeping != []
    ensures s.sweeping[0].chan in links && Takes(cfg, None, s, SweepDeliver, t) && Inv(cfg, t)
    ensures var n := s.sweeping[0];
            LinksMirror(t.conns, links[n.chan := Push(links[n.chan], cfg.queueCapacity, n.msg)])
    ensures t == s.(conns := t.conns, sweeping := s.sweeping[1..])
  {
    KnownChans(cfg, s);
    StepInv(cfg, s, SweepDeliver);
    OneStep(cfg, None, s, SweepDeliver);
    t := SweepDeliverStep(cfg, s);
  }

  /** Others run, and then the sweep's next send. */
  method SweepSend(relay: RelayState, to: ConnId, m: Message, ghost s: State)
    returns (ghost events: seq<Event>, ghost t: State)
    requires Reflects(relay, s) && s.sweeping != [] && s.sweeping[0].chan == to && s.sweeping[0].msg == m
    modifies relay, relay.registry, relay.abuse
    ensures Leads(relay.cfg, None, s, events, [SweepDeliver], t) && Reflects(relay, t) && t.sweeping == s.sweeping[1..]
  {
    ghost var others, mid;
    others, mid := OtherTasks(relay, None, s);
    OthersKeepSweep(relay.cfg, s, others, mid);
    t := SendIsSweepDeliver(relay.cfg, mid, relay.links);
    relay.TrySend(to, m);
    StepOn(relay.cfg, None, s, others, [], mid, SweepDeliver, t);
    events := others + [SweepDeliver];
  }

  /** The notices of one departure, and the rest of the sweep's sends left. */
  method SweepSendEach(
      relay: RelayState, targets: seq<ConnId>, m: Message, ghost sends: seq<Send>, ghost rest: seq<Send>,
      ghost s: State)
    returns (ghost events: seq<Event>, ghost t: State)
    requires Reflects(relay, s) && s.sweeping == sends + rest && SendsAre(sends, targets, m)
    modifies relay, relay.registry, relay.abuse
    ensures Leads(relay.cfg, None, s, events, SweepDelivers(|sends|), t) && Reflects(relay, t) && t.sweeping == rest
  {
    events, t := [], s;
    SweptNone(relay.cfg, s, sends, rest);
    for i := 0 to |targets|
      invariant Reflects(relay, t) && SweptSome(relay.cfg, s, events, sends, rest, i, t)
    {
      NextSend(sends, rest, i);
      var more, next := SweepSend(relay, targets[i], m, t);
      SweptOneMore(relay.cfg, s, events, sends, rest, i, t, more, next);
      events, t := events + more, next;
    }
    SweptAll(relay.cfg, s, events, sends, rest, t);
  }

  /** After `i` of the sends. */
  ghost predicate SweptSome(
      cfg: Config, s: State, events: seq<Event>, sends: seq<Send>, rest: seq<Send>, i: nat, t: State)
    requires i <= |sends|
  {
    Leads(cfg, None, s, events, SweepDelivers(i), t) && t.sweeping == sends[i..] + rest
  }

  lemma SweptNone(cfg: Config, s: State, sends: seq<Send>, rest: seq<Send>)
    requires s.sweeping == sends + rest
    ensures SweptSome(cfg, s, [], sends, rest, 0, s)
  {
    assert sends[0..] == sends;
  }

  lemma SweptAll(cfg: Config, s: State, events: seq<Event>, sends: seq<Send>, rest: seq<Send>, t: State)
    requires SweptSome(cfg, s, events, sends, rest, |sends|, t)
    ensures t.sweeping == rest
  {
    assert sends[|sends|..] + rest == rest;
  }

  lemma SweptOneMore(
      cfg: Config, s: State, events: seq<Event>, sends: seq<Send>, rest: seq<Send>, i: nat, t: State,
      more: seq<Event>, t': State)
    requires i < |sends| && SweptSome(cfg, s, events, sends, rest, i, t) && t.sweeping != []
    requires Leads(cfg, None, t, more, [SweepDeliver], t') && t'.sweeping == t.sweeping[1..]
    ensures SweptSome(cfg, s, events + more, sends, rest, i + 1, t')
  {
    LeadsOn(cfg, None, s, events, SweepDelivers(i), t, more, [SweepDeliver], t');
    NextSend(sends, rest, i);
  }

  /** A pruning in the order `plan` is the broker's sweep in that order. */
  lemma PruneIsSweep(cfg: Config, s: State, at: nat, plan: seq<Victim>, links: Links) returns (t: State)
    requires Inv(cfg, s) && s.sweeping == [] && s.lastSweep <= at <= s.now && LinksMirror(s.conns, links)
    requires Linked(s.registry, links) && SweepOrder(s.registry, plan)
    requires Lists(Ids(plan), Reapable(s.registry, links, at, cfg.deadline))
    ensures Takes(cfg, None, s, Sweep(at, plan), t) && Inv(cfg, t) && t == SweepStep(s, at, plan)
  {
    KnownChans(cfg, s);
    assert Reapable(s.registry, links, at, cfg.deadline) == Victims(cfg, s, at);
    StepInv(cfg, s, Sweep(at, plan));
    OneStep(cfg, None, s, Sweep(at, plan));
    t := SweepStep(s, at, plan);
  }

  /** The block under the registry's lock: the broker's sweep, its notices still to be sent. */
  method PruneSteps(relay: RelayState, at: nat, ghost s: State)
    returns (pruned: seq<(PeerId, seq<ConnId>)>, ghost plan: seq<Victim>, ghost notices: seq<seq<Send>>, ghost t: State)
    requires Reflects(relay, s) && s.sweeping == [] && s.lastSweep <= at <= s.now
    modifies relay`connected, relay.registry`peers
    ensures Takes(relay.cfg, None, s, Sweep(at, plan), t) && Reflects(relay, t)
    ensures t.sweeping == Flat(notices) && NoticesAre(notices, pruned)
  {
    KnownChans(relay.cfg, s);
    pruned, plan, notices := relay.Prune(at);
    t := PruneIsSweep(relay.cfg, s, at, plan, relay.links);
  }

  /** The notices of a sweep, one pruned record after another, with other tasks running before each. */
  method NoticeSteps(
      relay: RelayState, pruned: seq<(PeerId, seq<ConnId>)>, ghost notices: seq<seq<Send>>, ghost s: State)
    returns (ghost events: seq<Event>, ghost t: State)
    requires Reflects(relay, s) && s.sweeping == Flat(notices) && NoticesAre(notices, pruned)
    modifies relay, relay.registry, relay.abuse
    ensures Leads(relay.cfg, None, s, events, SweepDelivers(|Flat(notices)|), t)
    ensures Reflects(relay, t) && t.sweeping == []
  {
    events, t := [], s;
    assert notices[0..] == notices;
    for i := 0 to |pruned|
      invariant Reflects(relay, t) && NoticedSome(relay.cfg, s, events, notices, i, t)
    {
      NextNotices(notices, i);
      var more, next := SweepSendEach(
        relay, pruned[i].1, PeerDisconnected(pruned[i].0), notices[i], Flat(notices[i + 1..]), t);
      NoticedOneMore(relay.cfg, s, events, notices, i, t, more, next);
      events, t := events + more, next;
    }
  }

  /** After the notices of `i` of the pruned records. */
  ghost predicate NoticedSome(
      cfg: Config, s: State, events: seq<Event>, notices: seq<seq<Send>>, i: nat, t: State)
    requires i <= |notices|
  {
    && t.sweeping == Flat(notices[i..]) && |t.sweeping| <= |Flat(notices)|
    && Leads(cfg, None, s, events, SweepDelivers(|Flat(notices)| - |t.sweeping|), t)
  }

  lemma NextNotices(notices: seq<seq<Send>>, i: nat)
    requires i < |notices|
    ensures Flat(notices[i..]) == notices[i] + Flat(notices[i + 1..])
  {
    FlatFirst(notices[i..]);
    assert notices[i..][1..] == notices[i + 1..];
  }

  lemma NoticedOneMore(
      cfg: Config, s: State, events: seq<Event>, notices: seq<seq<Send>>, i: nat, t: State, more: seq<Event>, t': State)
    requires i < |notices| && NoticedSome(cfg, s, events, notices, i, t)
    requires Leads(cfg, None, t, more, SweepDelivers(|notices[i]|), t') && t'.sweeping == Flat(notices[i + 1..])
    ensures NoticedSome(cfg, s, events + more, notices, i + 1, t')
  {
    NextNotices(notices, i);
    var sent := |Flat(notices)| - |t.sweeping|;
    LeadsOn(cfg, None, s, events, SweepDelivers(sent), t, more, SweepDelivers(|notices[i]|), t');
    SweepDeliversJoin(sent, |notices[i]|);
  }

  /** One pass of the health sweep: its own steps are the broker's sweep and a delivery for each notice. */
  method SweepSteps(relay: RelayState, at: nat, ghost s: State)
    returns (ghost plan: seq<Victim>, ghost n: nat, ghost events: seq<Event>, ghost t: State)
    requires Reflects(relay, s) && s.sweeping == [] && s.lastSweep <= at <= s.now
    modifies relay, relay.registry, relay.abuse
    ensures Leads(relay.cfg, None, s, events, [Sweep(at, plan)] + SweepDelivers(n), t)
    ensures Reflects(relay, t) && t.sweeping == []
  {
    ghost var others, s1, notices, s2, sends;
    var pruned;
    others, s1 := OtherTasks(relay, None, s);
    OthersKeepSweep(relay.cfg, s, others, s1);
    pruned, plan, notices, s2 := PruneSteps(relay, at, s1);
    StepOn(relay.cfg, None, s, others, [], s1, Sweep(at, plan), s2);
    sends, t := NoticeSteps(relay, pruned, notices, s2);
    n := |Flat(notices)|;
    LeadsOn(relay.cfg, None, s, others + [Sweep(at, plan)], [Sweep(at, plan)], s2, sends, SweepDelivers(n), t);
    events := others + [Sweep(at, plan)] + sends;
  }
}
