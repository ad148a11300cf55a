/** The relay's code beside a ghost state of the broker: what it means for the shared state to reflect that
    state, how steps of the broker lead from one to another, what other tasks may do in between, and that
    the code's sends are deliveries. */
module ServerSteps {
  import opened Net
  import opened Wire
  import opened Limits
  import opened Broker
  import opened BrokerInvariant
  import opened BrokerRuns
  import opened BrokerScenarios
  import opened RelayRegistry
  import opened Server

  ghost function LinkOf(x: Conn): Link {
    Link(x.queue, x.open, x.activity)
  }

  ghost predicate LinksMirror(conns: map<ConnId, Conn>, links: Links) {
    conns.Keys == links.Keys && forall c | c in links :: links[c] == LinkOf(conns[c])
  }

  ghost predicate Mirrors(s: State, peers: Registry, connected: U64, links: Links) {
    && s.registry == peers && s.connected == connected && LinksMirror(s.conns, links)
  }

  /** The relay's shared state is that of `s`. */
  ghost predicate Reflects(relay: RelayState, s: State)
    reads relay`connected, relay`links, relay.registry`peers, relay.abuse`regsPerIp, relay.abuse`liveRegs
  {
    && Inv(relay.cfg, s) && Mirrors(s, relay.registry.peers, relay.connected, relay.links)
    && relay.abuse.regsPerIp == s.regCount && relay.abuse.maxRegsPerIp == relay.cfg.maxRegsPerIp
    && relay.abuse.RegsOk()
  }

  /** The connection's own variables are those of `x`. */
  ghost predicate IsTask(relay: RelayState, conn: Connection, x: Conn)
    reads conn
  {
    && conn.ip == x.ip && conn.verified == x.verified && conn.session == x.session
    && conn.regSlot == if x.holdsReg then Some(SlotFrom(relay, conn.ip)) else None
  }

  ghost function SlotFrom(relay: RelayState, ip: Ip): Slot {
    Slot(relay.abuse.maxRegsPerIp > 0, KeyOf(ip))
  }

  /** The relay's shared state and the connection's own variables are those of `s`. */
  ghost predicate Stands(relay: RelayState, conn: Connection, s: State)
    reads relay`connected, relay`links, relay.registry`peers, relay.abuse`regsPerIp, relay.abuse`liveRegs, conn
  {
    Reflects(relay, s) && conn.chan in s.conns && IsTask(relay, conn, s.conns[conn.chan])
  }

  // ---- Paths ----

  /** The events lead from `s` to `t`, each enabled where it is taken. */
  ghost predicate Path(cfg: Config, s: State, events: seq<Event>, t: State)
    decreases |events|
  {
    if events == [] then s == t
    else Enabled(cfg, s, events[0]) && Path(cfg, Step(cfg, s, events[0]), events[1..], t)
  }

  /** The step is taken by a connection's own task, or by the health sweep when there is no connection.
      Its writer draining its queue and its channel closing are not the connection's task. */
  ghost predicate By(e: Event, task: Option<ConnId>) {
    match task
    case None => e.Sweep? || e.SweepDeliver?
    case Some(c) => OwnTask(e, c)
  }

  /** The task's own steps among the events, in order. */
  ghost function Own(events: seq<Event>, task: Option<ConnId>): seq<Event> {
    if events == [] then []
    else if By(events[0], task) then [events[0]] + Own(events[1..], task)
    else Own(events[1..], task)
  }

  /** The events lead from `s` to `t`, and those of the task are `own`. */
  ghost predicate Leads(cfg: Config, task: Option<ConnId>, s: State, events: seq<Event>, own: seq<Event>, t: State) {
    Path(cfg, s, events, t) && Own(events, task) == own
  }

  /** The task takes the step `e`. */
  ghost predicate Takes(cfg: Config, task: Option<ConnId>, s: State, e: Event, t: State) {
    Leads(cfg, task, s, [e], [e], t)
  }

  lemma {:induction false} PathsJoin(cfg: Config, s: State, a: seq<Event>, m: State, b: seq<Event>, t: State)
    requires Path(cfg, s, a, m) && Path(cfg, m, b, t)
    ensures Path(cfg, s, a + b, t)
    decreases |a|
  {
    if a == [] {
      assert a + b == b;
    } else {
      PathsJoin(cfg, Step(cfg, s, a[0]), a[1..], m, b, t);
      assert (a + b)[1..] == a[1..] + b;
    }
  }

  lemma {:induction false} OwnJoins(a: seq<Event>, b: seq<Event>, task: Option<ConnId>)
    ensures Own(a + b, task) == Own(a, task) + Own(b, task)
    decreases |a|
  {
    if a == [] {
      assert a + b == b;
    } else {
      OwnJoins(a[1..], b, task);
      assert (a + b)[1..] == a[1..] + b;
    }
  }

  lemma LeadsOn(
      cfg: Config, task: Option<ConnId>, s: State, a: seq<Event>, ownA: seq<Event>, m: State, b: seq<Event>,
      ownB: seq<Event>, t: State)
    requires Leads(cfg, task, s, a, ownA, m) && Leads(cfg, task, m, b, ownB, t)
    ensures Leads(cfg, task, s, a + b, ownA + ownB, t)
  {
    PathsJoin(cfg, s, a, m, b, t);
    OwnJoins(a, b, task);
  }

  lemma StepOn(
      cfg: Config, task: Option<ConnId>, s: State, a: seq<Event>, own: seq<Event>, m: State, e: Event, t: State)
    requires Leads(cfg, task, s, a, own, m) && Takes(cfg, task, m, e, t)
    ensures Leads(cfg, task, s, a + [e], own + [e], t)
  {
    LeadsOn(cfg, task, s, a, own, m, [e], [e], t);
  }

  lemma OneStep(cfg: Config, task: Option<ConnId>, s: State, e: Event)
    requires Enabled(cfg, s, e) && By(e, task)
    ensures Takes(cfg, task, s, e, Step(cfg, s, e))
  {
    assert [e][1..] == [];
  }

  /** A path from the end of a run makes a longer run. */
  lemma {:induction false} PathsAreRuns(cfg: Config, r: Run, events: seq<Event>, t: State) returns (r': Run)
    requires IsRun(cfg, r) && Path(cfg, Last(r), events, t)
    ensures IsRun(cfg, r') && Last(r') == t && r'.events == r.events + events
    decreases |events|
  {
    if events == [] {
      r' := r;
      assert r.events + events == r.events;
    } else {
      r' := GoOn(cfg, r, events[0]);
      r' := PathsAreRuns(cfg, r', events[1..], t);
      assert r.events + events == r.events + [events[0]] + events[1..];
    }
  }

  // ---- Other tasks ----

  lemma {:induction false} OthersKeep(cfg: Config, s: State, events: seq<Event>, t: State, c: ConnId)
    requires Leads(cfg, Some(c), s, events, [], t) && c in s.conns
    ensures c in t.conns && AsBefore(s.conns[c], t.conns[c])
    decreases |events|
  {
    if events != [] {
      OthersKeepTask(cfg, s, events[0], c);
      OthersKeep(cfg, Step(cfg, s, events[0]), events[1..], t, c);
    }
  }

  ghost predicate SameSweep(s: State, t: State) {
    t.sweeping == s.sweeping && t.lastSweep == s.lastSweep && t.now >= s.now
  }

  lemma LockedStepKeepsSweep(cfg: Config, s: State, e: Event)
    requires Enabled(cfg, s, e) && (e.Commit? || e.Act? || e.Deregister?)
    ensures SameSweep(s, Step(cfg, s, e))
  {
    if e.Commit? {
      assert SameSweep(s, CommitNow(cfg, s, e.c, e.told));
    } else if e.Act? {
      assert SameSweep(s, ActNow(cfg, s, e.c, e.told));
    } else {
      assert SameSweep(s, DeregisterNow(cfg, s, e.c, e.told));
    }
  }

  lemma OtherStepKeepsSweep(cfg: Config, s: State, e: Event)
    requires Enabled(cfg, s, e) && !By(e, None)
    ensures SameSweep(s, Step(cfg, s, e))
  {
    if e.Commit? || e.Act? || e.Deregister? {
      LockedStepKeepsSweep(cfg, s, e);
    }
  }

  lemma {:induction false} OthersKeepSweep(cfg: Config, s: State, events: seq<Event>, t: State)
    requires Leads(cfg, None, s, events, [], t)
    ensures SameSweep(s, t)
    decreases |events|
  {
    if events != [] {
      OtherStepKeepsSweep(cfg, s, events[0]);
      OthersKeepSweep(cfg, Step(cfg, s, events[0]), events[1..], t);
    }
  }

  /** What other tasks do to the shared state before this one goes on. Its callers know of it only what it
      promises: any number of steps of the broker, none of them this task's. */
  method OtherTasks(relay: RelayState, task: Option<ConnId>, ghost s: State)
    returns (ghost events: seq<Event>, ghost t: State)
    requires Reflects(relay, s)
    modifies relay, relay.registry, relay.abuse
    ensures Leads(relay.cfg, task, s, events, [], t) && Reflects(relay, t)
  {
    events, t := [], s;
  }

  /** A connection's task lets others run. */
  method Yield(relay: RelayState, conn: Connection, ghost s: State) returns (ghost events: seq<Event>, ghost t: State)
    requires Stands(relay, conn, s)
    modifies relay, relay.registry, relay.abuse
    ensures Leads(relay.cfg, Some(conn.chan), s, events, [], t) && Stands(relay, conn, t)
    ensures AsBefore(s.conns[conn.chan], t.conns[conn.chan])
  {
    events, t := OtherTasks(relay, Some(conn.chan), s);
    OthersKeep(relay.cfg, s, events, t, conn.chan);
  }

  // ---- Sends ----

  function Delivers(c: ConnId, n: nat): seq<Event> {
    if n == 0 then [] else Delivers(c, n - 1) + [Deliver(c)]
  }

  lemma KnownChans(cfg: Config, s: State)
    requires Inv(cfg, s)
    ensures ChansKnown(s)
  {
    forall id | id in s.registry
      ensures s.registry[id].chan in s.conns
    {
      assert PeerOk(s.conns, id, s.registry[id]);
    }
  }

  lemma LinksMirrorOne(conns: map<ConnId, Conn>, links: Links, c: ConnId, v: Conn)
    requires LinksMirror(conns, links) && c in conns && LinkOf(v) == LinkOf(conns[c])
    ensures LinksMirror(conns[c := v], links)
  {
  }

  /** One `try_send` is one delivery. */
  lemma SendIsDeliver(cfg: Config, s: State, c: ConnId, links: Links) returns (t: State)
    requires Inv(cfg, s) && c in s.conns && LinksMirror(s.conns, links) && s.conns[c].todo != []
    ensures s.conns[c].todo[0].chan in links && Takes(cfg, Some(c), s, Deliver(c), t) && Inv(cfg, t)
    ensures var n := s.conns[c].todo[0];
            LinksMirror(t.conns, links[n.chan := Push(links[n.chan], cfg.queueCapacity, n.msg)])
    ensures t == s.(conns := t.conns) && c in t.conns
    ensures AsBefore(s.conns[c].(todo := s.conns[c].todo[1..]), t.conns[c])
  {
    assert ConnOk(cfg, s.now, s.conns, s.conns[c]);
    KnownChans(cfg, s);
    StepInv(cfg, s, Deliver(c));
    OneStep(cfg, Some(c), s, Deliver(c));
    t := DeliverStep(cfg, s, c);
  }

  /** One send of the code, whatever the other tasks did since the one before. */
  method SendSteps(relay: RelayState, conn: Connection, to: ConnId, m: Message, ghost s: State) returns (ghost t: State)
    requires Stands(relay, conn, s)
    requires var todo := s.conns[conn.chan].todo; todo != [] && todo[0].chan == to && todo[0].msg == m
    modifies relay`links
    ensures Takes(relay.cfg, Some(conn.chan), s, Deliver(conn.chan), t) && Stands(relay, conn, t)
    ensures AsBefore(s.conns[conn.chan].(todo := s.conns[conn.chan].todo[1..]), t.conns[conn.chan])
  {
    t := SendIsDeliver(relay.cfg, s, conn.chan, relay.links);
    relay.TrySend(to, m);
  }

  /** Others run, and then the next send. */
  method SendNext(relay: RelayState, conn: Connection, to: ConnId, m: Message, ghost s: State)
    returns (ghost events: seq<Event>, ghost t: State)
    requires Stands(relay, conn, s)
    requires var todo := s.conns[conn.chan].todo; todo != [] && todo[0].chan == to && todo[0].msg == m
    modifies relay, relay.registry, relay.abuse
    ensures Leads(relay.cfg, Some(conn.chan), s, events, [Deliver(conn.chan)], t) && Stands(relay, conn, t)
    ensures AsBefore(s.conns[conn.chan].(todo := s.conns[conn.chan].todo[1..]), t.conns[conn.chan])
  {
    var more, mid := Yield(relay, conn, s);
    t := SendSteps(relay, conn, to, m, mid);
    StepOn(relay.cfg, Some(conn.chan), s, more, [], mid, Deliver(conn.chan), t);
    events := more + [Deliver(conn.chan)];
  }

  /** After `i` of the sends. */
  ghost predicate SentSome(
      cfg: Config, c: ConnId, s: State, events: seq<Event>, sends: seq<Send>, rest: seq<Send>, i: nat, t: State)
    requires c in s.conns && i <= |sends|
  {
    && Leads(cfg, Some(c), s, events, Delivers(c, i), t) && c in t.conns
    && AsBefore(s.conns[c].(todo := sends[i..] + rest), t.conns[c])
  }

  lemma SentNone(cfg: Config, c: ConnId, s: State, sends: seq<Send>, rest: seq<Send>)
    requires c in s.conns && s.conns[c].todo == sends + rest
    ensures SentSome(cfg, c, s, [], sends, rest, 0, s)
  {
    assert sends[0..] == sends;
  }

  lemma SentAll(
      cfg: Config, c: ConnId, s: State, events: seq<Event>, sends: seq<Send>, rest: seq<Send>, t: State)
    requires c in s.conns && SentSome(cfg, c, s, events, sends, rest, |sends|, t)
    ensures c in t.conns && AsBefore(s.conns[c].(todo := rest), t.conns[c])
  {
    assert sends[|sends|..] + rest == rest;
  }

  lemma SentOneMore(
      cfg: Config, c: ConnId, s: State, events: seq<Event>, sends: seq<Send>, rest: seq<Send>, i: nat, t: State,
      more: seq<Event>, t': State)
    requires c in s.conns && i < |sends| && SentSome(cfg, c, s, events, sends, rest, i, t)
    requires Leads(cfg, Some(c), t, more, [Deliver(c)], t') && c in t'.conns
    requires t.conns[c].todo != [] && AsBefore(t.conns[c].(todo := t.conns[c].todo[1..]), t'.conns[c])
    ensures SentSome(cfg, c, s, events + more, sends, rest, i + 1, t')
  {
    LeadsOn(cfg, Some(c), s, events, Delivers(c, i), t, more, [Deliver(c)], t');
    NextSend(sends, rest, i);
  }

  /** One message to a list of channels, in order, with other tasks running before each send: as many
      deliveries, and the rest of what the connection has to send is left. */
  method SendEach(
      relay: RelayState, conn: Connection, targets: seq<ConnId>, m: Message, ghost sends: seq<Send>,
      ghost rest: seq<Send>, ghost s: State)
    returns (ghost events: seq<Event>, ghost t: State)
    requires Stands(relay, conn, s) && s.conns[conn.chan].todo == sends + rest && SendsAre(sends, targets, m)
    modifies relay, relay.registry, relay.abuse
    ensures Leads(relay.cfg, Some(conn.chan), s, events, Delivers(conn.chan, |targets|), t) && Stands(relay, conn, t)
    ensures AsBefore(s.conns[conn.chan].(todo := rest), t.conns[conn.chan])
  {
    events, t := [], s;
    SentNone(relay.cfg, conn.chan, s, sends, rest);
    for i := 0 to |targets|
      invariant Stands(relay, conn, t) && SentSome(relay.cfg, conn.chan, s, events, sends, rest, i, t)
    {
      NextSend(sends, rest, i);
      var more, next := SendNext(relay, conn, targets[i], m, t);
      SentOneMore(relay.cfg, conn.chan, s, events, sends, rest, i, t, more, next);
      events, t := events + more, next;
    }
    SentAll(relay.cfg, conn.chan, s, events, sends, rest, t);
  }

  lemma NextSend(sends: seq<Send>, rest: seq<Send>, i: nat)
    requires i < |sends|
    ensures (sends[i..] + rest)[0] == sends[i] && (sends[i..] + rest)[1..] == sends[i + 1..] + rest
  {
  }
}
