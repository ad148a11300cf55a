/** Whose record a teardown takes, and whom it tells. */
module BrokerTeardown {
  import opened Net
  import opened Limits
  import opened Wire
  import opened Broker
  import opened BrokerInvariant
  import opened BrokerSweep
  import opened BrokerRuns
  import opened BrokerRelay
  import opened BrokerScenarios

  ghost predicate Owns(s: State, c: ConnId, id: PeerId) {
    id in s.registry && s.registry[id].chan == c
  }

  /** The step takes the record of `id` from whoever holds it: a sweep finds it closed or silent, a session
      of that id is torn down, or a connection other than `c` registers the id. */
  ghost predicate Taken(cfg: Config, s: State, e: Event, c: ConnId, id: PeerId) {
    && Enabled(cfg, s, e)
    && (|| (e.Sweep? && id in s.registry && DeadOrStale(cfg, s, e.at, id))
        || (e.Deregister? && s.conns[e.c].session.peer == Some(id))
        || (EnteredBy(cfg, s, e, id) && e.c != c))
  }

  lemma OwnsStep(cfg: Config, s: State, e: Event, c: ConnId, id: PeerId)
    requires Inv(cfg, s) && Enabled(cfg, s, e) && !(EnteredBy(cfg, s, e, id) && e.c == c)
    ensures Owns(Step(cfg, s, e), c, id) <==> Owns(s, c, id) && !Taken(cfg, s, e, c, id)
  {
    RecordFate(cfg, s, e, id);
    if EnteredBy(cfg, s, e, id) {
      EntryIsOwn(cfg, s, e.c, e.told);
    }
  }

  ghost predicate EntersAt(cfg: Config, r: Run, j: nat, c: ConnId, id: PeerId)
    requires IsRun(cfg, r) && j < |r.events|
  {
    assert StepAt(cfg, r, j);
    EnteredBy(cfg, r.states[j], r.events[j], id) && r.events[j].c == c
  }

  ghost predicate TakenAt(cfg: Config, r: Run, j: nat, c: ConnId, id: PeerId)
    requires IsRun(cfg, r) && j < |r.events|
  {
    Taken(cfg, r.states[j], r.events[j], c, id)
  }

  /** From its entry on, a connection's record is its own exactly until one of those steps. */
  lemma {:induction false} OwnUntilTaken(cfg: Config, r: Run, j: nat, k: nat, c: ConnId, id: PeerId)
    requires IsRun(cfg, r) && j < k < |r.states| && EntersAt(cfg, r, j, c, id)
    requires forall l | j < l < k :: !EntersAt(cfg, r, l, c, id)
    ensures Owns(r.states[k], c, id) <==> forall l | j < l < k :: !TakenAt(cfg, r, l, c, id)
    decreases k
  {
    assert StepAt(cfg, r, k - 1);
    if k == j + 1 {
      EntryIsOwn(cfg, r.states[j], c, r.events[j].told);
    } else {
      OwnUntilTaken(cfg, r, j, k - 1, c, id);
      RunInv(cfg, r, k - 1);
      assert !EntersAt(cfg, r, k - 1, c, id);
      OwnsStep(cfg, r.states[k - 1], r.events[k - 1], c, id);
      assert TakenAt(cfg, r, k - 1, c, id) <==> Taken(cfg, r.states[k - 1], r.events[k - 1], c, id);
    }
  }

  /** The step of a session's registration, and none of the connection's after it. */
  lemma {:induction false} EntryOfSession(cfg: Config, r: Run, k: nat, c: ConnId, id: PeerId) returns (j: nat)
    requires IsRun(cfg, r) && k < |r.states| && LastRegistered(cfg, r, c, k).peer == Some(id)
    ensures j < k && EntersAt(cfg, r, j, c, id) && forall l | j < l < k :: !EntersAt(cfg, r, l, c, id)
  {
    assert StepAt(cfg, r, k - 1);
    if Accepts(cfg, r.states[k - 1], r.events[k - 1], c) {
      j := k - 1;
    } else {
      j := EntryOfSession(cfg, r, k - 1, c, id);
      assert !EntersAt(cfg, r, k - 1, c, id);
    }
  }

  /** A teardown takes its own record exactly when, since its session's registration, no sweep found the
      record closed or silent, no other session of that id was torn down, and no other connection
      registered the id; else it takes whatever another has registered under it since, if anything. */
  lemma TeardownTakesItsOwnExactlyWhen(cfg: Config, r: Run, k: nat, c: ConnId, told: seq<PeerId>, id: PeerId)
    returns (j: nat)
    requires IsRun(cfg, r) && k < |r.events| && r.events[k] == Deregister(c, told)
    requires c in r.states[k].conns && r.states[k].conns[c].session.peer == Some(id)
    ensures j < k && EntersAt(cfg, r, j, c, id)
    ensures Owns(r.states[k], c, id) <==> forall l | j < l < k :: !TakenAt(cfg, r, l, c, id)
    ensures id !in r.states[k + 1].registry
  {
    assert StepAt(cfg, r, k);
    RunInv(cfg, r, k);
    SessionIsLastRegistered(cfg, r, k, c);
    j := EntryOfSession(cfg, r, k, c, id);
    OwnUntilTaken(cfg, r, j, k, c, id);
    RecordFate(cfg, r.states[k], r.events[k], id);
  }

  // ---- Whom a teardown tells ----

  /** While a connection owns a record under the id it last registered, the two are on one network. */
  lemma {:induction false} OwnNetwork(cfg: Config, r: Run, i: nat, c: ConnId, id: PeerId)
    requires IsRun(cfg, r) && i < |r.states| && Owns(r.states[i], c, id)
    requires LastRegistered(cfg, r, c, i).peer == Some(id)
    ensures LastRegistered(cfg, r, c, i).network == Some(r.states[i].registry[id].network)
  {
    assert StepAt(cfg, r, i - 1);
    RunInv(cfg, r, i - 1);
    var s, e := r.states[i - 1], r.events[i - 1];
    RecordFate(cfg, s, e, id);
    if EnteredBy(cfg, s, e, id) {
      EntryIsOwn(cfg, s, e.c, e.told);
    } else {
      OwnNetwork(cfg, r, i - 1, c, id);
    }
  }

  /** The records told are exactly the others of the network of the departing record `id`. */
  ghost predicate TellsItsNetwork(reg: Registry, id: PeerId, told: seq<PeerId>)
    requires id in reg
  {
    forall x :: x in told <==> x in Targets(reg, id, reg[id].network, [])
  }

  /** A teardown tells the records of its session's network. They are those of the network of the record
      it takes exactly when that is the same network, or nobody else is on either; and it is the same
      while the record is the connection's own. */
  lemma TeardownTellsItsNetworkExactlyWhen(cfg: Config, r: Run, k: nat, c: ConnId, told: seq<PeerId>, id: PeerId)
    requires IsRun(cfg, r) && k < |r.events| && r.events[k] == Deregister(c, told)
    requires c in r.states[k].conns && r.states[k].conns[c].session.peer == Some(id) && id in r.states[k].registry
    ensures r.states[k].conns[c].session.network.Some?
    ensures var reg, network := r.states[k].registry, r.states[k].conns[c].session.network.value;
            && (TellsItsNetwork(reg, id, told) <==>
                  || reg[id].network == network
                  || (Alone(reg, id, network) && Alone(reg, id, reg[id].network)))
            && (Owns(r.states[k], c, id) ==> reg[id].network == network)
  {
    var s := r.states[k];
    RunInv(cfg, r, k);
    assert StepAt(cfg, r, k) && ConnOk(cfg, s.now, s.conns, s.conns[c]);
    SessionIsLastRegistered(cfg, r, k, c);
    ToldByNetwork(s.registry, id, s.conns[c].session.network.value, told);
    if Owns(s, c, id) {
      OwnNetwork(cfg, r, k, c, id);
    }
  }

  lemma ToldByNetwork(reg: Registry, id: PeerId, network: NetworkId, told: seq<PeerId>)
    requires id in reg && Lists(told, Targets(reg - {id}, id, network, []))
    ensures TellsItsNetwork(reg, id, told) <==>
              || reg[id].network == network
              || (Alone(reg, id, network) && Alone(reg, id, reg[id].network))
  {
    TargetsInRegistry(reg - {id}, told, id, network, []);
    if reg[id].network != network && TellsItsNetwork(reg, id, told) {
      forall x | x in reg && x != id
        ensures reg[x].network != network && reg[x].network != reg[id].network
      {
        assert x in told <==> x in Targets(reg, id, reg[id].network, []);
      }
    }
  }

  // ---- A newcomer's record is taken ----

  const OLD_IP: Ip := V4([0, 0, 0, 0])
  const NEW_IP: Ip := V4([0, 0, 0, 1])
  const THIRD_IP: Ip := V4([0, 0, 0, 2])

  /** A source with no connection may take a slot of either kind. */
  lemma NothingHeld(cfg: Config, s: State, key: IpKey)
    requires Inv(cfg, s) && forall c | c in s.conns && KeyOf(s.conns[c].ip) == key :: HeldBy(s.conns[c]) == 0
    ensures CanTake(s.regCount, key, cfg.maxRegsPerIp)
    ensures (forall c | c in s.conns :: KeyOf(s.conns[c].ip) != key) ==> CanTake(s.connCount, key, cfg.maxConnsPerIp)
  {
    assert Picked(s.conns, SettledFrom(key)) == {} && Picked(s.conns, InFlightFrom(key)) == {};
    assert SlotsOkFor(cfg, s.conns, s.connCount, s.regCount, key);
    if forall c | c in s.conns :: KeyOf(s.conns[c].ip) != key {
      assert Picked(s.conns, LiveFrom(key)) == {};
    }
  }

  /** A connection without a certificate is registered and idle, its channel open. */
  ghost predicate Lingers(x: Conn, ip: Ip, id: PeerId, network: NetworkId) {
    && x.phase.Idle? && x.todo == [] && x.ip == ip && x.verified.None? && x.open
    && x.session == Session(Some(id), Some(network))
  }

  /** A connection opens and registers, alone on its network and the first of its source. */
  lemma Comes(cfg: Config, r: Run, c: ConnId, ip: Ip, id: PeerId, network: NetworkId) returns (r': Run)
    requires IsRun(cfg, r) && c !in Last(r).conns && |Last(r).registry| < cfg.maxConnections
    requires forall d | d in Last(r).conns :: KeyOf(Last(r).conns[d].ip) != KeyOf(ip)
    requires id !in Last(r).registry && Alone(Last(r).registry, id, network)
    ensures IsRun(cfg, r')
    ensures var s, s' := Last(r), Last(r');
            && s'.registry == s.registry[id := Newcomer(id, network, c)] && s'.sweeping == s.sweeping
            && c in s'.conns && s'.conns == s.conns[c := s'.conns[c]] && Lingers(s'.conns[c], ip, id, network)
            && s'.now == s.now == s'.conns[c].activity && s'.lastSweep == s.lastSweep
  {
    KnownNow(cfg, r);
    NothingHeld(cfg, Last(r), KeyOf(ip));
    var ready := Opens(cfg, r, c, ip);
    KnownNow(cfg, ready);
    NothingHeld(cfg, Last(ready), KeyOf(ip));
    r' := Registers(cfg, ready, c, id, network);
    Overwrites(Last(r).conns, c, Last(ready).conns[c], Last(r').conns[c]);
  }

  /** An idle connection ends: it leaves, and its teardown takes the record of its id. */
  lemma Ends(cfg: Config, r: Run, c: ConnId, id: PeerId, network: NetworkId, told: seq<PeerId>)
    returns (r': Run, k: nat)
    requires IsRun(cfg, r) && c in Last(r).conns && AtRest(Last(r), c)
    requires Last(r).conns[c].session == Session(Some(id), Some(network)) && id in Last(r).registry
    requires Lists(told, Targets(Last(r).registry - {id}, id, network, []))
    ensures IsRun(cfg, r') && k + 1 == |r'.events| && r'.events[k] == Deregister(c, told)
    ensures var s, s' := Last(r), r'.states[k];
            && s'.registry == s.registry && c in s'.conns && s'.conns == s.conns[c := s'.conns[c]]
            && s'.conns[c].session == s.conns[c].session
    ensures Last(r').registry == Last(r).registry - {id} && c in Last(r').conns
    ensures Last(r').conns == Last(r).conns[c := Last(r').conns[c]]
    ensures (forall x | x in told :: x in Last(r').registry)
         && Last(r').conns[c].todo == SendsTo(Last(r').registry, told, PeerDisconnected(id))
  {
    KnownNow(cfg, r);
    var left := GoOn(cfg, r, Leave(c, false));
    KnownNow(cfg, left);
    r' := GoOn(cfg, left, Deregister(c, told));
    k := |left.events|;
    TargetsInRegistry(Last(r).registry - {id}, told, id, network, []);
    Overwrites(Last(r).conns, c, Last(left).conns[c], Last(r').conns[c]);
  }

  /** Connection 0 has registered the id, fallen silent and been swept, and is still there. */
  lemma SweptAway(cfg: Config) returns (r: Run)
    requires cfg.maxConnections >= 1
    ensures IsRun(cfg, r) && Last(r).registry == map[] && Last(r).sweeping == []
    ensures Last(r).conns.Keys == {0} && Lingers(Last(r).conns[0], OLD_IP, "id", "net")
  {
    var first := StartRun(cfg);
    var there := Comes(cfg, first, 0, OLD_IP, "id", "net");
    KnownNow(cfg, there);
    var late := GoOn(cfg, there, Tick(cfg.deadline + 1));
    r := SweepsTheOne(cfg, late);
  }

  lemma SweepsTheOne(cfg: Config, r: Run) returns (r': Run)
    requires IsRun(cfg, r) && Last(r).sweeping == [] && Last(r).registry.Keys == {"id"}
    requires var s := Last(r); ChansKnown(s) && Victims(cfg, s, s.now) == {"id"}
    ensures IsRun(cfg, r') && Last(r').registry == map[] && Last(r').sweeping == [] && Last(r').conns == Last(r).conns
  {
    KnownNow(cfg, r);
    var s := Last(r);
    var plan := [Victim("id", [])];
    var left := s.registry - {"id"};
    assert left == map[] && Targets(left, "id", s.registry["id"].network, []) == {};
    assert plan[1..] == [] && SweepOrder(left, plan[1..]) && SweepOrder(s.registry, plan);
    assert Ids(plan) == ["id"];
    assert SweepAll(left, Decrement(s.connected), plan[1..]) == (left, Decrement(s.connected), []);
    r' := GoOn(cfg, r, Sweep(s.now, plan));
  }

  /** Then connection 1 registers the id, connection 0 leaves, and its teardown takes the record of
      connection 1, whose channel is open. */
  lemma NewcomerLosesItsRecord(cfg: Config) returns (r: Run, k: nat)
    requires cfg.maxConnections >= 1
    ensures IsRun(cfg, r) && k + 1 == |r.events| && r.events[k] == Deregister(0, [])
    ensures Owns(r.states[k], 1, "id") && 1 in r.states[k].conns && r.states[k].conns[1].open
    ensures "id" !in Last(r).registry && 1 in Last(r).conns && Lingers(Last(r).conns[1], NEW_IP, "id", "net")
  {
    var swept := SweptAway(cfg);
    var there := Comes(cfg, swept, 1, NEW_IP, "id", "net");
    var reg := Last(there).registry;
    assert Targets(reg - {"id"}, "id", "net", []) == {};
    r, k := Ends(cfg, there, 0, "id", "net", []);
  }

  /** Or connection 1 registers the id on another network, and connection 2 is on the first: */
  lemma OnTwoNetworks(cfg: Config) returns (r: Run)
    requires cfg.maxConnections >= 2
    ensures IsRun(cfg, r) && 0 in Last(r).conns && Lingers(Last(r).conns[0], OLD_IP, "id", "net")
    ensures Last(r).registry == map["id" := Newcomer("id", "other", 1), "x" := Newcomer("x", "net", 2)]
  {
    var swept := SweptAway(cfg);
    var second := Comes(cfg, swept, 1, NEW_IP, "id", "other");
    assert |Last(second).registry| == 1;
    r := Comes(cfg, second, 2, THIRD_IP, "x", "net");
  }

  /** the teardown of connection 0 takes a record of the one and tells the other. */
  lemma TeardownCrossesNetworks(cfg: Config) returns (r: Run, k: nat)
    requires cfg.maxConnections >= 2
    ensures IsRun(cfg, r) && k + 1 == |r.events| && r.events[k] == Deregister(0, ["x"])
    ensures r.states[k].registry == map["id" := Newcomer("id", "other", 1), "x" := Newcomer("x", "net", 2)]
    ensures Last(r).registry == map["x" := Newcomer("x", "net", 2)]
    ensures 0 in Last(r).conns && Last(r).conns[0].todo == [Send(2, PeerDisconnected("id"), Some("x"))]
  {
    var there := OnTwoNetworks(cfg);
    var left := map["x" := Newcomer("x", "net", 2)];
    assert Last(there).registry - {"id"} == left && Targets(left, "id", "net", []) == {"x"};
    r, k := Ends(cfg, there, 0, "id", "net", ["x"]);
  }
}
