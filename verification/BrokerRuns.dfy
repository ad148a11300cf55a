/** Whole runs of the relay: any interleaving of its steps from start-up. */
module BrokerRuns {
  import opened Net
  import opened Wire
  import opened Limits
  import opened Broker
  import opened BrokerInvariant
  import opened BrokerSweep

  datatype Run = Run(states: seq<State>, events: seq<Event>)

  ghost predicate IsRun(cfg: Config, r: Run) {
    && |r.states| == |r.events| + 1 && r.states[0] == Init()
    && forall i {:trigger StepAt(cfg, r, i)} | 0 <= i < |r.events| :: StepAt(cfg, r, i)
  }

  ghost predicate StepAt(cfg: Config, r: Run, i: nat)
    requires |r.states| == |r.events| + 1 && i < |r.events|
  {
    Enabled(cfg, r.states[i], r.events[i]) && r.states[i + 1] == Step(cfg, r.states[i], r.events[i])
  }

  lemma {:induction false} RunInv(cfg: Config, r: Run, i: nat)
    requires IsRun(cfg, r) && i < |r.states|
    ensures Inv(cfg, r.states[i])
  {
    if i == 0 {
      InitInv(cfg);
    } else {
      RunInv(cfg, r, i - 1);
      assert StepAt(cfg, r, i - 1);
      StepInv(cfg, r.states[i - 1], r.events[i - 1]);
    }
  }

  /** In every reachable state the counter is the registry's size, within capacity, and no outbound
      queue is over its bound. */
  lemma CounterIsRegistrySize(cfg: Config, r: Run, i: nat)
    requires IsRun(cfg, r) && i < |r.states|
    ensures r.states[i].connected == |r.states[i].registry| <= cfg.maxConnections
    ensures forall c | c in r.states[i].conns :: |r.states[i].conns[c].queue| <= cfg.queueCapacity
  {
    RunInv(cfg, r, i);
    forall c | c in r.states[i].conns
      ensures |r.states[i].conns[c].queue| <= cfg.queueCapacity
    {
      assert ConnOk(cfg, r.states[i].now, r.states[i].conns, r.states[i].conns[c]);
    }
  }

  /** A step that lowers the counter lowers it by what leaves the registry: it never wraps. */
  lemma CounterNeverUnderflows(cfg: Config, r: Run, i: nat)
    requires IsRun(cfg, r) && i < |r.events|
    ensures r.events[i].Deregister? && r.states[i + 1].connected != r.states[i].connected ==>
              r.states[i + 1].connected == r.states[i].connected - 1
    ensures r.events[i].Sweep? ==> r.states[i + 1].connected <= r.states[i].connected
  {
    var s, e := r.states[i], r.events[i];
    RunInv(cfg, r, i);
    assert StepAt(cfg, r, i);
    if e.Sweep? {
      SweepKeeps(s.conns, s.registry, s.connected, e.victims);
    } else if e.Deregister? && Departing(s, e.c).Some? {
      FewerRecords(s.conns, s.registry, Departing(s, e.c).value);
    }
  }

  /** Slots are conserved over every run: a source's count is the number of its connections holding
      one, within the cap, and there is no entry for a source with none. */
  lemma SlotsAreConserved(cfg: Config, r: Run, i: nat, key: IpKey)
    requires IsRun(cfg, r) && i < |r.states|
    ensures cfg.maxConnsPerIp > 0 ==>
              var live := Count(r.states[i].conns, LiveFrom(key));
              && live <= cfg.maxConnsPerIp && (key in r.states[i].connCount <==> live > 0)
              && (live > 0 ==> r.states[i].connCount[key] == live)
    ensures cfg.maxRegsPerIp > 0 ==>
              var held := RegSlots(r.states[i].conns, key);
              && held <= cfg.maxRegsPerIp && (key in r.states[i].regCount <==> held > 0)
              && (held > 0 ==> r.states[i].regCount[key] == held)
  {
    RunInv(cfg, r, i);
    var s := r.states[i];
    assert SlotsOkFor(cfg, s.conns, s.connCount, s.regCount, key);
  }

  /** No slot leaks: once every connection has ended, both count maps are empty. */
  lemma NoSlotLeaks(cfg: Config, r: Run, i: nat)
    requires IsRun(cfg, r) && i < |r.states|
    requires forall c | c in r.states[i].conns :: r.states[i].conns[c].phase.Gone?
    ensures r.states[i].connCount == map[] && r.states[i].regCount == map[]
  {
    RunInv(cfg, r, i);
    var s := r.states[i];
    forall k: IpKey
      ensures k !in s.connCount && k !in s.regCount
    {
      assert SlotsOkFor(cfg, s.conns, s.connCount, s.regCount, k);
      forall c | c in s.conns
        ensures !s.conns[c].holdsReg
      {
        assert ConnOk(cfg, s.now, s.conns, s.conns[c]);
      }
      assert Picked(s.conns, LiveFrom(k)) == {};
      assert Picked(s.conns, SettledFrom(k)) == {} && Picked(s.conns, InFlightFrom(k)) == {};
    }
  }

  // ---- The fate of a record ----

  /** The step takes `id` out of the registry: a teardown of a connection whose session names it, or
      a sweep that found it closed or silent. */
  ghost predicate RemovedBy(cfg: Config, s: State, e: Event, id: PeerId)
    requires ChansKnown(s) && Enabled(cfg, s, e) && id in s.registry
  {
    || (e.Deregister? && s.conns[e.c].session.peer == Some(id))
    || (e.Sweep? && DeadOrStale(cfg, s, e.at, id))
  }

  /** The step enters a registration of `id`. */
  ghost predicate EnteredBy(cfg: Config, s: State, e: Event, id: PeerId)
    requires ChansKnown(s) && Enabled(cfg, s, e)
  {
    e.Commit? && s.conns[e.c].phase.peerId == id && Refusal(cfg, s, e.c).None?
  }

  lemma OtherStepsKeepRegistry(cfg: Config, s: State, e: Event)
    requires Enabled(cfg, s, e) && !e.Commit? && !e.Deregister? && !e.Sweep?
    ensures Step(cfg, s, e).registry == s.registry
  {
    if e.Act? {
      assert ActNow(cfg, s, e.c, e.told).registry == s.registry;
    } else if e.Reserve? {
      assert ReserveStep(cfg, s, e.c, e.rateOk).registry == s.registry;
    }
  }

  lemma EntryIsOwn(cfg: Config, s: State, c: ConnId, told: seq<PeerId>)
    requires Enabled(cfg, s, Commit(c, told)) && Refusal(cfg, s, c).None?
    ensures var reg := Step(cfg, s, Commit(c, told)).registry;
            s.conns[c].phase.peerId in reg && reg[s.conns[c].phase.peerId].chan == c
  {
  }

  lemma CommitFate(cfg: Config, s: State, c: ConnId, told: seq<PeerId>, id: PeerId)
    requires Enabled(cfg, s, Commit(c, told))
    ensures Fate(cfg, s, Commit(c, told), id)
  {
  }

  lemma DeregisterFate(cfg: Config, s: State, c: ConnId, told: seq<PeerId>, id: PeerId)
    requires Enabled(cfg, s, Deregister(c, told))
    requires s.conns[c].session.peer.Some? <==> s.conns[c].session.network.Some?
    ensures Fate(cfg, s, Deregister(c, told), id)
  {
  }

  /** A record leaves exactly by such a removal, changes only when its channel is closed and the id is
      registered again, and appears exactly by a registration. */
  ghost predicate Fate(cfg: Config, s: State, e: Event, id: PeerId)
    requires Enabled(cfg, s, e)
  {
    var s' := Step(cfg, s, e);
    if id in s.registry then
      && (id !in s'.registry <==> RemovedBy(cfg, s, e, id))
      && (id in s'.registry && s'.registry[id] != s.registry[id] ==> EnteredBy(cfg, s, e, id) && !IsOpen(s, id))
    else id in s'.registry <==> EnteredBy(cfg, s, e, id)
  }

  lemma RecordFate(cfg: Config, s: State, e: Event, id: PeerId)
    requires Inv(cfg, s) && Enabled(cfg, s, e)
    ensures Fate(cfg, s, e, id)
  {
    if e.Sweep? {
      SweepIsExact(cfg, s, e.at, e.victims);
    } else if e.Deregister? {
      assert ConnOk(cfg, s.now, s.conns, s.conns[e.c]);
      DeregisterFate(cfg, s, e.c, e.told, id);
    } else if e.Commit? {
      CommitFate(cfg, s, e.c, e.told, id);
    } else {
      OtherStepsKeepRegistry(cfg, s, e);
    }
  }

  /** An open record is never replaced: while an id stays registered with its channel open, the
      record, and so the channel behind the id, is the same one. */
  lemma {:induction false} OpenRecordIsKept(cfg: Config, r: Run, i: nat, j: nat, id: PeerId)
    requires IsRun(cfg, r) && i <= j < |r.states|
    requires forall k | i <= k < j :: OpenAt(r, k, id)
    requires id in r.states[i].registry && id in r.states[j].registry
    ensures r.states[j].registry[id] == r.states[i].registry[id]
    decreases j
  {
    if i < j {
      assert OpenAt(r, j - 1, id);
      OpenRecordIsKept(cfg, r, i, j - 1, id);
      RunInv(cfg, r, j - 1);
      assert StepAt(cfg, r, j - 1);
      RecordFate(cfg, r.states[j - 1], r.events[j - 1], id);
    }
  }

  ghost predicate OpenAt(r: Run, k: nat, id: PeerId)
    requires k < |r.states|
  {
    && id in r.states[k].registry && r.states[k].registry[id].chan in r.states[k].conns
    && IsOpen(r.states[k], id)
  }

  /** A connection that is to the registry what it was: same source, session, slot and last frame. */
  ghost predicate SameStanding(a: Conn, b: Conn) {
    && a.ip == b.ip && a.verified == b.verified && a.session == b.session && a.holdsReg == b.holdsReg
    && a.activity == b.activity
  }

  /** The reservation behind a registration that waits for the registry, however long it waits. */
  lemma {:induction false} ReservedSince(cfg: Config, r: Run, j: nat, c: ConnId) returns (i: nat)
    requires IsRun(cfg, r) && j < |r.states| && c in r.states[j].conns && r.states[j].conns[c].phase.Reserved?
    ensures i < j && r.events[i] == Reserve(c, true) && c in r.states[i].conns
    ensures !InFlight(r.states[i].conns[c]) && SameStanding(r.states[i].conns[c], r.states[j].conns[c])
    ensures var x, p := r.states[i].conns[c], r.states[j].conns[c].phase;
            x.phase == Pending(DoRegister(p.peerId, p.networkId, p.version, p.listenAddrs))
    ensures r.states[j].conns[c].todo == [] && forall l | i < l < j :: !OwnTask(r.events[l], c)
  {
    var s, e := r.states[j - 1], r.events[j - 1];
    assert StepAt(cfg, r, j - 1);
    if OwnTask(e, c) {
      OwnStep(cfg, s, e, c);
      if e.Reserve? {
        i := j - 1;
        ReservedFrom(cfg, s, c, e.rateOk);
      } else {
        i := ReservedSince(cfg, r, j - 1, c);
      }
    } else {
      OthersKeepTask(cfg, s, e, c);
      i := ReservedSince(cfg, r, j - 1, c);
    }
  }

  /** The step is taken by connection `c`'s own task; its writer and its channel's end are not its task. */
  ghost predicate OwnTask(e: Event, c: ConnId) {
    Owner(e) == Some(c) && !e.Drain? && !e.Shut?
  }

  /** A connection as others leave it: only its queue and its channel may have changed. */
  ghost predicate AsBefore(x: Conn, y: Conn) {
    y == x.(queue := y.queue, open := y.open)
  }

  lemma OthersKeepTask(cfg: Config, s: State, e: Event, c: ConnId)
    requires Enabled(cfg, s, e) && !OwnTask(e, c)
    ensures c in Step(cfg, s, e).conns <==> c in s.conns
    ensures c in s.conns ==> AsBefore(s.conns[c], Step(cfg, s, e).conns[c])
  {
    if Owner(e) != Some(c) {
      OthersOnlySend(cfg, s, e, c);
    }
  }

  lemma ReservedFrom(cfg: Config, s: State, c: ConnId, rateOk: bool)
    requires Enabled(cfg, s, Reserve(c, rateOk)) && ReserveStep(cfg, s, c, rateOk).conns[c].phase.Reserved?
    ensures rateOk && ReserveStep(cfg, s, c, rateOk).conns[c].todo == []
    ensures var p := ReserveStep(cfg, s, c, rateOk).conns[c].phase;
            s.conns[c].phase == Pending(DoRegister(p.peerId, p.networkId, p.version, p.listenAddrs))
  {
  }

  /** The refusal behind a registration that is yet to give its slot back. */
  lemma {:induction false} DeclinedSince(cfg: Config, r: Run, k: nat, c: ConnId) returns (j: nat)
    requires IsRun(cfg, r) && k < |r.states| && c in r.states[k].conns && r.states[k].conns[c].phase.Declined?
    ensures j < k && r.events[j].Commit? && r.events[j].c == c && StepAt(cfg, r, j)
    ensures c in r.states[j].conns && r.states[j].conns[c].phase.Reserved? && Refusal(cfg, r.states[j], c).Some?
    ensures SameStanding(r.states[j].conns[c], r.states[k].conns[c])
  {
    var s, e := r.states[k - 1], r.events[k - 1];
    assert StepAt(cfg, r, k - 1);
    if Owner(e) == Some(c) {
      OwnStep(cfg, s, e, c);
    } else {
      OthersOnlySend(cfg, s, e, c);
    }
    if e.Commit? && e.c == c {
      j := k - 1;
    } else {
      j := DeclinedSince(cfg, r, k - 1, c);
    }
  }

  /** A registration refused at the registry leaves no trace, whatever else runs between its reservation,
      its refusal and its end. The refusal changes nothing but the connection itself. Once its replies are
      sent the connection is to the registry what it was before it reserved, and its source's slots are
      one fewer. */
  lemma RefusedRegistrationLeavesNoTrace(cfg: Config, r: Run, k: nat, c: ConnId) returns (i: nat, j: nat)
    requires IsRun(cfg, r) && k < |r.events| && r.events[k] == Settle(c)
    requires c in r.states[k].conns && r.states[k].conns[c].phase.Declined?
    ensures i < j < k && r.events[i] == Reserve(c, true) && r.events[j].Commit? && r.events[j].c == c
    ensures c in r.states[i].conns && c in r.states[j + 1].conns && c in r.states[k + 1].conns
    ensures var s, s' := r.states[j], r.states[j + 1];
            s' == s.(conns := s.conns[c := s'.conns[c]])
    ensures var s, s', v := r.states[k], r.states[k + 1], r.states[k + 1].conns[c];
            && s' == s.(conns := s.conns[c := v], regCount := s'.regCount)
            && SameStanding(r.states[i].conns[c], v) && HeldBy(v) == HeldBy(r.states[i].conns[c]) && v.phase.Closing?
            && forall key :: RegSlots(s'.conns, key) == RegSlots(s.conns, key) - if key == KeyOf(v.ip) then 1 else 0
  {
    j := DeclinedSince(cfg, r, k, c);
    i := ReservedSince(cfg, r, j, c);
    RefusedStep(cfg, r.states[j], c, r.events[j].told);
    assert StepAt(cfg, r, k);
    var s, s' := r.states[k], r.states[k + 1];
    forall key
      ensures RegSlots(s'.conns, key) == RegSlots(s.conns, key) - if key == KeyOf(s.conns[c].ip) then 1 else 0
    {
      RegSlotsUpdate(s.conns, c, s'.conns[c], key);
    }
  }

  lemma RefusedStep(cfg: Config, s: State, c: ConnId, told: seq<PeerId>)
    requires Enabled(cfg, s, Commit(c, told)) && Refusal(cfg, s, c).Some?
    ensures var s' := Step(cfg, s, Commit(c, told));
            c in s'.conns && s' == s.(conns := s.conns[c := s'.conns[c]])
  {
    assert Step(cfg, s, Commit(c, told)) == CommitStep(cfg, s, c, told);
  }
}
