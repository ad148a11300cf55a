/** No task is ever stuck, and from every state of every run the relay can be brought to an end that
    leaves nothing behind. */
module BrokerProgress {
  import opened Net
  import opened Wire
  import opened Broker
  import opened BrokerInvariant
  import opened BrokerRuns
  import opened BrokerScenarios
  import BrokerQueues
  import BrokerSweep

  // ---- Each step brings a task nearer its end ----

  /** How many steps beside its sends a task can still take without another frame. */
  function Rank(p: Phase): nat {
    match p
    case Gone => 0
    case Draining => 1
    case Closing => 2
    case Idle => 3
    case Registered(_, _) => 4
    case Declined => 4
    case Reserved(_, _, _, _) => 5
    case Pending(_) => 6
  }

  /** Every step of a task but taking a frame is either a send or a turn to a lower rank. */
  lemma TurnsGoDown(cfg: Config, s: State, e: Event, c: ConnId)
    requires Enabled(cfg, s, e) && OwnTask(e, c) && !e.Open? && !e.Arrive?
    ensures c in Step(cfg, s, e).conns
    ensures var x, y := s.conns[c], Step(cfg, s, e).conns[c];
            if e.Deliver? then y.phase == x.phase && |y.todo| == |x.todo| - 1 else Rank(y.phase) < Rank(x.phase)
  {
    OwnStep(cfg, s, e, c);
    if e.Deliver? {
      assert DeliverStep(cfg, s, c).conns[c].todo == s.conns[c].todo[1..];
    }
  }

  /** The steps of connection `c`'s task from `i` to `k` that are not sends. */
  ghost function Turns(r: Run, c: ConnId, i: nat, k: nat): nat
    requires i <= k <= |r.events|
  {
    if i == k then 0
    else Turns(r, c, i, k - 1) + if OwnTask(r.events[k - 1], c) && !r.events[k - 1].Deliver? then 1 else 0
  }

  /** Between two frames a task takes at most six steps beside its sends, whatever runs in between. */
  lemma {:induction false} TurnsAreFew(cfg: Config, r: Run, c: ConnId, i: nat, k: nat)
    requires IsRun(cfg, r) && i <= k < |r.states| && c in r.states[i].conns
    requires forall l | i <= l < k :: !(r.events[l].Arrive? && r.events[l].c == c)
    ensures c in r.states[k].conns
    ensures Turns(r, c, i, k) + Rank(r.states[k].conns[c].phase) <= Rank(r.states[i].conns[c].phase) <= 6
    decreases k
  {
    if i < k {
      TurnsAreFew(cfg, r, c, i, k - 1);
      var s, e := r.states[k - 1], r.events[k - 1];
      assert StepAt(cfg, r, k - 1);
      if OwnTask(e, c) {
        TurnsGoDown(cfg, s, e, c);
      } else {
        OthersKeepTask(cfg, s, e, c);
      }
    }
  }

  // ---- No task is stuck ----

  lemma {:induction false} ListOf(ids: set<PeerId>) returns (told: seq<PeerId>)
    ensures Lists(told, ids)
    decreases |ids|
  {
    if ids == {} {
      told := [];
    } else {
      var id :| id in ids;
      var rest := ListOf(ids - {id});
      told := [id] + rest;
      assert multiset(ids) == multiset(ids - {id}) + multiset{id};
    }
  }

  /** The step brings connection `c` nearer its end. */
  ghost predicate Advances(cfg: Config, s: State, e: Event, c: ConnId)
    requires c in s.conns
  {
    && Enabled(cfg, s, e) && !e.Open? && !e.Arrive?
    && (OwnTask(e, c) || (e == Shut(c) && s.conns[c].open && s.conns[c].phase.Draining? && s.conns[c].todo == []))
  }

  /** What a task with nothing to send can do next. */
  lemma NextTurn(cfg: Config, s: State, c: ConnId) returns (e: Event)
    requires ChansKnown(s) && Ready(s, c) && !s.conns[c].phase.Gone?
    ensures Advances(cfg, s, e, c)
  {
    match s.conns[c].phase
    case Idle => e := Leave(c, false);
    case Pending(a) =>
      if a.DoRegister? {
        e := Reserve(c, true);
      } else if a.FanOut? && s.conns[c].session.network.Some? {
        var told := ListOf(Targets(s.registry, a.from, s.conns[c].session.network.value, a.exclude));
        e := Act(c, told);
      } else {
        e := Act(c, []);
      }
    case Reserved(id, network, _, _) =>
      var told := ListOf(Targets(Entered(s, c), id, network, []));
      e := Commit(c, told);
    case Registered(_, _) => e := Settle(c);
    case Declined => e := Settle(c);
    case Closing => e := LeavesTheRegistry(cfg, s, c);
    case Draining => e := if s.conns[c].open then Shut(c) else Finish(c);
  }

  lemma LeavesTheRegistry(cfg: Config, s: State, c: ConnId) returns (e: Event)
    requires ChansKnown(s) && Ready(s, c) && s.conns[c].phase.Closing?
    ensures Advances(cfg, s, e, c)
  {
    if Departing(s, c).Some? {
      var id := Departing(s, c).value;
      var told := ListOf(Targets(s.registry - {id}, id, s.conns[c].session.network.value, []));
      e := Deregister(c, told);
    } else {
      e := Deregister(c, []);
    }
  }

  /** In every state of every run, whatever the others hold, every connection that has not ended has an
      enabled step that brings it nearer its end, without waiting for a frame. */
  lemma NeverStuck(cfg: Config, r: Run, i: nat, c: ConnId) returns (e: Event)
    requires IsRun(cfg, r) && i < |r.states| && c in r.states[i].conns && !r.states[i].conns[c].phase.Gone?
    ensures Advances(cfg, r.states[i], e, c)
  {
    var s := r.states[i];
    var upTo := UpTo(cfg, r, i);
    KnownNow(cfg, upTo);
    assert Last(upTo) == s;
    assert ConnOk(cfg, s.now, s.conns, s.conns[c]);
    if s.conns[c].todo == [] {
      e := NextTurn(cfg, s, c);
    } else {
      e := Deliver(c);
    }
  }

  // ---- Shutting down ----

  /** `r'` goes on from `r` with no new connection, no frame and no time passing. */
  ghost predicate Winds(r: Run, r': Run) {
    && r.states <= r'.states && r.events <= r'.events
    && forall l | |r.events| <= l < |r'.events| ::
         !r'.events[l].Open? && !r'.events[l].Arrive? && !r'.events[l].Tick?
  }

  /** The same connections, all but `c` where they were. */
  ghost predicate OnlyOf(s: State, t: State, c: ConnId) {
    s.conns.Keys == t.conns.Keys && forall d | d in s.conns && d != c :: t.conns[d].phase == s.conns[d].phase
  }

  lemma AdvanceIsOwn(cfg: Config, s: State, e: Event, c: ConnId)
    requires c in s.conns && Advances(cfg, s, e, c)
    ensures OnlyOf(s, Step(cfg, s, e), c)
    ensures var x, y := s.conns[c], Step(cfg, s, e).conns[c];
            || Rank(y.phase) < Rank(x.phase) || (y.phase == x.phase && |y.todo| < |x.todo|)
            || (y.phase == x.phase && y.todo == x.todo && x.open && !y.open)
  {
    forall d | d != c
      ensures d in Step(cfg, s, e).conns <==> d in s.conns
      ensures d in s.conns ==> Step(cfg, s, e).conns[d].phase == s.conns[d].phase
    {
      OthersOnlySend(cfg, s, e, d);
    }
    if OwnTask(e, c) {
      TurnsGoDown(cfg, s, e, c);
    }
  }

  /** One connection ends, the others staying where they are. */
  lemma {:induction false} EndsOne(cfg: Config, r: Run, c: ConnId) returns (r': Run)
    requires IsRun(cfg, r) && c in Last(r).conns
    ensures IsRun(cfg, r') && Winds(r, r') && OnlyOf(Last(r), Last(r'), c) && Last(r').conns[c].phase.Gone?
    decreases Rank(Last(r).conns[c].phase), |Last(r).conns[c].todo|, Last(r).conns[c].open
  {
    if Last(r).conns[c].phase.Gone? {
      r' := r;
    } else {
      var e := NeverStuck(cfg, r, |r.states| - 1, c);
      AdvanceIsOwn(cfg, Last(r), e, c);
      var next := GoOn(cfg, r, e);
      r' := EndsOne(cfg, next, c);
    }
  }

  ghost function Living(s: State): set<ConnId> {
    set c | c in s.conns && !s.conns[c].phase.Gone?
  }

  lemma {:induction false} EndsAll(cfg: Config, r: Run) returns (r': Run)
    requires IsRun(cfg, r)
    ensures IsRun(cfg, r') && Winds(r, r') && Living(Last(r')) == {}
    decreases |Living(Last(r))|
  {
    if Living(Last(r)) == {} {
      r' := r;
    } else {
      var c :| c in Living(Last(r));
      var next := EndsOne(cfg, r, c);
      assert Living(Last(next)) == Living(Last(r)) - {c};
      r' := EndsAll(cfg, next);
    }
  }

  /** The notices of a sweep are all sent. */
  lemma {:induction false} SendsNotices(cfg: Config, r: Run) returns (r': Run)
    requires IsRun(cfg, r) && Living(Last(r)) == {}
    ensures IsRun(cfg, r') && Winds(r, r') && Last(r').sweeping == [] && Living(Last(r')) == {}
    ensures Last(r').registry == Last(r).registry
    decreases |Last(r).sweeping|
  {
    if Last(r).sweeping == [] {
      r' := r;
    } else {
      KnownNow(cfg, r);
      var next := GoOn(cfg, r, SweepDeliver);
      NoticeKeeps(cfg, Last(r));
      r' := SendsNotices(cfg, next);
    }
  }

  lemma NoticeKeeps(cfg: Config, s: State)
    requires Enabled(cfg, s, SweepDeliver) && Living(s) == {}
    ensures var t := Step(cfg, s, SweepDeliver);
            Living(t) == {} && t.registry == s.registry && |t.sweeping| == |s.sweeping| - 1
  {
    forall c | c in Step(cfg, s, SweepDeliver).conns
      ensures c !in Living(Step(cfg, s, SweepDeliver))
    {
      OthersOnlySend(cfg, s, SweepDeliver, c);
      assert c !in Living(s);
    }
  }

  /** Any set of records can be swept, one after the other. */
  lemma {:induction false} OrderOf(reg: Registry, ids: set<PeerId>) returns (victims: seq<Victim>)
    requires ids <= reg.Keys
    ensures SweepOrder(reg, victims) && multiset(Ids(victims)) == multiset(ids)
    decreases |ids|
  {
    if ids == {} {
      victims := [];
      assert Ids(victims) == [];
    } else {
      var id :| id in ids;
      var told := ListOf(Targets(reg - {id}, id, reg[id].network, []));
      var rest := OrderOf(reg - {id}, ids - {id});
      victims := [Victim(id, told)] + rest;
      assert victims[1..] == rest && Ids(victims) == [id] + Ids(rest);
      assert multiset(ids) == multiset(ids - {id}) + multiset{id};
    }
  }

  /** A sweep after all connections have ended leaves no record. */
  lemma SweptAfterTheEnd(cfg: Config, r: Run, i: nat)
    requires IsRun(cfg, r) && i < |r.events| && r.events[i].Sweep? && Living(r.states[i]) == {}
    ensures r.states[i + 1].registry == map[] && r.states[i + 1].connected == 0
    ensures Living(r.states[i + 1]) == {}
  {
    var s := r.states[i];
    RunInv(cfg, r, i);
    assert StepAt(cfg, r, i);
    BrokerSweep.SweepIsExact(cfg, s, r.events[i].at, r.events[i].victims);
    forall id | id in s.registry
      ensures !BrokerSweep.Lively(cfg, s, r.events[i].at, id)
    {
      var c := s.registry[id].chan;
      assert c !in Living(s);
      assert ConnOk(cfg, s.now, s.conns, s.conns[c]);
    }
  }

  /** Nothing is left: every connection ended, no record, no slot, nothing queued or to be sent. */
  ghost predicate AllOver(s: State) {
    && s.registry == map[] && s.connected == 0 && s.connCount == map[] && s.regCount == map[] && s.sweeping == []
    && forall c | c in s.conns :: s.conns[c].phase.Gone? && s.conns[c].queue == [] && s.conns[c].todo == []
  }

  /** Once all connections have ended, no record is left and no notice is to be sent, nothing is. */
  lemma NothingElseIsLeft(cfg: Config, r: Run, i: nat)
    requires IsRun(cfg, r) && i < |r.states| && Living(r.states[i]) == {}
    requires r.states[i].registry == map[] && r.states[i].sweeping == []
    ensures AllOver(r.states[i])
  {
    var s := r.states[i];
    RunInv(cfg, r, i);
    forall c | c in s.conns
      ensures s.conns[c].phase.Gone? && s.conns[c].queue == [] && s.conns[c].todo == []
    {
      assert c !in Living(s) && ConnOk(cfg, s.now, s.conns, s.conns[c]);
      BrokerQueues.ClosedHoldsNothing(cfg, r, i, i, c);
    }
    NoSlotLeaks(cfg, r, i);
  }

  /** From every state of every run, with no new connection, no frame and no time passing, the relay can
      come to an end that leaves nothing behind. */
  lemma CanAlwaysShutDown(cfg: Config, r: Run) returns (r': Run)
    requires IsRun(cfg, r)
    ensures IsRun(cfg, r') && Winds(r, r') && AllOver(Last(r'))
  {
    var ended := EndsAll(cfg, r);
    var told := SendsNotices(cfg, ended);
    KnownNow(cfg, told);
    var s := Last(told);
    var victims := OrderOf(s.registry, Victims(cfg, s, s.now));
    var swept := GoOn(cfg, told, Sweep(s.now, victims));
    SweptAfterTheEnd(cfg, swept, |told.events|);
    r' := SendsNotices(cfg, swept);
    NothingElseIsLeft(cfg, r', |r'.states| - 1);
  }
}
