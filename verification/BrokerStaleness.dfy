/** How long a registered peer can stay silent. */
module BrokerStaleness {
  import opened Net
  import opened Wire
  import opened Broker
  import opened BrokerInvariant
  import opened BrokerSweep
  import opened BrokerRuns
  import opened BrokerQueues
  import opened BrokerScenarios

  /** Sweeps are at most `gap` apart: the last one's scan is never further back. */
  ghost predicate PromptSweeps(r: Run, gap: nat) {
    forall i | 0 <= i < |r.states| :: r.states[i].now <= r.states[i].lastSweep + gap
  }

  /** A registration entered in the step is of a connection heard from within the deadline of the last
      sweep's scan. */
  ghost predicate TimelyEntry(cfg: Config, s: State, e: Event) {
    Enabled(cfg, s, e) && e.Commit? && Refusal(cfg, s, e.c).None? ==>
      Silence(s.lastSweep, s.conns[e.c].activity) <= cfg.deadline
  }

  ghost predicate TimelyEntries(cfg: Config, r: Run)
    requires |r.states| == |r.events| + 1
  {
    forall j {:trigger TimelyEntry(cfg, r.states[j], r.events[j])} | 0 <= j < |r.events| ::
      TimelyEntry(cfg, r.states[j], r.events[j])
  }

  /** No record had been silent longer than `bound` at the last sweep's scan. */
  ghost predicate Fresh(s: State, bound: nat) {
    forall id | id in s.registry :: FreshRecord(s, id, bound)
  }

  ghost predicate FreshRecord(s: State, id: PeerId, bound: nat)
    requires id in s.registry
  {
    s.registry[id].chan in s.conns && Silence(s.lastSweep, s.conns[s.registry[id].chan].activity) <= bound
  }

  /** A connection's activity stamp never goes back. */
  lemma ActivityMoves(cfg: Config, s: State, e: Event, c: ConnId)
    requires Inv(cfg, s) && Enabled(cfg, s, e) && c in s.conns
    ensures c in Step(cfg, s, e).conns && s.conns[c].activity <= Step(cfg, s, e).conns[c].activity
  {
    assert ConnOk(cfg, s.now, s.conns, s.conns[c]);
    if Owner(e) == Some(c) {
      OwnStep(cfg, s, e, c);
    } else {
      OthersOnlySend(cfg, s, e, c);
    }
  }

  lemma SweepMoves(cfg: Config, s: State, e: Event)
    requires Enabled(cfg, s, e) && !e.Sweep?
    ensures Step(cfg, s, e).lastSweep == s.lastSweep
  {
  }

  /** An entered record is as silent as its connection was. */
  lemma EntryStands(cfg: Config, s: State, e: Event)
    requires Enabled(cfg, s, e) && e.Commit? && Refusal(cfg, s, e.c).None?
    ensures var s', id := Step(cfg, s, e), s.conns[e.c].phase.peerId;
            && s'.lastSweep == s.lastSweep && id in s'.registry && s'.registry[id].chan == e.c && e.c in s'.conns
            && s'.conns[e.c].activity == s.conns[e.c].activity
  {
    EntryIsOwn(cfg, s, e.c, e.told);
    SweepMoves(cfg, s, e);
    OwnStep(cfg, s, e, e.c);
  }

  /** A step keeps the records fresh when what it enters is. */
  lemma FreshStep(cfg: Config, s: State, e: Event, id: PeerId)
    requires Inv(cfg, s) && Enabled(cfg, s, e) && Fresh(s, cfg.deadline) && TimelyEntry(cfg, s, e)
    requires id in Step(cfg, s, e).registry
    ensures FreshRecord(Step(cfg, s, e), id, cfg.deadline)
  {
    if e.Sweep? {
      SweepIsExact(cfg, s, e.at, e.victims);
    } else {
      RecordFate(cfg, s, e, id);
      SweepMoves(cfg, s, e);
      if EnteredBy(cfg, s, e, id) {
        EntryStands(cfg, s, e);
      } else {
        assert FreshRecord(s, id, cfg.deadline);
        ActivityMoves(cfg, s, e, s.registry[id].chan);
      }
    }
  }

  lemma EntryShows(cfg: Config, s: State, e: Event)
    requires Enabled(cfg, s, e) && Fresh(Step(cfg, s, e), cfg.deadline)
    ensures TimelyEntry(cfg, s, e)
  {
    if e.Commit? && Refusal(cfg, s, e.c).None? {
      EntryStands(cfg, s, e);
      assert FreshRecord(Step(cfg, s, e), s.conns[e.c].phase.peerId, cfg.deadline);
    }
  }

  lemma {:induction false} TimelyMeansFresh(cfg: Config, r: Run, i: nat)
    requires IsRun(cfg, r) && i < |r.states| && TimelyEntries(cfg, r)
    ensures Fresh(r.states[i], cfg.deadline)
  {
    if i > 0 {
      var s, e := r.states[i - 1], r.events[i - 1];
      TimelyMeansFresh(cfg, r, i - 1);
      RunInv(cfg, r, i - 1);
      assert StepAt(cfg, r, i - 1) && TimelyEntry(cfg, s, e);
      forall id | id in r.states[i].registry
        ensures FreshRecord(r.states[i], id, cfg.deadline)
      {
        FreshStep(cfg, s, e, id);
      }
    }
  }

  /** At every moment of a run each record had been heard from within the deadline of the last sweep's
      scan, exactly when each registration was when it was entered. */
  lemma AlwaysFreshExactlyWhen(cfg: Config, r: Run)
    requires IsRun(cfg, r)
    ensures (forall i | 0 <= i < |r.states| :: Fresh(r.states[i], cfg.deadline)) <==> TimelyEntries(cfg, r)
  {
    if TimelyEntries(cfg, r) {
      forall i | 0 <= i < |r.states|
        ensures Fresh(r.states[i], cfg.deadline)
      {
        TimelyMeansFresh(cfg, r, i);
      }
    }
    if forall i | 0 <= i < |r.states| :: Fresh(r.states[i], cfg.deadline) {
      forall j | 0 <= j < |r.events|
        ensures TimelyEntry(cfg, r.states[j], r.events[j])
      {
        assert StepAt(cfg, r, j);
        EntryShows(cfg, r.states[j], r.events[j]);
      }
    }
  }

  // ---- Who is swept ----

  /** The step stamps connection `c`'s liveness: it opens, or a frame comes in on it. */
  ghost predicate Hears(e: Event, c: ConnId) {
    (e.Open? && e.c == c) || (e.Arrive? && e.c == c) || e == Leave(c, true)
  }

  /** A connection's stamp is the time of its last frame, or of its opening. */
  lemma {:induction false} StampIsLastFrame(cfg: Config, r: Run, l: nat, c: ConnId) returns (g: nat)
    requires IsRun(cfg, r) && l < |r.states| && c in r.states[l].conns
    ensures g < l && Hears(r.events[g], c) && r.states[l].conns[c].activity == r.states[g].now
    ensures forall h | g < h < l :: !Hears(r.events[h], c)
  {
    assert StepAt(cfg, r, l - 1);
    var s, e := r.states[l - 1], r.events[l - 1];
    if Owner(e) == Some(c) {
      OwnStep(cfg, s, e, c);
    } else {
      OthersOnlySend(cfg, s, e, c);
    }
    if Hears(e, c) {
      g := l - 1;
    } else {
      g := StampIsLastFrame(cfg, r, l - 1, c);
    }
  }

  /** A sweep in any run keeps a record exactly when its channel is open and the last frame of its
      connection came no more than the deadline before the scan. */
  lemma SweepKeepsExactlyTheHeard(cfg: Config, r: Run, l: nat, id: PeerId) returns (g: nat)
    requires IsRun(cfg, r) && l < |r.events| && r.events[l].Sweep? && id in r.states[l].registry
    ensures var s, c := r.states[l], r.states[l].registry[id].chan;
            && c in s.conns && g < l && Hears(r.events[g], c) && (forall h | g < h < l :: !Hears(r.events[h], c))
            && (id in r.states[l + 1].registry <==>
                  s.conns[c].open && r.events[l].at <= r.states[g].now + cfg.deadline)
            && (id in r.states[l + 1].registry ==> r.states[l + 1].registry[id] == s.registry[id])
  {
    RunInv(cfg, r, l);
    assert StepAt(cfg, r, l);
    var s := r.states[l];
    assert PeerOk(s.conns, id, s.registry[id]);
    g := StampIsLastFrame(cfg, r, l, s.registry[id].chan);
    SweepIsExact(cfg, s, r.events[l].at, r.events[l].victims);
  }

  /** The step is a sweep whose scan comes more than the deadline after every frame of `c` so far. */
  ghost predicate MissedBy(cfg: Config, r: Run, l: nat, c: ConnId)
    requires l < |r.events| && |r.states| == |r.events| + 1
  {
    && r.events[l].Sweep?
    && forall g | 0 <= g < l && Hears(r.events[g], c) :: r.events[l].at > r.states[g].now + cfg.deadline
  }

  ghost predicate TornDown(r: Run, l: nat, id: PeerId)
    requires l < |r.events| && |r.states| == |r.events| + 1
  {
    var s, e := r.states[l], r.events[l];
    e.Deregister? && e.c in s.conns && s.conns[e.c].session.peer == Some(id)
  }

  /** A record whose channel stays open, whose connection is heard from within the deadline of every
      scan and whose id no session is torn down under stays registered as it is. */
  lemma {:induction false} HeardFromStays(cfg: Config, r: Run, i: nat, k: nat, id: PeerId)
    requires IsRun(cfg, r) && i <= k < |r.states| && id in r.states[i].registry
    requires forall l | i <= l < k :: OpenChannel(r.states[l], r.states[i].registry[id].chan)
    requires forall l | i <= l < k :: !MissedBy(cfg, r, l, r.states[i].registry[id].chan) && !TornDown(r, l, id)
    ensures id in r.states[k].registry && r.states[k].registry[id] == r.states[i].registry[id]
    decreases k
  {
    if i < k {
      HeardFromStays(cfg, r, i, k - 1, id);
      RunInv(cfg, r, k - 1);
      assert StepAt(cfg, r, k - 1) && OpenChannel(r.states[k - 1], r.states[i].registry[id].chan);
      assert !MissedBy(cfg, r, k - 1, r.states[i].registry[id].chan) && !TornDown(r, k - 1, id);
      if r.events[k - 1].Sweep? {
        KeptByThisSweep(cfg, r, k - 1, id);
      } else {
        RecordFate(cfg, r.states[k - 1], r.events[k - 1], id);
      }
    }
  }

  lemma KeptByThisSweep(cfg: Config, r: Run, l: nat, id: PeerId)
    requires IsRun(cfg, r) && l < |r.events| && r.events[l].Sweep? && OpenAt(r, l, id)
    requires !MissedBy(cfg, r, l, r.states[l].registry[id].chan)
    ensures id in r.states[l + 1].registry && r.states[l + 1].registry[id] == r.states[l].registry[id]
  {
    var c := r.states[l].registry[id].chan;
    var g := SweepKeepsExactlyTheHeard(cfg, r, l, id);
    var h :| 0 <= h < l && Hears(r.events[h], c) && r.events[l].at <= r.states[h].now + cfg.deadline;
    TimeMoves(cfg, r, h, g);
  }

  lemma {:induction false} TimeMoves(cfg: Config, r: Run, h: nat, g: nat)
    requires IsRun(cfg, r) && h < |r.states| && g < |r.states|
    ensures h <= g ==> r.states[h].now <= r.states[g].now
    decreases g
  {
    if h < g {
      TimeMoves(cfg, r, h, g - 1);
      assert StepAt(cfg, r, g - 1);
      TimeStep(cfg, r.states[g - 1], r.events[g - 1]);
    }
  }

  lemma TimeStep(cfg: Config, s: State, e: Event)
    requires Enabled(cfg, s, e)
    ensures s.now <= Step(cfg, s, e).now
  {
    if e.Commit? {
      assert CommitNow(cfg, s, e.c, e.told).now == s.now;
    } else if e.Act? {
      assert ActNow(cfg, s, e.c, e.told).now == s.now;
    } else if e.Reserve? {
      assert ReserveStep(cfg, s, e.c, e.rateOk).now == s.now;
    }
  }

  // ---- The bound ----

  /** No record has been silent longer than `bound`. */
  ghost predicate Bounded(s: State, bound: nat) {
    forall id | id in s.registry ::
      s.registry[id].chan in s.conns && s.now <= s.conns[s.registry[id].chan].activity + bound
  }

  /** Then, with sweeps at most `gap` apart, no registered record is ever silent longer than the
      deadline and the gap together. */
  lemma SilenceIsBounded(cfg: Config, r: Run, i: nat, gap: nat)
    requires IsRun(cfg, r) && i < |r.states| && PromptSweeps(r, gap) && TimelyEntries(cfg, r)
    ensures Bounded(r.states[i], cfg.deadline + gap)
  {
    TimelyMeansFresh(cfg, r, i);
    FreshMeansBounded(cfg, r.states[i], gap, r.states[i].now);
  }

  lemma FreshMeansBounded(cfg: Config, s: State, gap: nat, t: nat)
    requires Fresh(s, cfg.deadline) && t <= s.lastSweep + gap
    ensures Bounded(s.(now := t), cfg.deadline + gap)
  {
    forall id | id in s.registry
      ensures s.registry[id].chan in s.conns && t <= s.conns[s.registry[id].chan].activity + cfg.deadline + gap
    {
      assert FreshRecord(s, id, cfg.deadline);
    }
  }

  /** That condition is exact: the bound holds in every state of a run for as long as the next sweep may
      take, if and only if every entry was in time. */
  lemma BoundHoldsExactlyWhen(cfg: Config, r: Run, gap: nat)
    requires IsRun(cfg, r) && PromptSweeps(r, gap)
    ensures TimelyEntries(cfg, r) <==>
            forall i: nat, t: nat | i < |r.states| && t <= r.states[i].lastSweep + gap ::
              Bounded(r.states[i].(now := t), cfg.deadline + gap)
  {
    if TimelyEntries(cfg, r) {
      forall i: nat, t: nat | i < |r.states| && t <= r.states[i].lastSweep + gap
        ensures Bounded(r.states[i].(now := t), cfg.deadline + gap)
      {
        TimelyMeansFresh(cfg, r, i);
        FreshMeansBounded(cfg, r.states[i], gap, t);
      }
    }
    if forall i: nat, t: nat | i < |r.states| && t <= r.states[i].lastSweep + gap ::
         Bounded(r.states[i].(now := t), cfg.deadline + gap) {
      forall i | 0 <= i < |r.states|
        ensures Fresh(r.states[i], cfg.deadline)
      {
        assert Bounded(r.states[i].(now := r.states[i].lastSweep + gap), cfg.deadline + gap);
      }
      AlwaysFreshExactlyWhen(cfg, r);
    }
  }

  /** The run up to state `n`, and then time until the next sweep is due. */
  lemma WaitsAfter(cfg: Config, r: Run, n: nat, gap: nat) returns (r': Run)
    requires IsRun(cfg, r) && PromptSweeps(r, gap) && n < |r.states|
    ensures IsRun(cfg, r') && PromptSweeps(r', gap) && |r'.events| == n + 1 && r'.events[n].Tick?
    ensures r'.states[..n + 1] == r.states[..n + 1]
    ensures Last(r') == r.states[n].(now := r.states[n].lastSweep + gap)
  {
    var upTo := UpTo(cfg, r, n);
    KnownNow(cfg, upTo);
    assert Last(upTo) == r.states[n];
    r' := GoOn(cfg, upTo, Tick(r.states[n].lastSweep + gap));
  }

  lemma LateEntryShows(cfg: Config, r: Run, j: nat, gap: nat)
    requires IsRun(cfg, r) && j < |r.events| && !TimelyEntry(cfg, r.states[j], r.events[j])
    ensures !Bounded(r.states[j + 1].(now := r.states[j + 1].lastSweep + gap), cfg.deadline + gap)
  {
    var s, e := r.states[j], r.events[j];
    assert StepAt(cfg, r, j);
    EntryStands(cfg, s, e);
    assert s.conns[e.c].phase.peerId in r.states[j + 1].registry;
  }

  /** So a late entry anywhere in a run with sweeps on time breaks the bound in a run that goes on from
      it by nothing but time passing, sweeps still on time. */
  lemma LateEntryGoesOnToBreak(cfg: Config, r: Run, j: nat, gap: nat) returns (r': Run)
    requires IsRun(cfg, r) && PromptSweeps(r, gap) && j < |r.events| && !TimelyEntry(cfg, r.states[j], r.events[j])
    ensures IsRun(cfg, r') && PromptSweeps(r', gap) && |r'.events| == j + 2
    ensures r'.states[..j + 2] == r.states[..j + 2] && r'.events[j + 1].Tick?
    ensures !Bounded(Last(r'), cfg.deadline + gap)
  {
    LateEntryShows(cfg, r, j, gap);
    r' := WaitsAfter(cfg, r, j + 1, gap);
  }

  /** A sweep's scan is later than connection `c`'s last frame before step `j`. */
  ghost predicate Overtaken(r: Run, j: nat, c: ConnId)
    requires j < |r.states| && |r.states| == |r.events| + 1 && c in r.states[j].conns
  {
    exists k: nat | k < j :: SweptSince(r, k, j, c)
  }

  ghost predicate SweptSince(r: Run, k: nat, j: nat, c: ConnId)
    requires k < j < |r.states| && |r.states| == |r.events| + 1 && c in r.states[j].conns
  {
    && r.events[k].Sweep? && c in r.states[k].conns && r.states[k].conns[c].activity == r.states[j].conns[c].activity
    && r.events[k].at > r.states[j].conns[c].activity
  }

  /** Only a sweep since its last frame puts the last scan past it. */
  lemma {:induction false} ScanIsPast(cfg: Config, r: Run, j: nat, c: ConnId)
    requires IsRun(cfg, r) && j < |r.states| && c in r.states[j].conns
    requires r.states[j].lastSweep > r.states[j].conns[c].activity
    ensures Overtaken(r, j, c)
  {
    var s, e := r.states[j - 1], r.events[j - 1];
    assert StepAt(cfg, r, j - 1);
    RunInv(cfg, r, j - 1);
    if e.Sweep? {
      assert SweptSince(r, j - 1, j, c);
    } else {
      SweepMoves(cfg, s, e);
      if Owner(e) == Some(c) {
        OwnStep(cfg, s, e, c);
      } else {
        OthersOnlySend(cfg, s, e, c);
      }
      ScanIsPast(cfg, r, j - 1, c);
      var k: nat :| k < j - 1 && SweptSince(r, k, j - 1, c);
      assert SweptSince(r, k, j, c);
    }
  }

  ghost predicate EnteredAtOnce(cfg: Config, r: Run, j: nat)
    requires IsRun(cfg, r) && j < |r.events|
  {
    assert StepAt(cfg, r, j);
    var s, e := r.states[j], r.events[j];
    e.Commit? && Refusal(cfg, s, e.c).None? ==> !Overtaken(r, j, e.c)
  }

  /** Where no sweep comes between a connection's last frame and the entry of its registration, the
      deadline and the gap bound every silence. */
  lemma BoundHoldsUnlessOvertaken(cfg: Config, r: Run, i: nat, gap: nat)
    requires IsRun(cfg, r) && i < |r.states| && PromptSweeps(r, gap)
    requires forall j: nat | j < |r.events| :: EnteredAtOnce(cfg, r, j)
    ensures Bounded(r.states[i], cfg.deadline + gap)
  {
    forall j: nat | j < |r.events|
      ensures TimelyEntry(cfg, r.states[j], r.events[j])
    {
      assert EnteredAtOnce(cfg, r, j) && StepAt(cfg, r, j);
      var s, e := r.states[j], r.events[j];
      if e.Commit? && s.lastSweep > s.conns[e.c].activity {
        ScanIsPast(cfg, r, j, e.c);
      }
    }
    SilenceIsBounded(cfg, r, i, gap);
  }

  // ---- A late registration ----

  /** A connection's task is held up before the registry since time 0, with no record anywhere and sweeps
      on time. */
  ghost predicate Waiting(cfg: Config, s: State, now: nat) {
    && s.now == s.lastSweep == now && s.registry == map[] && s.sweeping == []
    && Ready(s, 0) && s.conns[0].phase == Reserved("late", "net", 0, []) && s.conns[0].activity == 0
    && s.conns[0].verified.None?
  }

  lemma StartsToWait(cfg: Config) returns (r: Run)
    ensures IsRun(cfg, r) && Waiting(cfg, Last(r), 0) && PromptSweeps(r, 0)
  {
    var first := StartRun(cfg);
    var ready := Opens(cfg, first, 0, V4([0, 0, 0, 0]));
    var asked := Asks(cfg, ready, 0, "late", "net");
    r := Reserves(cfg, asked, 0, "late", "net");
    AtOnceThen(first, ready, asked);
    AtOnceThen(first, asked, r);
  }

  /** A moment passes and a sweep finds nothing. */
  lemma Moment(cfg: Config, r: Run, gap: nat) returns (r': Run)
    requires IsRun(cfg, r) && Waiting(cfg, Last(r), Last(r).now) && PromptSweeps(r, gap) && gap >= 1
    ensures IsRun(cfg, r') && Waiting(cfg, Last(r'), Last(r).now + 1) && PromptSweeps(r', gap)
  {
    var now := Last(r).now + 1;
    KnownNow(cfg, r);
    var ticked := GoOn(cfg, r, Tick(now));
    var s := Last(ticked);
    assert Victims(cfg, s, now) == {} && Ids([]) == [];
    r' := GoOn(cfg, ticked, Sweep(now, []));
  }

  lemma {:induction false} Waits(cfg: Config, now: nat, gap: nat) returns (r: Run)
    requires gap >= 1
    ensures IsRun(cfg, r) && Waiting(cfg, Last(r), now) && PromptSweeps(r, gap)
  {
    if now == 0 {
      r := StartsToWait(cfg);
    } else {
      r := Waits(cfg, now - 1, gap);
      r := Moment(cfg, r, gap);
    }
  }

  /** Without that condition the bound fails: for every deadline and gap there is a run with sweeps on
      time and a record silent for longer. The registry's lock is given out in the order it is asked for,
      so it takes a task that is held up between its reservation and its turn to ask. */
  lemma LateEntryBreaksTheBound(cfg: Config, gap: nat) returns (r: Run)
    requires gap >= 1 && cfg.maxConnections >= 1
    ensures IsRun(cfg, r) && PromptSweeps(r, gap) && !Bounded(Last(r), cfg.deadline + gap)
  {
    r := Waits(cfg, cfg.deadline + gap + 1, gap);
    r := Commits(cfg, r, 0, "late", "net");
    assert "late" in Last(r).registry;
  }
}
