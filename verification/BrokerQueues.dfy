/** What becomes of a send: it joins the channel's queue in order, unless the channel is closed or full. */
module BrokerQueues {
  import opened Net
  import opened Wire
  import opened Broker
  import opened BrokerInvariant
  import opened BrokerRuns

  // ---- One step ----

  /** The message the step tries on channel `d`, if it tries one there. */
  ghost function TriedOn(s: State, e: Event, d: ConnId): Option<Message> {
    if e.Deliver? && e.c in s.conns && s.conns[e.c].todo != [] && s.conns[e.c].todo[0].chan == d
    then Some(s.conns[e.c].todo[0].msg)
    else if e.SweepDeliver? && s.sweeping != [] && s.sweeping[0].chan == d then Some(s.sweeping[0].msg)
    else None
  }

  /** What a step makes of an open channel's queue: the message tried on it goes to the end if there is
      room, the writer takes from the front, and nothing else changes it. */
  ghost predicate QueueMoves(cfg: Config, s: State, e: Event, d: ConnId, queue: seq<Message>)
    requires d in s.conns
  {
    var before, tried := s.conns[d].queue, TriedOn(s, e, d);
    if tried.Some? then queue == if |before| < cfg.queueCapacity then before + [tried.value] else before
    else if e == Drain(d) then before != [] && before == [before[0]] + queue
    else queue == before
  }

  lemma OpenQueueStep(cfg: Config, s: State, e: Event, d: ConnId)
    requires Enabled(cfg, s, e) && d in s.conns && s.conns[d].open
    requires d in Step(cfg, s, e).conns && Step(cfg, s, e).conns[d].open
    ensures QueueMoves(cfg, s, e, d, Step(cfg, s, e).conns[d].queue)
  {
    if e.Commit? || e.Act? || e.Deregister? {
      LockedStepKeepsQueues(cfg, s, e, d);
    } else if e.Deliver? {
      assert QueueMoves(cfg, s, e, d, DeliverStep(cfg, s, e.c).conns[d].queue);
    } else if e.SweepDeliver? {
      assert QueueMoves(cfg, s, e, d, SweepDeliverStep(cfg, s).conns[d].queue);
    } else if e != Drain(d) {
      PlainStepKeepsQueues(cfg, s, e, d);
    }
  }

  lemma PlainStepKeepsQueues(cfg: Config, s: State, e: Event, d: ConnId)
    requires Enabled(cfg, s, e) && d in s.conns && !e.Commit? && !e.Act? && !e.Deregister? && !e.Deliver?
    requires !e.SweepDeliver? && e != Drain(d) && e != Shut(d)
    ensures d in Step(cfg, s, e).conns && Step(cfg, s, e).conns[d].queue == s.conns[d].queue
    ensures Step(cfg, s, e).conns[d].open == s.conns[d].open
  {
    if Owner(e) != Some(d) {
      OthersOnlySend(cfg, s, e, d);
    } else if e.Reserve? {
      var t := ReserveStep(cfg, s, d, e.rateOk);
      assert t.conns[d].queue == s.conns[d].queue && t.conns[d].open == s.conns[d].open;
    } else if e.Settle? {
      var t := SettleStep(cfg, s, d);
      assert t.conns[d].queue == s.conns[d].queue && t.conns[d].open == s.conns[d].open;
    }
  }

  lemma LockedStepKeepsQueues(cfg: Config, s: State, e: Event, d: ConnId)
    requires Enabled(cfg, s, e) && (e.Commit? || e.Act? || e.Deregister?) && d in s.conns
    ensures d in Step(cfg, s, e).conns && Step(cfg, s, e).conns[d].queue == s.conns[d].queue
  {
    LockedStepsAreLocal(cfg, s, e, d);
    if e.c == d {
      if e.Commit? {
        assert CommitNow(cfg, s, d, e.told).conns[d].queue == s.conns[d].queue;
      } else if e.Act? {
        assert ActNow(cfg, s, d, e.told).conns[d].queue == s.conns[d].queue;
      }
    }
  }

  // ---- Whole runs ----

  ghost predicate OpenThrough(r: Run, d: ConnId, i: nat, k: nat) {
    i <= k < |r.states| && forall l | i <= l <= k :: OpenChannel(r.states[l], d)
  }

  ghost predicate OpenChannel(s: State, d: ConnId) {
    d in s.conns && s.conns[d].open
  }

  /** The messages tried on channel `d` in the steps from `i` to `k` that found room in its queue. */
  ghost function Accepted(cfg: Config, r: Run, d: ConnId, i: nat, k: nat): seq<Message>
    requires i <= k < |r.states| == |r.events| + 1
  {
    if k == i then []
    else
      var s, tried := r.states[k - 1], TriedOn(r.states[k - 1], r.events[k - 1], d);
      Accepted(cfg, r, d, i, k - 1)
      + if tried.Some? && d in s.conns && |s.conns[d].queue| < cfg.queueCapacity then [tried.value] else []
  }

  /** The messages channel `d`'s writer has taken in the steps from `i` to `k`. */
  ghost function Drained(r: Run, d: ConnId, i: nat, k: nat): seq<Message>
    requires i <= k < |r.states| == |r.events| + 1
  {
    if k == i then []
    else
      var s := r.states[k - 1];
      Drained(r, d, i, k - 1)
      + if r.events[k - 1] == Drain(d) && d in s.conns && s.conns[d].queue != [] then [s.conns[d].queue[0]] else []
  }

  /** First in, first out, and nothing lost but to a full queue: over any stretch of a run in which a
      channel stays open, what was queued and then tried on it with room left is exactly what its
      writer has taken, in that order, and what is still queued. */
  lemma {:induction false} OpenChannelIsFifo(cfg: Config, r: Run, d: ConnId, i: nat, k: nat)
    requires IsRun(cfg, r) && OpenThrough(r, d, i, k)
    ensures OpenChannel(r.states[i], d) && OpenChannel(r.states[k], d)
    ensures r.states[i].conns[d].queue + Accepted(cfg, r, d, i, k) == Drained(r, d, i, k) + r.states[k].conns[d].queue
    decreases k
  {
    assert OpenChannel(r.states[i], d) && OpenChannel(r.states[k], d);
    if i < k {
      OpenChannelIsFifo(cfg, r, d, i, k - 1);
      assert StepAt(cfg, r, k - 1) && OpenChannel(r.states[k - 1], d);
      var s, e := r.states[k - 1], r.events[k - 1];
      OpenQueueStep(cfg, s, e, d);
      FifoStep(cfg, s, e, d, r.states[i].conns[d].queue, Accepted(cfg, r, d, i, k - 1), Drained(r, d, i, k - 1),
               r.states[k].conns[d].queue);
    }
  }

  lemma FifoStep(
      cfg: Config, s: State, e: Event, d: ConnId, first: seq<Message>, taken: seq<Message>, gone: seq<Message>,
      queue: seq<Message>)
    requires d in s.conns && QueueMoves(cfg, s, e, d, queue) && first + taken == gone + s.conns[d].queue
    ensures var before, tried := s.conns[d].queue, TriedOn(s, e, d);
            var more := if tried.Some? && |before| < cfg.queueCapacity then [tried.value] else [];
            var less := if e == Drain(d) && before != [] then [before[0]] else [];
            first + (taken + more) == (gone + less) + queue
  {
    var before, tried := s.conns[d].queue, TriedOn(s, e, d);
    if tried.Some? {
      if |before| < cfg.queueCapacity {
        assert first + (taken + [tried.value]) == (first + taken) + [tried.value];
        assert gone + (before + [tried.value]) == (gone + before) + [tried.value];
      }
      assert gone + [] == gone && taken + [] == taken;
    } else if e == Drain(d) {
      assert gone + ([before[0]] + queue) == (gone + [before[0]]) + queue;
      assert taken + [] == taken;
    } else {
      assert gone + [] == gone && taken + [] == taken;
    }
  }

  /** A send to an open channel with room is queued by its step, last. */
  lemma RoomMeansQueued(cfg: Config, r: Run, d: ConnId, j: nat, m: Message)
    requires IsRun(cfg, r) && j < |r.events| && OpenChannel(r.states[j], d)
    requires TriedOn(r.states[j], r.events[j], d) == Some(m) && |r.states[j].conns[d].queue| < cfg.queueCapacity
    ensures OpenChannel(r.states[j + 1], d) && r.states[j + 1].conns[d].queue == r.states[j].conns[d].queue + [m]
  {
    assert StepAt(cfg, r, j);
    StaysOpen(cfg, r.states[j], r.events[j], d);
    OpenQueueStep(cfg, r.states[j], r.events[j], d);
  }

  lemma StaysOpen(cfg: Config, s: State, e: Event, d: ConnId)
    requires Enabled(cfg, s, e) && (e.Deliver? || e.SweepDeliver?) && d in s.conns
    ensures d in Step(cfg, s, e).conns && Step(cfg, s, e).conns[d].open == s.conns[d].open
  {
  }

  /** A closed channel never opens again and holds nothing. */
  lemma {:induction false} ClosedHoldsNothing(cfg: Config, r: Run, i: nat, k: nat, d: ConnId)
    requires IsRun(cfg, r) && i <= k < |r.states| && d in r.states[i].conns && !r.states[i].conns[d].open
    ensures d in r.states[k].conns && !r.states[k].conns[d].open && r.states[k].conns[d].queue == []
    decreases k
  {
    if k > 0 {
      assert StepAt(cfg, r, k - 1);
      var s, e := r.states[k - 1], r.events[k - 1];
      if i < k {
        ClosedHoldsNothing(cfg, r, i, k - 1, d);
        ClosedStep(cfg, s, e, d);
      } else if d in s.conns {
        if !s.conns[d].open {
          ClosedHoldsNothing(cfg, r, i - 1, k - 1, d);
        }
        ClosedStep(cfg, s, e, d);
      } else {
        NewIsOpen(cfg, s, e, d);
      }
    }
  }

  lemma NewIsOpen(cfg: Config, s: State, e: Event, d: ConnId)
    requires Enabled(cfg, s, e) && d !in s.conns && d in Step(cfg, s, e).conns
    ensures Step(cfg, s, e).conns[d].open
  {
    if Owner(e) != Some(d) {
      OthersOnlySend(cfg, s, e, d);
    }
  }

  /** Only closing empties a queue of an open channel for good, and a closed one stays as it is. */
  lemma ClosedStep(cfg: Config, s: State, e: Event, d: ConnId)
    requires Enabled(cfg, s, e) && d in s.conns && (s.conns[d].open || s.conns[d].queue == [])
    ensures d in Step(cfg, s, e).conns && (Step(cfg, s, e).conns[d].open ==> s.conns[d].open)
    ensures !Step(cfg, s, e).conns[d].open ==> Step(cfg, s, e).conns[d].queue == []
  {
    if e.Commit? || e.Act? || e.Deregister? {
      LockedStepKeepsQueues(cfg, s, e, d);
      LockedStepKeepsChannels(cfg, s, e, d);
    } else if e.Deliver? || e.SweepDeliver? {
      StaysOpen(cfg, s, e, d);
    } else if e != Drain(d) && e != Shut(d) {
      PlainStepKeepsQueues(cfg, s, e, d);
    }
  }

  lemma LockedStepKeepsChannels(cfg: Config, s: State, e: Event, d: ConnId)
    requires Enabled(cfg, s, e) && (e.Commit? || e.Act? || e.Deregister?) && d in s.conns
    ensures d in Step(cfg, s, e).conns && Step(cfg, s, e).conns[d].open == s.conns[d].open
  {
    LockedStepsAreLocal(cfg, s, e, d);
    if e.c == d {
      if e.Commit? {
        assert CommitNow(cfg, s, d, e.told).conns[d].open == s.conns[d].open;
      } else if e.Act? {
        assert ActNow(cfg, s, d, e.told).conns[d].open == s.conns[d].open;
      }
    }
  }
}
