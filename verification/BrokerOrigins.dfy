/** Where every message the relay ever queues comes from. */
module BrokerOrigins {
  import opened Net
  import opened Wire
  import opened Broker
  import opened BrokerInvariant
  import opened BrokerSweep
  import opened BrokerRuns

  // ---- One step ----

  /** The step attempts `m` on the channel of `to`'s record, which is connection `d`'s. */
  ghost predicate Addressed(cfg: Config, s: State, e: Event, to: PeerId, d: ConnId, m: Message)
    requires Enabled(cfg, s, e)
  {
    match e
    case Act(c, _) => Relayed(s, c, to, m) && s.registry[to].chan == d
    case Commit(c, _) => Welcomed(cfg, s, c, to, m) && Entered(s, c)[to].chan == d
    case Deregister(c, _) => Mourned(s, c, to, m) && s.registry[to].chan == d
    case Sweep(at, victims) =>
      NoticeOk(s.registry, Ids(victims), Send(d, m, Some(to))) && DeadOrStale(cfg, s, at, m.gone)
    case _ => false
  }

  /** A relayed message goes to a record of the sender's network: the one it names, or any other than
      the sender's and the excluded ones. */
  ghost predicate Relayed(s: State, c: ConnId, to: PeerId, m: Message)
    requires c in s.conns && s.conns[c].phase.Pending?
  {
    var session, action := s.conns[c].session, s.conns[c].phase.action;
    && session.network.Some? && to in s.registry && s.registry[to].network == session.network.value
    && m in Carried(action)
    && (Stamped(m) || m.HolePunchResult?)
    && ((action.ForwardTo? && action.to == to) || (action.FanOut? && to != action.from && to !in action.exclude))
  }

  /** A newcomer is announced to the other records of its network, as its record describes it. */
  ghost predicate Welcomed(cfg: Config, s: State, c: ConnId, to: PeerId, m: Message)
    requires c in s.conns && s.conns[c].phase.Reserved? && ChansKnown(s)
  {
    && Refusal(cfg, s, c).None? && m.PeerConnected? && m.peer == Entered(s, c)[s.conns[c].phase.peerId].info
    && to in Entered(s, c) && to != m.peer.peerId && Entered(s, c)[to].network == m.peer.networkId
  }

  /** A teardown is announced to the records of the session's network. */
  ghost predicate Mourned(s: State, c: ConnId, to: PeerId, m: Message)
    requires c in s.conns
  {
    && Departing(s, c).Some? && m == PeerDisconnected(Departing(s, c).value)
    && to in s.registry && to != m.gone && Some(s.registry[to].network) == s.conns[c].session.network
  }

  /** A reply to the connection's own frame: an acknowledgement, an error, a pong or a peer list. */
  ghost predicate Reply(e: Event, d: ConnId, m: Message) {
    (e.Reserve? || e.Commit? || e.Act?) && e.c == d && (m.RegisterAck? || m.Error? || m.Pong? || m.Peers?)
  }

  /** The step puts `n` among the sends of its connection, or of the sweep. */
  ghost predicate ListedBy(cfg: Config, s: State, e: Event, n: Send)
    requires Enabled(cfg, s, e)
  {
    var s' := Step(cfg, s, e);
    if e.Sweep? then n in s'.sweeping
    else (e.Act? || e.Commit? || e.Reserve? || e.Deregister?) && e.c in s'.conns && n in s'.conns[e.c].todo
  }

  ghost predicate Originates(cfg: Config, s: State, e: Event, d: ConnId, m: Message)
    requires Enabled(cfg, s, e)
  {
    Reply(e, d, m) || exists to :: Addressed(cfg, s, e, to, d, m)
  }

  /** A pending action carries no other name than the session's. */
  ghost predicate ActionOk(x: Conn) {
    x.phase.Pending? ==> CarriesOwnName(x.session, x.phase.action)
  }

  ghost predicate ActionsOk(s: State) {
    forall c | c in s.conns :: ActionOk(s.conns[c])
  }

  /** A connection's pending action changes only by its own steps. */
  ghost predicate PhaseChange(s: State, e: Event, c: ConnId, v: Conn) {
    || (c in s.conns && v.session == s.conns[c].session && v.phase == s.conns[c].phase)
    || !v.phase.Pending?
    || (e.Arrive? && v.phase.action == if e.frame.Some? then Dispatch(v.session, e.frame.value) else Fail(BAD_MESSAGE))
  }

  lemma PhaseSteps(cfg: Config, s: State, e: Event, c: ConnId)
    requires Enabled(cfg, s, e) && c in Step(cfg, s, e).conns
    ensures PhaseChange(s, e, c, Step(cfg, s, e).conns[c])
  {
    if Owner(e) == Some(c) {
      OwnStep(cfg, s, e, c);
    } else {
      OthersOnlySend(cfg, s, e, c);
    }
  }

  lemma ArrivedOk(session: Session, m: Message, x: Conn)
    requires x.phase == Pending(Dispatch(session, m)) && x.session == session
    ensures ActionOk(x)
  {
    DispatchStamps(session, m);
  }

  lemma ActionsStep(cfg: Config, s: State, e: Event)
    requires ActionsOk(s) && Enabled(cfg, s, e)
    ensures ActionsOk(Step(cfg, s, e))
  {
    var s' := Step(cfg, s, e);
    forall c | c in s'.conns
      ensures ActionOk(s'.conns[c])
    {
      PhaseSteps(cfg, s, e, c);
      if c in s.conns && s'.conns[c].session == s.conns[c].session && s'.conns[c].phase == s.conns[c].phase {
        assert ActionOk(s.conns[c]);
      } else if s'.conns[c].phase.Pending? && e.frame.Some? {
        ArrivedOk(s'.conns[c].session, e.frame.value, s'.conns[c]);
      }
    }
  }

  // ---- New sends ----

  lemma ActOrigin(cfg: Config, s: State, c: ConnId, told: seq<PeerId>, n: Send)
    requires Enabled(cfg, s, Act(c, told)) && ActionOk(s.conns[c]) && n in ActNow(cfg, s, c, told).conns[c].todo
    ensures Originates(cfg, s, Act(c, told), n.chan, n.msg)
  {
    var conn := s.conns[c];
    match conn.phase.action {
      case FanOut(from, exclude, msg) =>
        TargetsInRegistry(s.registry, told, from, conn.session.network.value, exclude);
        assert Addressed(cfg, s, Act(c, told), n.to.value, n.chan, n.msg);
      case ForwardTo(to, msg) =>
        if to in s.registry && Some(s.registry[to].network) == conn.session.network {
          assert Addressed(cfg, s, Act(c, told), to, n.chan, n.msg);
        }
      case ReplyToSelf(replies) =>
        var i :| 0 <= i < |replies| && n == Send(c, replies[i], None);
        assert replies[i] in replies;
      case _ =>
    }
  }

  lemma CommitOrigin(cfg: Config, s: State, c: ConnId, told: seq<PeerId>, n: Send)
    requires Enabled(cfg, s, Commit(c, told)) && n in CommitNow(cfg, s, c, told).conns[c].todo
    ensures Originates(cfg, s, Commit(c, told), n.chan, n.msg)
  {
    if Refusal(cfg, s, c).None? && n.to.Some? {
      TargetsInRegistry(Entered(s, c), told, s.conns[c].phase.peerId, s.conns[c].phase.networkId, []);
      assert Addressed(cfg, s, Commit(c, told), n.to.value, n.chan, n.msg);
    }
  }

  lemma DeregisterOrigin(cfg: Config, s: State, c: ConnId, told: seq<PeerId>, n: Send)
    requires Enabled(cfg, s, Deregister(c, told)) && n in DeregisterNow(cfg, s, c, told).conns[c].todo
    ensures Originates(cfg, s, Deregister(c, told), n.chan, n.msg)
  {
    var id := Departing(s, c).value;
    TargetsInRegistry(s.registry - {id}, told, id, s.conns[c].session.network.value, []);
    assert Addressed(cfg, s, Deregister(c, told), n.to.value, n.chan, n.msg);
  }

  lemma SweepOrigin(cfg: Config, s: State, at: nat, victims: seq<Victim>, n: Send)
    requires Enabled(cfg, s, Sweep(at, victims)) && n in SweepStep(s, at, victims).sweeping
    ensures Originates(cfg, s, Sweep(at, victims), n.chan, n.msg)
  {
    NoticesAreSound(s.registry, s.connected, victims, n);
    VictimsListed(cfg, s, at, victims);
    assert Addressed(cfg, s, Sweep(at, victims), n.to.value, n.chan, n.msg);
  }

  /** Whatever a connection has to send after a step, it had before or the step originates. */
  lemma SendsStep(cfg: Config, s: State, e: Event, c: ConnId, n: Send)
    requires Enabled(cfg, s, e) && ActionsOk(s) && c in Step(cfg, s, e).conns && n in Step(cfg, s, e).conns[c].todo
    ensures (c in s.conns && n in s.conns[c].todo) || (Originates(cfg, s, e, n.chan, n.msg) && ListedBy(cfg, s, e, n))
  {
    if Owner(e) != Some(c) {
      OthersOnlySend(cfg, s, e, c);
    } else if e.Act? {
      assert ActionOk(s.conns[c]);
      ActOrigin(cfg, s, c, e.told, n);
    } else if e.Commit? {
      CommitOrigin(cfg, s, c, e.told, n);
    } else if e.Deregister? {
      DeregisterOrigin(cfg, s, c, e.told, n);
    } else if e.Reserve? {
      ReserveOrigin(cfg, s, c, e.rateOk, n);
    } else {
      NoNewSends(cfg, s, e, c, n);
    }
  }

  lemma ReserveOrigin(cfg: Config, s: State, c: ConnId, rateOk: bool, n: Send)
    requires Enabled(cfg, s, Reserve(c, rateOk)) && n in ReserveStep(cfg, s, c, rateOk).conns[c].todo
    ensures Originates(cfg, s, Reserve(c, rateOk), n.chan, n.msg)
  {
    assert Reply(Reserve(c, rateOk), n.chan, n.msg);
  }

  lemma NoNewSends(cfg: Config, s: State, e: Event, c: ConnId, n: Send)
    requires Enabled(cfg, s, e) && !e.Act? && !e.Commit? && !e.Deregister? && !e.Reserve? && Owner(e) == Some(c)
    requires c in Step(cfg, s, e).conns && n in Step(cfg, s, e).conns[c].todo
    ensures c in s.conns && n in s.conns[c].todo
  {
  }

  lemma SweepingStep(cfg: Config, s: State, e: Event, n: Send)
    requires Enabled(cfg, s, e) && n in Step(cfg, s, e).sweeping
    ensures n in s.sweeping || (Originates(cfg, s, e, n.chan, n.msg) && ListedBy(cfg, s, e, n))
  {
    if e.Sweep? {
      SweepOrigin(cfg, s, e.at, e.victims, n);
    }
  }

  /** Whatever a step adds to a queue was waiting to be sent there. */
  lemma QueueStep(cfg: Config, s: State, e: Event, d: ConnId, m: Message)
    requires Enabled(cfg, s, e) && d in Step(cfg, s, e).conns && m in Step(cfg, s, e).conns[d].queue
    ensures d in s.conns
    ensures || m in s.conns[d].queue
            || (e.Deliver? && s.conns[e.c].todo[0].chan == d && s.conns[e.c].todo[0].msg == m)
            || (e.SweepDeliver? && s.sweeping[0].chan == d && s.sweeping[0].msg == m)
  {
    if e.Deliver? || e.SweepDeliver? {
      return;
    } else if Owner(e) == Some(d) {
      OwnQueue(cfg, s, e, d);
    } else {
      OthersOnlySend(cfg, s, e, d);
    }
  }

  lemma OwnQueue(cfg: Config, s: State, e: Event, d: ConnId)
    requires Enabled(cfg, s, e) && Owner(e) == Some(d) && !e.Deliver?
    requires d in Step(cfg, s, e).conns && Step(cfg, s, e).conns[d].queue != []
    ensures d in s.conns && forall m | m in Step(cfg, s, e).conns[d].queue :: m in s.conns[d].queue
  {
    if e.Commit? || e.Act? || e.Deregister? {
      OwnLockedQueue(cfg, s, e, d);
    } else if e.Reserve? {
      assert ReserveStep(cfg, s, d, e.rateOk).conns[d].queue == s.conns[d].queue;
    }
  }

  lemma OwnLockedQueue(cfg: Config, s: State, e: Event, d: ConnId)
    requires Enabled(cfg, s, e) && (e.Commit? || e.Act? || e.Deregister?) && e.c == d
    ensures d in Step(cfg, s, e).conns && d in s.conns && Step(cfg, s, e).conns[d].queue == s.conns[d].queue
  {
    if e.Commit? {
      assert CommitNow(cfg, s, d, e.told).conns[d].queue == s.conns[d].queue;
    } else if e.Act? {
      assert ActNow(cfg, s, d, e.told).conns[d].queue == s.conns[d].queue;
    }
  }

  // ---- Whole runs ----

  ghost predicate OriginAt(cfg: Config, r: Run, j: nat, d: ConnId, m: Message)
    requires |r.states| == |r.events| + 1 && j < |r.events|
  {
    && Enabled(cfg, r.states[j], r.events[j]) && Originates(cfg, r.states[j], r.events[j], d, m)
    && exists to :: ListedBy(cfg, r.states[j], r.events[j], Send(d, m, to))
  }

  ghost predicate Accounted(cfg: Config, r: Run, i: nat, d: ConnId, m: Message)
    requires |r.states| == |r.events| + 1 && i < |r.states|
  {
    exists j | 0 <= j < i :: OriginAt(cfg, r, j, d, m)
  }

  ghost predicate SendsAccounted(cfg: Config, r: Run, i: nat, sends: seq<Send>)
    requires |r.states| == |r.events| + 1 && i < |r.states|
  {
    forall n | n in sends :: Accounted(cfg, r, i, n.chan, n.msg)
  }

  ghost predicate ConnAccounted(cfg: Config, r: Run, i: nat, d: ConnId)
    requires |r.states| == |r.events| + 1 && i < |r.states| && d in r.states[i].conns
  {
    && SendsAccounted(cfg, r, i, r.states[i].conns[d].todo)
    && forall m | m in r.states[i].conns[d].queue :: Accounted(cfg, r, i, d, m)
  }

  ghost predicate AllAccounted(cfg: Config, r: Run, i: nat)
    requires |r.states| == |r.events| + 1 && i < |r.states|
  {
    && ActionsOk(r.states[i]) && SendsAccounted(cfg, r, i, r.states[i].sweeping)
    && forall d | d in r.states[i].conns :: ConnAccounted(cfg, r, i, d)
  }

  lemma StillAccounted(cfg: Config, r: Run, i: nat, d: ConnId, m: Message)
    requires |r.states| == |r.events| + 1 && i + 1 < |r.states| && Accounted(cfg, r, i, d, m)
    ensures Accounted(cfg, r, i + 1, d, m)
  {
    var j :| 0 <= j < i && OriginAt(cfg, r, j, d, m);
    assert 0 <= j < i + 1 && OriginAt(cfg, r, j, d, m);
  }

  lemma NowAccounted(cfg: Config, r: Run, i: nat, d: ConnId, m: Message)
    requires |r.states| == |r.events| + 1 && i < |r.events| && OriginAt(cfg, r, i, d, m)
    ensures Accounted(cfg, r, i + 1, d, m)
  {
  }

  lemma ConnAccountedStep(cfg: Config, r: Run, i: nat, d: ConnId)
    requires |r.states| == |r.events| + 1 && i < |r.events| && StepAt(cfg, r, i) && AllAccounted(cfg, r, i)
    requires d in r.states[i + 1].conns
    ensures ConnAccounted(cfg, r, i + 1, d)
  {
    var s, e, s' := r.states[i], r.events[i], r.states[i + 1];
    forall n | n in s'.conns[d].todo
      ensures Accounted(cfg, r, i + 1, n.chan, n.msg)
    {
      SendsStep(cfg, s, e, d, n);
      if d in s.conns && n in s.conns[d].todo {
        assert ConnAccounted(cfg, r, i, d);
        StillAccounted(cfg, r, i, n.chan, n.msg);
      } else {
        assert n == Send(n.chan, n.msg, n.to);
        NowAccounted(cfg, r, i, n.chan, n.msg);
      }
    }
    forall m | m in s'.conns[d].queue
      ensures Accounted(cfg, r, i + 1, d, m)
    {
      QueueStep(cfg, s, e, d, m);
      if m in s.conns[d].queue {
        assert ConnAccounted(cfg, r, i, d);
      } else if e.Deliver? {
        assert ConnAccounted(cfg, r, i, e.c);
        assert s.conns[e.c].todo[0] in s.conns[e.c].todo;
      } else {
        assert s.sweeping[0] in s.sweeping;
      }
      StillAccounted(cfg, r, i, d, m);
    }
  }

  lemma AccountedStep(cfg: Config, r: Run, i: nat)
    requires |r.states| == |r.events| + 1 && i < |r.events| && StepAt(cfg, r, i) && AllAccounted(cfg, r, i)
    ensures AllAccounted(cfg, r, i + 1)
  {
    var s, e, s' := r.states[i], r.events[i], r.states[i + 1];
    ActionsStep(cfg, s, e);
    forall n | n in s'.sweeping
      ensures Accounted(cfg, r, i + 1, n.chan, n.msg)
    {
      SweepingStep(cfg, s, e, n);
      if n in s.sweeping {
        StillAccounted(cfg, r, i, n.chan, n.msg);
      } else {
        assert n == Send(n.chan, n.msg, n.to);
        NowAccounted(cfg, r, i, n.chan, n.msg);
      }
    }
    forall d | d in s'.conns
      ensures ConnAccounted(cfg, r, i + 1, d)
    {
      ConnAccountedStep(cfg, r, i, d);
    }
  }

  lemma {:induction false} EverythingIsAccounted(cfg: Config, r: Run, i: nat)
    requires IsRun(cfg, r) && i < |r.states|
    ensures AllAccounted(cfg, r, i)
  {
    if i > 0 {
      EverythingIsAccounted(cfg, r, i - 1);
      assert StepAt(cfg, r, i - 1);
      AccountedStep(cfg, r, i - 1);
    }
  }
}
