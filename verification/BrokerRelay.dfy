/** Whose name a connection has, whom arrivals and departures are told to, and that sends are tried in order. */
module BrokerRelay {
  import opened Net
  import opened Wire
  import opened Broker
  import opened BrokerInvariant
  import opened BrokerRuns
  import opened BrokerOrigins

  // ---- A session is the last successful registration ----

  ghost predicate Accepts(cfg: Config, s: State, e: Event, c: ConnId)
    requires Enabled(cfg, s, e)
  {
    e.Commit? && e.c == c && Refusal(cfg, s, c).None?
  }

  /** The session connection `c` last registered successfully by state `i`. */
  ghost function LastRegistered(cfg: Config, r: Run, c: ConnId, i: nat): Session
    requires IsRun(cfg, r) && i < |r.states|
  {
    if i == 0 then Session(None, None)
    else
      assert StepAt(cfg, r, i - 1);
      if Accepts(cfg, r.states[i - 1], r.events[i - 1], c) then
        var p := r.states[i - 1].conns[c].phase;
        Session(Some(p.peerId), Some(p.networkId))
      else LastRegistered(cfg, r, c, i - 1)
  }

  /** Only a connection's own registration and its end change what it is registered as. */
  ghost predicate SessionChange(cfg: Config, s: State, e: Event, c: ConnId, v: Conn)
    requires Enabled(cfg, s, e)
  {
    if c !in s.conns then v.session == Session(None, None) && !v.phase.Registered?
    else
      var x := s.conns[c];
      if Accepts(cfg, s, e, c) then v.phase == Registered(x.phase.peerId, x.phase.networkId)
      else if e == Settle(c) && x.phase.Registered? then
        v.session == Session(Some(x.phase.peerId), Some(x.phase.networkId)) && !v.phase.Registered?
      else v.session == x.session && (v.phase.Registered? || x.phase.Registered? ==> v.phase == x.phase)
  }

  lemma SessionStep(cfg: Config, s: State, e: Event, c: ConnId)
    requires Enabled(cfg, s, e) && c in Step(cfg, s, e).conns
    ensures SessionChange(cfg, s, e, c, Step(cfg, s, e).conns[c])
  {
    if Owner(e) == Some(c) {
      OwnStep(cfg, s, e, c);
    } else {
      OthersOnlySend(cfg, s, e, c);
    }
  }

  ghost predicate RegisteredAs(x: Conn, session: Session) {
    if x.phase.Registered? then session == Session(Some(x.phase.peerId), Some(x.phase.networkId))
    else session == x.session
  }

  lemma {:induction false} SessionIsLastRegistered(cfg: Config, r: Run, i: nat, c: ConnId)
    requires IsRun(cfg, r) && i < |r.states|
    ensures if c in r.states[i].conns then RegisteredAs(r.states[i].conns[c], LastRegistered(cfg, r, c, i))
            else LastRegistered(cfg, r, c, i) == Session(None, None)
  {
    if i > 0 {
      SessionIsLastRegistered(cfg, r, i - 1, c);
      assert StepAt(cfg, r, i - 1);
      if c in r.states[i].conns {
        SessionStep(cfg, r.states[i - 1], r.events[i - 1], c);
      } else if c in r.states[i - 1].conns {
        ConnsStay(cfg, r.states[i - 1], r.events[i - 1], c);
      }
    }
  }

  lemma ConnsStay(cfg: Config, s: State, e: Event, c: ConnId)
    requires Enabled(cfg, s, e) && c in s.conns
    ensures c in Step(cfg, s, e).conns
  {
    if Owner(e) == Some(c) {
      OwnStep(cfg, s, e, c);
    } else {
      OthersOnlySend(cfg, s, e, c);
    }
  }

  // ---- Announcements ----

  /** At step `j` a record joins or leaves, and `m` tells so the record `to`: of an arrival and of a
      departure by the sweep a record of the same network; of a departure by a teardown one of the
      network its session registered on, which need not be that of the record it takes. */
  ghost predicate AnnouncedAt(cfg: Config, r: Run, j: nat, to: PeerId, d: ConnId, m: Message)
    requires IsRun(cfg, r) && j < |r.events|
  {
    var s, e := r.states[j], r.events[j];
    assert StepAt(cfg, r, j);
    if m.PeerConnected? then e.Commit? && Welcomed(cfg, s, e.c, to, m) && Entered(s, e.c)[to].chan == d
    else
      && m.PeerDisconnected? && to in s.registry && s.registry[to].chan == d && m.gone in s.registry
      && RemovedBy(cfg, s, e, m.gone)
      && if e.Sweep? then s.registry[to].network == s.registry[m.gone].network
         else Some(s.registry[to].network) == LastRegistered(cfg, r, e.c, j).network
  }

  /** Every queued announcement was of a record that joined or left at that step, to one on that
      network. */
  lemma AnnouncementsStayOnTheNetwork(cfg: Config, r: Run, i: nat, d: ConnId, m: Message)
    requires IsRun(cfg, r) && i < |r.states| && d in r.states[i].conns && m in r.states[i].conns[d].queue
    requires m.PeerConnected? || m.PeerDisconnected?
    ensures exists j: nat, to | j < i :: AnnouncedAt(cfg, r, j, to, d, m)
  {
    EverythingIsAccounted(cfg, r, i);
    assert ConnAccounted(cfg, r, i, d);
    var j: nat :| 0 <= j < i && OriginAt(cfg, r, j, d, m);
    var to := OriginAnnounces(cfg, r, j, d, m);
  }

  lemma OriginAnnounces(cfg: Config, r: Run, j: nat, d: ConnId, m: Message) returns (to: PeerId)
    requires IsRun(cfg, r) && j < |r.events| && (m.PeerConnected? || m.PeerDisconnected?)
    requires OriginAt(cfg, r, j, d, m)
    ensures AnnouncedAt(cfg, r, j, to, d, m)
  {
    var s, e := r.states[j], r.events[j];
    to :| Addressed(cfg, s, e, to, d, m);
    if e.Deregister? {
      SessionIsLastRegistered(cfg, r, j, e.c);
    }
  }

  // ---- Each send is tried once ----

  /** Until its sends are all tried, a connection does nothing but try the next one. */
  lemma SendsInOrder(cfg: Config, s: State, e: Event, c: ConnId)
    requires Enabled(cfg, s, e) && c in s.conns && s.conns[c].todo != []
    ensures c in Step(cfg, s, e).conns
    ensures Step(cfg, s, e).conns[c].todo == if e == Deliver(c) then s.conns[c].todo[1..] else s.conns[c].todo
  {
    if Owner(e) != Some(c) {
      OthersOnlySend(cfg, s, e, c);
    } else if e.Deliver? {
      assert DeliverStep(cfg, s, c).conns[c].todo == s.conns[c].todo[1..];
    }
  }

  ghost predicate Sending(r: Run, i: nat, c: ConnId)
    requires i < |r.states|
  {
    c in r.states[i].conns && r.states[i].conns[c].todo != []
  }

  /** The sends connection `c` tries in the steps from `i` to `k`. */
  ghost function Tried(r: Run, c: ConnId, i: nat, k: nat): seq<Send>
    requires i <= k < |r.states| == |r.events| + 1 && forall l | i <= l < k :: Sending(r, l, c)
  {
    if k == i then []
    else
      assert Sending(r, k - 1, c);
      Tried(r, c, i, k - 1) + if r.events[k - 1] == Deliver(c) then [r.states[k - 1].conns[c].todo[0]] else []
  }

  lemma {:induction false} TriedInOrder(cfg: Config, r: Run, c: ConnId, i: nat, k: nat)
    requires IsRun(cfg, r) && i <= k < |r.states| && c in r.states[i].conns && forall l | i <= l < k :: Sending(r, l, c)
    ensures c in r.states[k].conns && r.states[i].conns[c].todo == Tried(r, c, i, k) + r.states[k].conns[c].todo
    decreases k
  {
    if i < k {
      TriedInOrder(cfg, r, c, i, k - 1);
      assert Sending(r, k - 1, c);
      TriesTheFirst(cfg, r, c, k - 1);
    }
  }

  lemma TriesTheFirst(cfg: Config, r: Run, c: ConnId, k: nat)
    requires IsRun(cfg, r) && k < |r.events| && Sending(r, k, c)
    ensures c in r.states[k + 1].conns
    ensures var todo, left := r.states[k].conns[c].todo, r.states[k + 1].conns[c].todo;
            todo == (if r.events[k] == Deliver(c) then [todo[0]] else []) + left
  {
    assert StepAt(cfg, r, k);
    SendsInOrder(cfg, r.states[k], r.events[k], c);
    var todo := r.states[k].conns[c].todo;
    assert todo == [todo[0]] + todo[1..];
  }

  /** The sends go to the records of `ids`, each exactly once, and nowhere else. */
  ghost predicate EachOnce(reg: Registry, ids: set<PeerId>, msg: Message, sends: seq<Send>) {
    && (forall n | n in sends ::
          n.to.Some? && n.to.value in ids && n.to.value in reg && n == Send(reg[n.to.value].chan, msg, n.to))
    && (forall id | id in ids :: exists i :: 0 <= i < |sends| && sends[i].to == Some(id))
    && (forall i, j | 0 <= i < j < |sends| :: sends[i].to != sends[j].to)
  }

  lemma SendsToEachOnce(
      reg: Registry, told: seq<PeerId>, from: PeerId, network: NetworkId, exclude: seq<PeerId>, msg: Message)
    requires Lists(told, Targets(reg, from, network, exclude))
    ensures (forall id | id in told :: id in reg)
         && EachOnce(reg, Targets(reg, from, network, exclude), msg, SendsTo(reg, told, msg))
  {
    var ids := Targets(reg, from, network, exclude);
    ListsOnly(told, ids);
    var sends := SendsTo(reg, told, msg);
    forall id | id in ids
      ensures exists i :: 0 <= i < |sends| && sends[i].to == Some(id)
    {
      var i :| 0 <= i < |told| && told[i] == id;
      assert sends[i].to == Some(id);
    }
  }

  lemma AllTried(cfg: Config, r: Run, c: ConnId, i: nat, k: nat)
    requires IsRun(cfg, r) && i <= k < |r.states| && c in r.states[i].conns && forall l | i <= l < k :: Sending(r, l, c)
    requires c in r.states[k].conns && r.states[k].conns[c].todo == []
    ensures Tried(r, c, i, k) == r.states[i].conns[c].todo
  {
    TriedInOrder(cfg, r, c, i, k);
  }
}
