/** What a frame leads to and what every queued message comes from, said of the frames that arrive. */
module BrokerFrames {
  import opened Net
  import opened Wire
  import opened Limits
  import opened Broker
  import opened BrokerInvariant
  import opened BrokerRuns
  import opened BrokerOrigins
  import opened BrokerQueues
  import opened BrokerRelay
  import Dial

  /** Step `i` is the last of connection `c`'s task before state `j`, and takes in a frame. */
  ghost predicate FrameBefore(r: Run, i: nat, j: nat, c: ConnId)
    requires j < |r.states| == |r.events| + 1
  {
    i < j && r.events[i].Arrive? && r.events[i].c == c && forall l | i < l < j :: !OwnTask(r.events[l], c)
  }

  ghost function ActionFor(session: Session, frame: Option<Message>): Action {
    if frame.Some? then Dispatch(session, frame.value) else Fail(BAD_MESSAGE)
  }

  /** The frame behind a pending action. */
  lemma {:induction false} PendingSince(cfg: Config, r: Run, j: nat, c: ConnId) returns (i: nat)
    requires IsRun(cfg, r) && j < |r.states| && c in r.states[j].conns && r.states[j].conns[c].phase.Pending?
    ensures FrameBefore(r, i, j, c) && r.states[j].conns[c].todo == []
    ensures r.states[j].conns[c].phase.action == ActionFor(r.states[j].conns[c].session, r.events[i].frame)
  {
    var s, e := r.states[j - 1], r.events[j - 1];
    assert StepAt(cfg, r, j - 1);
    if OwnTask(e, c) {
      OwnStep(cfg, s, e, c);
      if e.Arrive? {
        i := j - 1;
      } else {
        i := PendingSince(cfg, r, j - 1, c);
      }
    } else {
      OthersKeepTask(cfg, s, e, c);
      i := PendingSince(cfg, r, j - 1, c);
    }
  }

  // ---- The answer to a frame ----

  /** The message to the record `to` if it is on the session's network, else an error back. */
  ghost predicate Forwarded(reg: Registry, c: ConnId, session: Session, to: PeerId, m: Message, sends: seq<Send>) {
    if to in reg && session.network == Some(reg[to].network) then sends == [Send(reg[to].chan, m, Some(to))]
    else sends == [Send(c, Error(PEER_NOT_FOUND), None)]
  }

  /** The message to every record of the session's network but its own and the excluded ones, once each. */
  ghost predicate FannedOut(reg: Registry, session: Session, exclude: seq<PeerId>, m: Message, sends: seq<Send>) {
    var ids :=
      set id | id in reg && session.network == Some(reg[id].network) && session.peer != Some(id) && id !in exclude;
    EachOnce(reg, ids, m, sends)
  }

  /** The descriptions of the records of the wanted network, or of all. */
  ghost predicate Describes(reg: Registry, wanted: Option<NetworkId>, infos: set<PeerInfo>) {
    forall p :: p in infos <==>
      exists id :: id in reg && reg[id].info == p && (wanted == None || wanted == Some(reg[id].network))
  }

  /** What a frame of connection `c` is answered with, registered as `session` says, given the registry. */
  ghost predicate Answers(frame: Option<Message>, session: Session, c: ConnId, reg: Registry, sends: seq<Send>) {
    if frame.None? then sends == [Send(c, Error(BAD_MESSAGE), None)]
    else if frame.value.GetPeers? then
      var wanted := if frame.value.network.Some? then frame.value.network else session.network;
      exists infos :: sends == [Send(c, Peers(infos), None)] && Describes(reg, wanted, infos)
    else if session.peer.None? then sends == [Send(c, Error(NOT_REGISTERED), None)]
    else
      var id := session.peer.value;
      match frame.value
      case Gossip(_, to, payload, seqNo) => Forwarded(reg, c, session, to, Gossip(id, to, payload, seqNo), sends)
      case Broadcast(_, data, exclude) => FannedOut(reg, session, exclude, Broadcast(id, data, []), sends)
      case HolePunchRequest(_, target, addr) => Forwarded(reg, c, session, target, HolePunchCoordinate(id, addr), sends)
      case HolePunchResult(about, punched) => Forwarded(reg, c, session, about, HolePunchResult(about, punched), sends)
      case Ping(t) => sends == [Send(c, Pong(t), None)]
      case GetDhtRecords(_) => sends == [Send(c, Error(BAD_MESSAGE), None)]
      case _ => sends == []
  }

  lemma FanOutAnswers(cfg: Config, s: State, c: ConnId, told: seq<PeerId>)
    requires Enabled(cfg, s, Act(c, told)) && s.conns[c].phase.action.FanOut? && s.conns[c].session.network.Some?
    requires s.conns[c].session.peer == Some(s.conns[c].phase.action.from)
    ensures var a := s.conns[c].phase.action;
            && c in ActNow(cfg, s, c, told).conns
            && FannedOut(s.registry, s.conns[c].session, a.exclude, a.msg, ActNow(cfg, s, c, told).conns[c].todo)
  {
    var a, session := s.conns[c].phase.action, s.conns[c].session;
    SendsToEachOnce(s.registry, told, a.from, session.network.value, a.exclude, a.msg);
    assert Targets(s.registry, a.from, session.network.value, a.exclude)
        == set id | id in s.registry && session.network == Some(s.registry[id].network) && session.peer != Some(id)
                    && id !in a.exclude;
  }

  lemma ListAnswers(cfg: Config, s: State, c: ConnId, told: seq<PeerId>)
    requires Enabled(cfg, s, Act(c, told)) && s.conns[c].phase.action.ListPeers?
    ensures c in ActNow(cfg, s, c, told).conns
    ensures exists infos ::
              && ActNow(cfg, s, c, told).conns[c].todo == [Send(c, Peers(infos), None)]
              && Describes(s.registry, s.conns[c].phase.action.filter, infos)
  {
    var filter := s.conns[c].phase.action.filter;
    var infos :=
      set id | id in s.registry && (filter == None || filter == Some(s.registry[id].network)) :: s.registry[id].info;
    assert Describes(s.registry, filter, infos);
    assert ActNow(cfg, s, c, told).conns[c].todo == [Send(c, Peers(infos), None)];
  }

  lemma ActAnswers(cfg: Config, s: State, c: ConnId, told: seq<PeerId>, frame: Option<Message>)
    requires Enabled(cfg, s, Act(c, told)) && s.conns[c].phase.action == ActionFor(s.conns[c].session, frame)
    requires s.conns[c].session.peer.Some? <==> s.conns[c].session.network.Some?
    ensures c in ActNow(cfg, s, c, told).conns
    ensures Answers(frame, s.conns[c].session, c, s.registry, ActNow(cfg, s, c, told).conns[c].todo)
    ensures ActNow(cfg, s, c, told).conns[c].phase ==
              if frame.Some? && frame.value.Unregister? && s.conns[c].session.peer.Some? then Closing else Idle
  {
    if s.conns[c].phase.action.FanOut? {
      FanOutAnswers(cfg, s, c, told);
    } else if s.conns[c].phase.action.ListPeers? {
      ListAnswers(cfg, s, c, told);
    }
  }

  /** Whatever runs in between, the step that acts on a frame lists exactly its answer, in the name its
      connection last registered and from the registry at that step; and the connection is done only
      after an unregistration. */
  lemma FrameIsAnswered(cfg: Config, r: Run, j: nat, c: ConnId, told: seq<PeerId>) returns (i: nat)
    requires IsRun(cfg, r) && j < |r.events| && r.events[j] == Act(c, told)
    ensures FrameBefore(r, i, j, c) && c in r.states[j + 1].conns
    ensures Answers(r.events[i].frame, LastRegistered(cfg, r, c, j), c, r.states[j].registry,
                    r.states[j + 1].conns[c].todo)
    ensures var frame, session := r.events[i].frame, LastRegistered(cfg, r, c, j);
            r.states[j + 1].conns[c].phase ==
              if frame.Some? && frame.value.Unregister? && session.peer.Some? then Closing else Idle
  {
    assert StepAt(cfg, r, j);
    RunInv(cfg, r, j);
    assert ConnOk(cfg, r.states[j].now, r.states[j].conns, r.states[j].conns[c]);
    i := PendingSince(cfg, r, j, c);
    SessionIsLastRegistered(cfg, r, j, c);
    ActAnswers(cfg, r.states[j], c, told, r.events[i].frame);
  }

  /** And every frame leads to it: the next step of its connection's task asks for the slot of a
      registration, or is the step that answers. */
  lemma FrameLeadsToItsAnswer(cfg: Config, r: Run, i: nat, j: nat, c: ConnId)
    requires IsRun(cfg, r) && i < j < |r.events| && FrameBefore(r, i, j, c) && OwnTask(r.events[j], c)
    ensures if r.events[i].frame.Some? && r.events[i].frame.value.Register? then r.events[j].Reserve?
            else
              && r.events[j].Act? && c in r.states[j + 1].conns
              && Answers(r.events[i].frame, LastRegistered(cfg, r, c, j), c, r.states[j].registry,
                         r.states[j + 1].conns[c].todo)
  {
    StillPending(cfg, r, i, j, c);
    assert StepAt(cfg, r, j);
    if r.events[j].Act? {
      var i' := FrameIsAnswered(cfg, r, j, c, r.events[j].told);
      assert i' == i by {
        assert OwnTask(r.events[i], c) && OwnTask(r.events[i'], c);
      }
    }
  }

  lemma {:induction false} StillPending(cfg: Config, r: Run, i: nat, j: nat, c: ConnId)
    requires IsRun(cfg, r) && i < j < |r.states| && FrameBefore(r, i, j, c)
    ensures c in r.states[j].conns && r.states[j].conns[c].todo == []
    ensures r.states[j].conns[c].phase == Pending(ActionFor(r.states[j].conns[c].session, r.events[i].frame))
    decreases j
  {
    assert StepAt(cfg, r, j - 1);
    if j > i + 1 {
      StillPending(cfg, r, i, j - 1, c);
      OthersKeepTask(cfg, r.states[j - 1], r.events[j - 1], c);
    }
  }

  // ---- What is queued was asked for ----

  /** The frame asks for the message `m` to the record `to`. */
  ghost predicate AsksFor(frame: Message, m: Message, to: PeerId) {
    match m
    case Gossip(_, name, payload, seqNo) =>
      frame.Gossip? && to == name == frame.to && payload == frame.payload && seqNo == frame.seqNo
    case Broadcast(_, data, exclude) =>
      frame.Broadcast? && data == frame.data && exclude == [] && to !in frame.exclude
    case HolePunchCoordinate(_, addr) =>
      frame.HolePunchRequest? && to == frame.target && addr == frame.externalAddr
    case HolePunchResult(about, _) => frame == m && to == about
    case _ => false
  }

  /** At step `i` a frame of connection `c` asks for `m` to the record `to`, which at step `j` is connection
      `d`'s and on the network `c` last registered on; and `m` names the id of that registration. */
  ghost predicate RelayedAt(cfg: Config, r: Run, i: nat, j: nat, c: ConnId, to: PeerId, d: ConnId, m: Message)
    requires IsRun(cfg, r) && i < j < |r.events|
  {
    var s := r.states[j];
    && FrameBefore(r, i, j, c) && r.events[i].frame.Some? && AsksFor(r.events[i].frame.value, m, to)
    && to in s.registry && s.registry[to].chan == d && c in s.conns
    && LastRegistered(cfg, r, c, j).network == Some(s.registry[to].network)
    && (Stamped(m) ==> LastRegistered(cfg, r, c, j).peer == Some(Stamp(m)))
    && (Stamped(m) && s.conns[c].verified.Some? ==> s.conns[c].verified.value == Stamp(m))
    && (m.Broadcast? ==> to != Stamp(m))
  }

  /** Every gossip, broadcast or hole-punch message ever queued was asked for by a frame, and relayed as
      it asked, under the id its connection last registered, to a record on that registration's network. */
  lemma RelayedMessagesAreAuthentic(cfg: Config, r: Run, k: nat, d: ConnId, m: Message)
    requires IsRun(cfg, r) && k < |r.states| && d in r.states[k].conns && m in r.states[k].conns[d].queue
    requires Stamped(m) || m.HolePunchResult?
    ensures exists i: nat, j: nat, c, to | i < j < k :: RelayedAt(cfg, r, i, j, c, to, d, m)
  {
    EverythingIsAccounted(cfg, r, k);
    assert ConnAccounted(cfg, r, k, d);
    var j: nat :| 0 <= j < k && OriginAt(cfg, r, j, d, m);
    var s, e := r.states[j], r.events[j];
    var known :| Addressed(cfg, s, e, known, d, m);
    var name :| ListedBy(cfg, s, e, Send(d, m, name));
    assert StepAt(cfg, r, j);
    var i, to := RelayIsAuthentic(cfg, r, j, e.c, e.told, Send(d, m, name));
    assert i < j < k && RelayedAt(cfg, r, i, j, e.c, to, d, m);
  }

  lemma RelayIsAuthentic(cfg: Config, r: Run, j: nat, c: ConnId, told: seq<PeerId>, n: Send)
    returns (i: nat, to: PeerId)
    requires IsRun(cfg, r) && j < |r.events| && r.events[j] == Act(c, told) && c in r.states[j + 1].conns
    requires n in r.states[j + 1].conns[c].todo && (Stamped(n.msg) || n.msg.HolePunchResult?)
    ensures i < j && RelayedAt(cfg, r, i, j, c, to, n.chan, n.msg)
  {
    assert StepAt(cfg, r, j);
    i := FrameIsAnswered(cfg, r, j, c, told);
    to := AnswerIsAuthentic(r.events[i].frame, LastRegistered(cfg, r, c, j), c, r.states[j].registry,
                            r.states[j + 1].conns[c].todo, n);
    CertifiedName(cfg, r, j, c);
  }

  lemma AnswerIsAuthentic(frame: Option<Message>, session: Session, c: ConnId, reg: Registry, sends: seq<Send>, n: Send)
    returns (to: PeerId)
    requires Answers(frame, session, c, reg, sends) && n in sends && (Stamped(n.msg) || n.msg.HolePunchResult?)
    ensures frame.Some? && AsksFor(frame.value, n.msg, to) && to in reg && reg[to].chan == n.chan
    ensures session.network == Some(reg[to].network) && (Stamped(n.msg) ==> session.peer == Some(Stamp(n.msg)))
    ensures n.msg.Broadcast? ==> to != Stamp(n.msg)
  {
    to := n.to.value;
  }

  /** A connection with a certificate has registered no other id than the certificate's. */
  lemma CertifiedName(cfg: Config, r: Run, j: nat, c: ConnId)
    requires IsRun(cfg, r) && j < |r.states| && c in r.states[j].conns
    ensures r.states[j].conns[c].verified.Some? && LastRegistered(cfg, r, c, j).peer.Some? ==>
              LastRegistered(cfg, r, c, j).peer == r.states[j].conns[c].verified
  {
    RunInv(cfg, r, j);
    assert ConnOk(cfg, r.states[j].now, r.states[j].conns, r.states[j].conns[c]);
    SessionIsLastRegistered(cfg, r, j, c);
  }

  // ---- What is asked for is sent ----

  /** A broadcast frame is tried, with its own data, once on every record of its connection's network
      outside its own and the excluded ones, and on no other, whatever runs in between. */
  lemma BroadcastTriesEachOnce(cfg: Config, r: Run, i: nat, j: nat, k: nat, c: ConnId)
    requires IsRun(cfg, r) && i < j < k < |r.states| && FrameBefore(r, i, j, c) && OwnTask(r.events[j], c)
    requires r.events[i].frame.Some? && r.events[i].frame.value.Broadcast? && LastRegistered(cfg, r, c, j).peer.Some?
    requires c in r.states[k].conns && r.states[k].conns[c].todo == [] && forall l | j < l < k :: Sending(r, l, c)
    ensures var session, frame, reg := LastRegistered(cfg, r, c, j), r.events[i].frame.value, r.states[j].registry;
            FannedOut(reg, session, frame.exclude, Broadcast(session.peer.value, frame.data, []), Tried(r, c, j + 1, k))
  {
    FrameLeadsToItsAnswer(cfg, r, i, j, c);
    AllTried(cfg, r, c, j + 1, k);
  }

  /** The next step of a connection with something to send tries the first of it, and that joins the
      queue of its channel if it is open and has room. */
  lemma FirstIsSentNext(cfg: Config, r: Run, j: nat, k: nat, c: ConnId, n: Send)
    requires IsRun(cfg, r) && j <= k < |r.events| && c in r.states[j].conns && r.states[j].conns[c].todo != []
    requires n == r.states[j].conns[c].todo[0]
    requires (forall l | j <= l < k :: !OwnTask(r.events[l], c)) && OwnTask(r.events[k], c)
    ensures r.events[k] == Deliver(c)
    ensures OpenChannel(r.states[k], n.chan) && |r.states[k].conns[n.chan].queue| < cfg.queueCapacity ==>
              && OpenChannel(r.states[k + 1], n.chan)
              && r.states[k + 1].conns[n.chan].queue == r.states[k].conns[n.chan].queue + [n.msg]
  {
    StillToSend(cfg, r, j, k, c);
    assert StepAt(cfg, r, k);
    if OpenChannel(r.states[k], n.chan) && |r.states[k].conns[n.chan].queue| < cfg.queueCapacity {
      RoomMeansQueued(cfg, r, n.chan, k, n.msg);
    }
  }

  lemma {:induction false} StillToSend(cfg: Config, r: Run, j: nat, k: nat, c: ConnId)
    requires IsRun(cfg, r) && j <= k < |r.states| && c in r.states[j].conns
    requires forall l | j <= l < k :: !OwnTask(r.events[l], c)
    ensures c in r.states[k].conns && AsBefore(r.states[j].conns[c], r.states[k].conns[c])
    decreases k
  {
    if j < k {
      StillToSend(cfg, r, j, k - 1, c);
      assert StepAt(cfg, r, k - 1);
      OthersKeepTask(cfg, r.states[k - 1], r.events[k - 1], c);
    }
  }

  /** End to end: a gossip frame of a registered connection to a record on its network, once its
      connection's task has taken its two steps, is last in that record's queue with its own payload and
      number, unless the channel is closed or full. */
  lemma GossipArrives(cfg: Config, r: Run, i: nat, j: nat, k: nat, c: ConnId)
    requires IsRun(cfg, r) && i < j < k < |r.events| && FrameBefore(r, i, j, c) && OwnTask(r.events[j], c)
    requires (forall l | j < l < k :: !OwnTask(r.events[l], c)) && OwnTask(r.events[k], c)
    requires r.events[i].frame.Some? && r.events[i].frame.value.Gossip? && LastRegistered(cfg, r, c, j).peer.Some?
    requires var to, reg := r.events[i].frame.value.to, r.states[j].registry;
             to in reg && LastRegistered(cfg, r, c, j).network == Some(reg[to].network)
    ensures var f := r.events[i].frame.value;
            var d := r.states[j].registry[f.to].chan;
            OpenChannel(r.states[k], d) && |r.states[k].conns[d].queue| < cfg.queueCapacity ==>
              && OpenChannel(r.states[k + 1], d)
              && r.states[k + 1].conns[d].queue == r.states[k].conns[d].queue
                   + [Gossip(LastRegistered(cfg, r, c, j).peer.value, f.to, f.payload, f.seqNo)]
  {
    FrameLeadsToItsAnswer(cfg, r, i, j, c);
    FirstIsSentNext(cfg, r, j + 1, k, c, r.states[j + 1].conns[c].todo[0]);
  }

  // ---- Registrations ----

  /** The registration is refused: nothing but its two replies. */
  ghost predicate RefusedWith(s: State, s': State, c: ConnId, code: U32) {
    && c in s'.conns && s'.registry == s.registry
    && s'.conns[c].todo == [Send(c, RegisterAck(false, |s.registry|), None), Send(c, Error(code), None)]
  }

  /** The registration is entered: its record, its acknowledgement, and one announcement of it to each
      other record of its network. */
  ghost predicate EnteredAs(s: State, s': State, c: ConnId, ask: Message)
    requires ask.Register? && c in s.conns
  {
    var info := PeerInfo(ask.peerId, ask.networkId, ask.version, Dial.Published(ask.listenAddrs, s.conns[c].ip));
    && s'.registry == s.registry[ask.peerId := Peer(ask.networkId, info, c)] && c in s'.conns
    && s'.conns[c].todo != [] && s'.conns[c].todo[0] == Send(c, RegisterAck(true, |s'.registry|), None)
    && var others := set id | id in s'.registry && s'.registry[id].network == ask.networkId && id != ask.peerId;
       EachOnce(s'.registry, others, PeerConnected(info), s'.conns[c].todo[1..])
  }

  /** The outcome of a registration before the registry: refused for a certificate of another id, a full
      registry or an id an open channel holds, in that order, or entered. */
  ghost predicate Decided(cfg: Config, s: State, s': State, c: ConnId, ask: Message)
    requires ask.Register? && c in s.conns
  {
    var x, id := s.conns[c], ask.peerId;
    if x.verified.Some? && x.verified.value != id then RefusedWith(s, s', c, IDENTITY_MISMATCH)
    else if |s.registry| >= cfg.maxConnections then RefusedWith(s, s', c, CAPACITY)
    else if id in s.registry && s.registry[id].chan in s.conns && s.conns[s.registry[id].chan].open
    then RefusedWith(s, s', c, ID_IN_USE)
    else EnteredAs(s, s', c, ask)
  }

  lemma CommitDecides(cfg: Config, s: State, c: ConnId, told: seq<PeerId>, ask: Message)
    requires Enabled(cfg, s, Commit(c, told)) && ask.Register?
    requires s.conns[c].phase == Phase.Reserved(ask.peerId, ask.networkId, ask.version, ask.listenAddrs)
    ensures Decided(cfg, s, CommitNow(cfg, s, c, told), c, ask)
  {
    if Refusal(cfg, s, c).None? {
      CommitEnters(cfg, s, c, told, ask);
    }
  }

  lemma CommitEnters(cfg: Config, s: State, c: ConnId, told: seq<PeerId>, ask: Message)
    requires Enabled(cfg, s, Commit(c, told)) && ask.Register? && Refusal(cfg, s, c).None?
    requires s.conns[c].phase == Phase.Reserved(ask.peerId, ask.networkId, ask.version, ask.listenAddrs)
    ensures EnteredAs(s, CommitNow(cfg, s, c, told), c, ask)
  {
    var s', reg := CommitNow(cfg, s, c, told), Entered(s, c);
    var news := PeerConnected(reg[ask.peerId].info);
    SendsToEachOnce(reg, told, ask.peerId, ask.networkId, [], news);
    assert Targets(reg, ask.peerId, ask.networkId, [])
        == set id | id in reg && reg[id].network == ask.networkId && id != ask.peerId;
    var ack, rest := Self(c, [RegisterAck(true, |reg|)]), SendsTo(reg, told, news);
    assert s'.conns[c].todo == ack + rest && (ack + rest)[0] == ack[0] && (ack + rest)[1..] == rest;
  }

  /** Whatever runs in between, a registration at the registry is decided by its own frame and the registry
      at that step, and answered accordingly. */
  lemma RegistrationIsDecided(cfg: Config, r: Run, j: nat, c: ConnId, told: seq<PeerId>) returns (i: nat)
    requires IsRun(cfg, r) && j < |r.events| && r.events[j] == Commit(c, told)
    ensures i < j && r.events[i].Arrive? && r.events[i].c == c
    ensures forall l | i < l < j && Owner(r.events[l]) == Some(c) :: !r.events[l].Arrive?
    ensures r.events[i].frame.Some? && r.events[i].frame.value.Register? && c in r.states[j].conns
    ensures Decided(cfg, r.states[j], r.states[j + 1], c, r.events[i].frame.value)
  {
    assert StepAt(cfg, r, j);
    var reserved := ReservedSince(cfg, r, j, c);
    i := PendingSince(cfg, r, reserved, c);
    forall l | i < l < j && Owner(r.events[l]) == Some(c)
      ensures !r.events[l].Arrive?
    {
      assert l < reserved ==> !OwnTask(r.events[l], c);
      assert l > reserved ==> !OwnTask(r.events[l], c);
    }
    CommitDecides(cfg, r.states[j], c, told, r.events[i].frame.value);
  }

  lemma SlotIsFree(counts: map<IpKey, U32>, key: IpKey, n: nat, cap: U32)
    requires CountIs(counts, key, n, cap)
    ensures CanTake(counts, key, cap) <==> cap == 0 || n < cap
  {
  }

  /** Whatever runs in between, a registration frame gets a slot exactly when the limiter grants it and its
      source holds fewer than the cap; else it is refused and its connection ends. */
  lemma ReservationIsDecided(cfg: Config, r: Run, j: nat, c: ConnId, granted: bool) returns (i: nat)
    requires IsRun(cfg, r) && j < |r.events| && r.events[j] == Reserve(c, granted)
    ensures FrameBefore(r, i, j, c) && r.events[i].frame.Some? && r.events[i].frame.value.Register?
    ensures c in r.states[j].conns && c in r.states[j + 1].conns
    ensures var s, s', ask := r.states[j], r.states[j + 1], r.events[i].frame.value;
            var held := RegSlots(s.conns, KeyOf(s.conns[c].ip));
            if granted && (cfg.maxRegsPerIp == 0 || held < cfg.maxRegsPerIp) then
              && s'.conns[c].phase == Phase.Reserved(ask.peerId, ask.networkId, ask.version, ask.listenAddrs)
              && s'.conns[c].todo == [] && RegSlots(s'.conns, KeyOf(s.conns[c].ip)) == held + 1
            else RefusedWith(s, s', c, RATE_LIMITED) && s'.conns[c].phase.Closing?
  {
    var s := r.states[j];
    assert StepAt(cfg, r, j);
    i := PendingSince(cfg, r, j, c);
    RunInv(cfg, r, j);
    var key := KeyOf(s.conns[c].ip);
    assert SlotsOkFor(cfg, s.conns, s.connCount, s.regCount, key);
    SlotIsFree(s.regCount, key, RegSlots(s.conns, key), cfg.maxRegsPerIp);
    RegSlotsUpdate(s.conns, c, r.states[j + 1].conns[c], key);
    ReserveDecides(cfg, s, c, granted);
  }

  lemma ReserveDecides(cfg: Config, s: State, c: ConnId, granted: bool)
    requires Enabled(cfg, s, Reserve(c, granted)) && s.connected == |s.registry|
    ensures var s', a := ReserveStep(cfg, s, c, granted), s.conns[c].phase.action;
            && c in s'.conns && s'.conns == s.conns[c := s'.conns[c]] && s'.conns[c].ip == s.conns[c].ip
            && s'.conns[c].holdsReg == s.conns[c].holdsReg
            && if granted && CanTake(s.regCount, KeyOf(s.conns[c].ip), cfg.maxRegsPerIp) then
                 && s'.conns[c].phase == Phase.Reserved(a.peerId, a.networkId, a.version, a.listenAddrs)
                 && s'.conns[c].todo == []
               else RefusedWith(s, s', c, RATE_LIMITED) && s'.conns[c].phase.Closing?
  {
  }

  // ---- Departures ----

  /** A teardown that takes a record tells each remaining record of its session's network of it, once, and
      one that takes none tells nobody. */
  lemma TeardownIsAnnounced(cfg: Config, r: Run, k: nat, c: ConnId, told: seq<PeerId>)
    requires IsRun(cfg, r) && k < |r.events| && r.events[k] == Deregister(c, told)
    ensures c in r.states[k + 1].conns
    ensures var session, reg, left := LastRegistered(cfg, r, c, k), r.states[k].registry, r.states[k + 1].registry;
            var sends := r.states[k + 1].conns[c].todo;
            if session.peer.Some? && session.peer.value in reg then
              && left == reg - {session.peer.value}
              && var others := set id | id in left && session.network == Some(left[id].network);
                 EachOnce(left, others, PeerDisconnected(session.peer.value), sends)
            else left == reg && sends == []
  {
    var s := r.states[k];
    assert StepAt(cfg, r, k);
    RunInv(cfg, r, k);
    assert ConnOk(cfg, s.now, s.conns, s.conns[c]);
    SessionIsLastRegistered(cfg, r, k, c);
    if Departing(s, c).Some? {
      var id, network := Departing(s, c).value, s.conns[c].session.network.value;
      var left := s.registry - {id};
      SendsToEachOnce(left, told, id, network, [], PeerDisconnected(id));
      assert Targets(left, id, network, []) == set x | x in left && Some(network) == Some(left[x].network);
    }
  }
}
