/** The relay's shared state and the blocks of code that change it under one lock, proved against the
    broker's own step functions: what a registration enters, what a teardown and a sweep take out, whom
    each has to tell. */
module Server {
  import opened Net
  import opened Buckets
  import opened RateHistory
  import opened StrikeHistory
  import opened Limits
  import opened Wire
  import opened Broker
  import opened BrokerSweep
  import opened RelayRegistry
  import Dial

  // ---- Sending ----

  function Push(link: Link, capacity: nat, m: Message): Link {
    link.(queue := Queued(link.queue, link.open, capacity, m))
  }

  /** The sends try one message on each of the targets, in order. */
  ghost predicate SendsAre(sends: seq<Send>, targets: seq<ConnId>, m: Message) {
    |sends| == |targets| && forall i | 0 <= i < |sends| :: sends[i].chan == targets[i] && sends[i].msg == m
  }

  lemma LinkedMore(peers: Registry, links: Links, id: PeerId, p: Peer)
    requires Linked(peers, links) && p.chan in links
    ensures Linked(peers[id := p], links) && |peers[id := p]| == if id in peers then |peers| else |peers| + 1
  {
    assert peers[id := p].Keys == peers.Keys + {id};
  }

  /** One connection, as its own loop sees it: its handle, its observed source and its variables. */
  class Connection {
    const chan: ConnId
    const ip: Ip
    const verified: Option<PeerId>
    var session: Session
    var regSlot: Option<Slot>

    constructor (chan: ConnId, ip: Ip, verified: Option<PeerId>)
      ensures this.chan == chan && this.ip == ip && this.verified == verified
      ensures session == Session(None, None) && regSlot == None
    {
      this.chan, this.ip, this.verified, session, regSlot := chan, ip, verified, Session(None, None), None;
    }
  }

  /** A refusal is one strike of its source, unless strikes are disabled; anything else is none. */
  ghost predicate Struck(
      refused: bool, log: seq<Strike>, bans: map<IpKey, U64>, log': seq<Strike>, key: IpKey, now: U64, rule: BanRule,
      max: nat)
  {
    if refused && rule.threshold > 0 then Recorded(log, bans, log', key, now, rule, max) else log' == log
  }

  class RelayState {
    const cfg: Config
    const registry: PeerRegistry
    const abuse: AbusePolicy
    var connected: U64
    var links: Links

    /** The counter is the registry's size, within capacity, and every record's channel is there. */
    ghost predicate Counted()
      reads this`connected, this`links, registry`peers
    {
      connected == |registry.peers| <= cfg.maxConnections && Linked(registry.peers, links)
    }

    constructor (cfg: Config, abuse: AbusePolicy)
      ensures this.cfg == cfg && this.abuse == abuse && fresh(registry) && registry.peers == map[] && links == map[]
      ensures Counted()
    {
      this.cfg, this.abuse, connected, links := cfg, abuse, 0, map[];
      registry := new PeerRegistry();
    }

    /** One `try_send`: a full or closed channel drops the message. */
    method TrySend(to: ConnId, m: Message)
      requires to in links
      modifies this`links
      ensures links == old(links)[to := Push(old(links)[to], cfg.queueCapacity, m)]
      ensures var was := old(links)[to];
              links[to] == if was.open && |was.queue| < cfg.queueCapacity then was.(queue := was.queue + [m]) else was
    {
      links := links[to := Push(links[to], cfg.queueCapacity, m)];
    }

    /** Take `id` out of the registry, if it is there, and list the records of `network` left to tell. */
    method RemoveLocked(id: PeerId, network: NetworkId) returns (targets: Option<seq<ConnId>>, ghost told: seq<PeerId>)
      requires Counted()
      modifies this`connected, registry`peers
      ensures Counted() && registry.peers == old(registry.peers) - {id}
      ensures targets.Some? <==> id in old(registry.peers)
      ensures targets.Some? ==>
                && connected == Decrement(old(connected)) == old(connected) - 1
                && Lists(told, Targets(registry.peers, id, network, [])) && Paired(registry.peers, targets.value, told)
    {
      targets, told := None, [];
      var removed := registry.Unregister(id);
      if removed.Some? {
        assert registry.peers.Keys == old(registry.peers).Keys - {id};
        connected := Decrement(connected);
        var list;
        list, told := registry.BroadcastTargets(id, network, []);
        targets := Some(list);
      }
    }

    /** The same for a session: whoever holds its id leaves the registry. */
    method RemoveSession(session: Session)
      returns (targets: seq<ConnId>, ghost gone: Option<PeerId>, ghost told: seq<PeerId>)
      requires Counted()
      modifies this`connected, registry`peers
      ensures Counted() && Paired(registry.peers, targets, told)
      ensures gone == if session.peer.Some? && session.network.Some? && session.peer.value in old(registry.peers)
                      then session.peer else None
      ensures match gone
              case None => registry.peers == old(registry.peers) && connected == old(connected) && told == []
              case Some(id) =>
                && registry.peers == old(registry.peers) - {id} && connected == Decrement(old(connected))
                && Lists(told, Targets(registry.peers, id, session.network.value, []))
    {
      targets, gone, told := [], None, [];
      if session.peer.Some? && session.network.Some? {
        var list, left := RemoveLocked(session.peer.value, session.network.value);
        if list.Some? {
          targets, gone, told := list.value, session.peer, left;
        }
      }
    }

    // ---- Registration ----

    /** The source's registration rate; going over it is a strike. That the answer is the history's is
        part of `RatesOk`, which takes in every call of the log. */
    method CheckRate(ip: Ip, now: U64) returns (ok: bool)
      requires abuse.RatesOk() && abuse.BansOk() && abuse.regClock <= now && abuse.banClock <= now
      modifies abuse`regBuckets, abuse`regLog, abuse`regClock, abuse`strikes, abuse`bans, abuse`strikeLog,
               abuse`banClock
      ensures abuse.RatesOk() && abuse.BansOk() && abuse.banClock <= now
      ensures abuse.regLog == old(abuse.regLog) + [Call(KeyOf(ip), now, ok)] && (abuse.regsPerSec == 0 ==> ok)
      ensures ok ==> abuse.bans == old(abuse.bans)
      ensures Struck(!ok, old(abuse.strikeLog), old(abuse.bans), abuse.strikeLog, KeyOf(ip), now, abuse.rule,
                     abuse.maxTracked)
    {
      ok := abuse.AllowRegistration(ip, now);
      if !ok {
        abuse.RecordStrike(ip, now);
      }
    }

    /** A registration slot of the source; finding none free is a strike. */
    method CheckSlot(ip: Ip, now: U64) returns (slot: Option<Slot>)
      requires abuse.RegsOk() && abuse.BansOk() && abuse.banClock <= now
      modifies abuse`regsPerIp, abuse`liveRegs, abuse`strikes, abuse`bans, abuse`strikeLog, abuse`banClock
      ensures abuse.RegsOk() && abuse.BansOk()
      ensures slot == if CanTake(old(abuse.regsPerIp), KeyOf(ip), abuse.maxRegsPerIp)
                      then Some(Slot(abuse.maxRegsPerIp > 0, KeyOf(ip))) else None
      ensures abuse.regsPerIp == Take(old(abuse.regsPerIp), KeyOf(ip), abuse.maxRegsPerIp)
      ensures abuse.liveRegs == if slot.Some? && slot.value.tracked then old(abuse.liveRegs) + multiset{KeyOf(ip)}
                                else old(abuse.liveRegs)
      ensures Struck(slot.None?, old(abuse.strikeLog), old(abuse.bans), abuse.strikeLog, KeyOf(ip), now, abuse.rule,
                     abuse.maxTracked)
    {
      slot := abuse.TryAcquireRegistration(ip);
      if slot.None? {
        abuse.RecordStrike(ip, now);
      }
    }

    /** Before the registry: the source's registration rate, then a slot. A refusal is one strike. */
    method Reserve(ip: Ip, now: U64) returns (slot: Option<Slot>, granted: bool)
      requires abuse.RatesOk() && abuse.RegsOk() && abuse.BansOk() && abuse.regClock <= now && abuse.banClock <= now
      modifies abuse`regBuckets, abuse`regLog, abuse`regClock, abuse`strikes, abuse`bans, abuse`strikeLog,
               abuse`banClock
      modifies abuse`regsPerIp, abuse`liveRegs
      ensures abuse.RatesOk() && abuse.RegsOk() && abuse.BansOk()
      ensures abuse.regLog == old(abuse.regLog) + [Call(KeyOf(ip), now, granted)]
      ensures slot == if granted && CanTake(old(abuse.regsPerIp), KeyOf(ip), abuse.maxRegsPerIp)
                      then Some(Slot(abuse.maxRegsPerIp > 0, KeyOf(ip))) else None
      ensures abuse.regsPerIp == if granted then Take(old(abuse.regsPerIp), KeyOf(ip), abuse.maxRegsPerIp)
                                 else old(abuse.regsPerIp)
      ensures abuse.liveRegs == if slot.Some? && slot.value.tracked then old(abuse.liveRegs) + multiset{KeyOf(ip)}
                                else old(abuse.liveRegs)
      ensures Struck(slot.None?, old(abuse.strikeLog), old(abuse.bans), abuse.strikeLog, KeyOf(ip), now, abuse.rule,
                     abuse.maxTracked)
    {
      slot := None;
      granted := CheckRate(ip, now);
      if granted {
        slot := CheckSlot(ip, now);
      }
    }

    /** Under the registry's lock: refused as the broker's step refuses it, or entered as it enters it. */
    method Enter(conn: Connection, ask: Message)
      returns (refused: Option<U32>)
      requires Counted() && conn.chan in links && ask.Register?
      modifies this`connected, registry`peers
      ensures Counted()
      ensures refused == Verdict(conn, old(registry.peers), ask.peerId)
      ensures registry.peers == if refused.Some? then old(registry.peers)
                                else old(registry.peers)[ask.peerId := RecordFor(ask, conn)]
      ensures connected == if refused.Some? || ask.peerId in old(registry.peers) then old(connected)
                           else Increment(old(connected))
    {
      var id := ask.peerId;
      if conn.verified.Some? && conn.verified.value != id {
        return Some(IDENTITY_MISMATCH);
      }
      if |registry.peers| >= cfg.maxConnections {
        return Some(CAPACITY);
      }
      var addresses := Dial.ResolveDialable(ask.listenAddrs, conn.ip);
      var p := Peer(ask.networkId, PeerInfo(id, ask.networkId, ask.version, addresses), conn.chan);
      LinkedMore(registry.peers, links, id, p);
      var outcome := registry.Register(id, p, links);
      match outcome {
        case Registered => connected := Increment(connected);
        case Reconnected =>
        case Occupied => return Some(ID_IN_USE);
      }
      return None;
    }

    ghost function RecordFor(ask: Message, conn: Connection): Peer
      requires ask.Register?
    {
      RecordOf(ask.peerId, ask.networkId, ask.version, ask.listenAddrs, conn.ip, conn.chan)
    }

    ghost function Verdict(conn: Connection, peers: Registry, id: PeerId): Option<U32>
      requires Linked(peers, links)
      reads this`links
    {
      RefusalFor(|peers|, cfg.maxConnections, conn.verified, id, id in peers && links[peers[id].chan].open)
    }

    /** A slot the connection holds is one of its source's live slots. */
    ghost predicate OwnSlot(conn: Connection)
      reads conn`regSlot, abuse`liveRegs
    {
      conn.regSlot.Some? ==>
        && conn.regSlot.value == Slot(abuse.maxRegsPerIp > 0, KeyOf(conn.ip))
        && (conn.regSlot.value.tracked ==> abuse.liveRegs[KeyOf(conn.ip)] > 0)
    }

    /** The end of the slot: an accepted registration keeps it, in place of an earlier one of the
        connection; a refused one gives it back. */
    method SettleSlot(conn: Connection, slot: Slot, accepted: bool)
      requires abuse.RegsOk() && OwnSlot(conn) && slot == Slot(abuse.maxRegsPerIp > 0, KeyOf(conn.ip))
      requires slot.tracked ==> abuse.liveRegs[slot.key] > if conn.regSlot.Some? then 1 else 0
      modifies abuse`regsPerIp, abuse`liveRegs, conn`regSlot
      ensures abuse.RegsOk() && OwnSlot(conn) && conn.regSlot == if accepted then Some(slot) else old(conn.regSlot)
      ensures abuse.liveRegs == if slot.tracked && (!accepted || old(conn.regSlot).Some?)
                                then old(abuse.liveRegs) - multiset{slot.key} else old(abuse.liveRegs)
      ensures abuse.regsPerIp == if !accepted || old(conn.regSlot).Some?
                                 then Return(old(abuse.regsPerIp), slot.key, abuse.maxRegsPerIp)
                                 else old(abuse.regsPerIp)
    {
      if !accepted {
        abuse.DropRegistration(slot);
      } else {
        if conn.regSlot.Some? {
          abuse.DropRegistration(conn.regSlot.value);
        }
        conn.regSlot := Some(slot);
      }
    }

    // ---- The sweep ----

    /** Under one hold of the lock: the records found dead or silent leave one by one, each with the
        list of those to tell. This is the broker's sweep in some order of its victims. */
    method Prune(now: nat)
      returns (pruned: seq<(PeerId, seq<ConnId>)>, ghost plan: seq<Victim>, ghost notices: seq<seq<Send>>)
      requires Counted()
      modifies this`connected, registry`peers
      ensures Counted() && SweepOrder(old(registry.peers), plan)
      ensures Lists(Ids(plan), Reapable(old(registry.peers), links, now, cfg.deadline))
      ensures SweepAll(old(registry.peers), old(connected), plan) == (registry.peers, connected, Flat(notices))
      ensures forall id :: id in registry.peers <==>
                && id in old(registry.peers) && links[old(registry.peers)[id].chan].open
                && now <= links[old(registry.peers)[id].chan].lastActivity + cfg.deadline
      ensures NoticesAre(notices, pruned) && SendsOk(links, Flat(notices))
    {
      var victims := registry.DeadOrStale(links, now, cfg.deadline);
      ListsOnly(victims, Reapable(registry.peers, links, now, cfg.deadline));
      pruned, plan, notices := [], [], [];
      ghost var reg, count := registry.peers, connected;
      for i := 0 to |victims|
        invariant Counted() && SendsOk(links, Flat(notices))
        invariant Pruning(reg, count, plan, registry.peers, connected, notices, pruned, victims, i)
      {
        var id := victims[i];
        ghost var before, n := registry.peers, connected;
        OthersThere(victims, i, before);
        var targets, told := RemoveLocked(id, registry.peers[id].network);
        ghost var batch := PruneOne(reg, count, plan, before, n, notices, pruned, victims, i, targets.value, told,
                                    links);
        plan, notices := plan + [Victim(id, told)], notices + [batch];
        pruned := pruned + [(id, targets.value)];
      }
      assert Ids(plan) == victims;
      SweepRemoves(reg, count, plan);
    }
  }

  /** The state of a pruning that has taken out the first `i` victims. */
  ghost predicate Pruning(
      reg: Registry, count: U64, plan: seq<Victim>, left: Registry, n: U64, notices: seq<seq<Send>>,
      pruned: seq<(PeerId, seq<ConnId>)>, victims: seq<PeerId>, i: nat)
  {
    && i <= |victims| && SweepOrder(reg, plan) && SweepAll(reg, count, plan) == (left, n, Flat(notices))
    && Ids(plan) == victims[..i] && NoticesAre(notices, pruned)
    && AllThere(victims[i..], left)
  }

  ghost predicate AllThere(ids: seq<PeerId>, left: Registry) {
    forall id | id in ids :: id in left
  }

  lemma OthersThere(victims: seq<PeerId>, i: nat, left: Registry)
    requires i < |victims| && AllThere(victims[i..], left)
    requires forall j, k | 0 <= j < k < |victims| :: victims[j] != victims[k]
    ensures victims[i] in left && AllThere(victims[i + 1..], left - {victims[i]})
  {
    assert victims[i] == victims[i..][0];
    forall id | id in victims[i + 1..]
      ensures id in left - {victims[i]}
    {
      var k :| i + 1 <= k < |victims| && victims[k] == id;
      assert victims[i..][k - i] == id;
    }
  }

  lemma PruneOne(
      reg: Registry, count: U64, plan: seq<Victim>, left: Registry, n: U64, notices: seq<seq<Send>>,
      pruned: seq<(PeerId, seq<ConnId>)>, victims: seq<PeerId>, i: nat, targets: seq<ConnId>, told: seq<PeerId>,
      links: Links)
      returns (batch: seq<Send>)
    requires Pruning(reg, count, plan, left, n, notices, pruned, victims, i) && i < |victims| && victims[i] in left
    requires forall j, k | 0 <= j < k < |victims| :: victims[j] != victims[k]
    requires Lists(told, Targets(left - {victims[i]}, victims[i], left[victims[i]].network, []))
    requires Paired(left - {victims[i]}, targets, told) && Linked(left - {victims[i]}, links)
    requires SendsOk(links, Flat(notices))
    ensures Pruning(reg, count, plan + [Victim(victims[i], told)], left - {victims[i]}, Decrement(n), notices + [batch],
                    pruned + [(victims[i], targets)], victims, i + 1)
    ensures SendsOk(links, Flat(notices + [batch]))
  {
    var v, less := Victim(victims[i], told), left - {victims[i]};
    SweepOneMore(reg, count, plan, v);
    batch := SendsTo(less, told, PeerDisconnected(v.id));
    FlatMore(notices, batch);
    OthersThere(victims, i, left);
    OneMoreId(plan, v, victims, i);
    OneMoreBatch(notices, pruned, less, v, targets, links);
  }

  lemma OneMoreId(plan: seq<Victim>, v: Victim, victims: seq<PeerId>, i: nat)
    requires i < |victims| && Ids(plan) == victims[..i] && v.id == victims[i]
    ensures Ids(plan + [v]) == victims[..i + 1]
  {
    assert Ids(plan + [v]) == Ids(plan) + [v.id];
  }

  lemma OneMoreBatch(
      notices: seq<seq<Send>>, pruned: seq<(PeerId, seq<ConnId>)>, less: Registry, v: Victim, targets: seq<ConnId>,
      links: Links)
    requires NoticesAre(notices, pruned) && Paired(less, targets, v.told) && Linked(less, links)
    requires SendsOk(links, Flat(notices)) && forall id | id in v.told :: id in less
    ensures var batch := SendsTo(less, v.told, PeerDisconnected(v.id));
            NoticesAre(notices + [batch], pruned + [(v.id, targets)]) && SendsOk(links, Flat(notices) + batch)
  {
  }

  ghost function Flat(notices: seq<seq<Send>>): seq<Send> {
    if notices == [] then [] else Flat(notices[..|notices| - 1]) + notices[|notices| - 1]
  }

  lemma FlatMore(notices: seq<seq<Send>>, batch: seq<Send>)
    ensures Flat(notices + [batch]) == Flat(notices) + batch
  {
    assert (notices + [batch])[..|notices|] == notices;
  }

  /** Batch by batch, the notices are of one pruned record's departure to its targets. */
  ghost predicate NoticesAre(notices: seq<seq<Send>>, pruned: seq<(PeerId, seq<ConnId>)>) {
    |notices| == |pruned| && forall i | 0 <= i < |pruned| ::
      SendsAre(notices[i], pruned[i].1, PeerDisconnected(pruned[i].0))
  }

  lemma {:induction false} FlatFirst(notices: seq<seq<Send>>)
    requires notices != []
    ensures Flat(notices) == notices[0] + Flat(notices[1..])
  {
    var n := |notices| - 1;
    if n == 0 {
      assert notices[1..] == [] && notices[..0] == [];
    } else {
      FlatFirst(notices[..n]);
      assert notices[..n][1..] == notices[1..][..n - 1];
    }
  }

  /** One more victim at the end of a sweep. */
  lemma {:induction false} SweepOneMore(reg: Registry, connected: U64, plan: seq<Victim>, v: Victim)
    requires SweepOrder(reg, plan)
    requires var left := SweepAll(reg, connected, plan).0;
             v.id in left && Lists(v.told, Targets(left - {v.id}, v.id, left[v.id].network, []))
    ensures SweepOrder(reg, plan + [v])
    ensures var (left, count, sends) := SweepAll(reg, connected, plan);
            && (forall id | id in v.told :: id in left - {v.id})
            && SweepAll(reg, connected, plan + [v])
                 == (left - {v.id}, Decrement(count), sends + SendsTo(left - {v.id}, v.told, PeerDisconnected(v.id)))
    decreases |plan|
  {
    var left := SweepAll(reg, connected, plan).0;
    TargetsInRegistry(left - {v.id}, v.told, v.id, left[v.id].network, []);
    if plan == [] {
      assert plan + [v] == [v] && [v][1..] == [];
      var notices := SweepNotices(reg, v);
      assert notices == SendsTo(reg - {v.id}, v.told, PeerDisconnected(v.id));
      assert SweepAll(reg, connected, [v]) == (reg - {v.id}, Decrement(connected), notices + []);
      assert notices + [] == notices && [] + notices == notices;
    } else {
      var first := plan[0];
      SweepOneMore(reg - {first.id}, Decrement(connected), plan[1..], v);
      assert (plan + [v])[1..] == plan[1..] + [v];
      var head, tail := SweepNotices(reg, first), SweepAll(reg - {first.id}, Decrement(connected), plan[1..]).2;
      var last := SendsTo(left - {v.id}, v.told, PeerDisconnected(v.id));
      assert head + (tail + last) == head + tail + last;
    }
  }
}
