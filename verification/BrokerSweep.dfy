/** What one pass of the health sweep removes, and whom it tells. */
module BrokerSweep {
  import opened Net
  import opened Wire
  import opened Broker
  import opened BrokerInvariant

  /** The sweep's loop takes out the victims, each once, and nothing else. */
  lemma {:induction false} SweepRemoves(reg: Registry, connected: U64, victims: seq<Victim>)
    requires SweepOrder(reg, victims)
    ensures var reg' := SweepAll(reg, connected, victims).0;
            && (forall id :: id in reg' <==> id in reg && id !in Ids(victims))
            && (forall id | id in reg' :: reg'[id] == reg[id])
    ensures forall id | id in Ids(victims) :: id in reg
    decreases |victims|
  {
    if victims != [] {
      var v, rest := victims[0], victims[1..];
      SweepRemoves(reg - {v.id}, Decrement(connected), rest);
      FirstId(victims);
    }
  }

  lemma FirstId(victims: seq<Victim>)
    requires victims != []
    ensures forall id :: id in Ids(victims) <==> id == victims[0].id || id in Ids(victims[1..])
  {
    assert Ids(victims) == [victims[0].id] + Ids(victims[1..]);
  }

  // ---- Notices ----

  /** A notice of a victim's departure, to another record of the victim's network. */
  ghost predicate NoticeOk(reg: Registry, ids: seq<PeerId>, n: Send) {
    && n.msg.PeerDisconnected? && n.msg.gone in ids && n.msg.gone in reg
    && n.to.Some? && n.to.value in reg && n.to.value != n.msg.gone
    && reg[n.to.value].network == reg[n.msg.gone].network && n.chan == reg[n.to.value].chan
  }

  ghost function Notice(reg: Registry, x: PeerId, v: PeerId): Send
    requires x in reg
  {
    Send(reg[x].chan, PeerDisconnected(v), Some(x))
  }

  lemma FirstNotices(reg: Registry, v: Victim, n: Send)
    requires v.id in reg && Lists(v.told, Targets(reg - {v.id}, v.id, reg[v.id].network, []))
    ensures n in SweepNotices(reg, v) <==>
              n.to.Some? && n.to.value in reg && n.to.value != v.id && reg[n.to.value].network == reg[v.id].network
              && n == Notice(reg, n.to.value, v.id)
  {
    var notices := SweepNotices(reg, v);
    TargetsInRegistry(reg - {v.id}, v.told, v.id, reg[v.id].network, []);
    if n.to.Some? && n.to.value in v.told {
      var i :| 0 <= i < |v.told| && v.told[i] == n.to.value;
      assert notices[i] == Notice(reg, n.to.value, v.id);
    }
  }

  lemma FirstNoticesOnce(reg: Registry, v: Victim, i: nat, j: nat)
    requires v.id in reg && Lists(v.told, Targets(reg - {v.id}, v.id, reg[v.id].network, []))
    requires i < j < |SweepNotices(reg, v)|
    ensures SweepNotices(reg, v)[i] != SweepNotices(reg, v)[j]
  {
    ListsOnly(v.told, Targets(reg - {v.id}, v.id, reg[v.id].network, []));
  }

  lemma {:induction false} NoticesAreSound(reg: Registry, connected: U64, victims: seq<Victim>, n: Send)
    requires SweepOrder(reg, victims) && n in SweepAll(reg, connected, victims).2
    ensures NoticeOk(reg, Ids(victims), n)
    decreases |victims|
  {
    var v, rest := victims[0], victims[1..];
    assert Ids(victims) == [v.id] + Ids(rest);
    if n in SweepNotices(reg, v) {
      FirstNotices(reg, v, n);
    } else {
      NoticesAreSound(reg - {v.id}, Decrement(connected), rest, n);
    }
  }

  lemma {:induction false} NoticesAreComplete(reg: Registry, connected: U64, victims: seq<Victim>, x: PeerId, v: PeerId)
    requires SweepOrder(reg, victims) && x in SweepAll(reg, connected, victims).0 && x in reg
    requires v in Ids(victims) && v in reg && reg[v].network == reg[x].network
    ensures Notice(reg, x, v) in SweepAll(reg, connected, victims).2
    decreases |victims|
  {
    var first, rest := victims[0], victims[1..];
    var left := reg - {first.id};
    assert Ids(victims) == [first.id] + Ids(rest);
    SweepRemoves(left, Decrement(connected), rest);
    var sends := SweepAll(left, Decrement(connected), rest).2;
    assert SweepAll(reg, connected, victims).2 == SweepNotices(reg, first) + sends;
    if v == first.id {
      FirstNotices(reg, first, Notice(reg, x, v));
    } else {
      NoticesAreComplete(left, Decrement(connected), rest, x, v);
    }
  }

  /** No record is told twice of the same departure. */
  lemma {:induction false} NoticesAreOnce(reg: Registry, connected: U64, victims: seq<Victim>, i: nat, j: nat)
    requires SweepOrder(reg, victims) && i < j < |SweepAll(reg, connected, victims).2|
    ensures SweepAll(reg, connected, victims).2[i] != SweepAll(reg, connected, victims).2[j]
    decreases |victims|
  {
    var v, rest := victims[0], victims[1..];
    var left := reg - {v.id};
    var head, tail := SweepNotices(reg, v), SweepAll(left, Decrement(connected), rest).2;
    assert SweepAll(reg, connected, victims).2 == head + tail;
    if j < |head| {
      FirstNoticesOnce(reg, v, i, j);
    } else if i < |head| {
      FirstNotices(reg, v, head[i]);
      NoticesAreSound(left, Decrement(connected), rest, tail[j - |head|]);
    } else {
      NoticesAreOnce(left, Decrement(connected), rest, i - |head|, j - |head|);
    }
  }

  // ---- The pass as a whole ----

  lemma VictimsListed(cfg: Config, s: State, at: nat, victims: seq<Victim>)
    requires Enabled(cfg, s, Sweep(at, victims))
    ensures forall id :: id in Ids(victims) <==> id in Victims(cfg, s, at)
  {
    ListsOnly(Ids(victims), Victims(cfg, s, at));
  }

  /** The record's channel is open and it was last heard from within the deadline of the scan. */
  ghost predicate Lively(cfg: Config, s: State, at: nat, id: PeerId)
    requires id in s.registry
  {
    && s.registry[id].chan in s.conns && s.conns[s.registry[id].chan].open
    && at <= s.conns[s.registry[id].chan].activity + cfg.deadline
  }

  /** A pass keeps exactly the records that are open and were heard from within the deadline. */
  lemma SweepIsExact(cfg: Config, s: State, at: nat, victims: seq<Victim>)
    requires Inv(cfg, s) && Enabled(cfg, s, Sweep(at, victims))
    ensures var s' := Step(cfg, s, Sweep(at, victims));
            && s'.registry == (map id | id in s.registry && Lively(cfg, s, at, id) :: s.registry[id])
            && s'.connected == |s'.registry|
            && s'.conns == s.conns
  {
    VictimsListed(cfg, s, at, victims);
    SweepRemoves(s.registry, s.connected, victims);
    SweepKeeps(s.conns, s.registry, s.connected, victims);
    Survivors(cfg, s, at, SweepAll(s.registry, s.connected, victims).0);
  }

  lemma Survivors(cfg: Config, s: State, at: nat, left: Registry)
    requires ChansKnown(s) && forall id :: id in left <==> id in s.registry && id !in Victims(cfg, s, at)
    requires forall id | id in left :: left[id] == s.registry[id]
    ensures left == map id | id in s.registry && Lively(cfg, s, at, id) :: s.registry[id]
  {
  }

  /** It tells every surviving record of a victim's network of that departure, exactly once, and no
      record of another network. */
  lemma SweepTellsTheNetwork(cfg: Config, s: State, at: nat, victims: seq<Victim>)
    requires Enabled(cfg, s, Sweep(at, victims))
    ensures var s' := Step(cfg, s, Sweep(at, victims));
            && (forall n | n in s'.sweeping :: NoticeOk(s.registry, Ids(victims), n) && n.msg.gone !in s'.registry)
            && (forall x, v
                  | x in s'.registry && v in s.registry && v !in s'.registry
                    && s.registry[v].network == s'.registry[x].network ::
                  Notice(s'.registry, x, v) in s'.sweeping)
            && (forall i, j | 0 <= i < j < |s'.sweeping| :: s'.sweeping[i] != s'.sweeping[j])
  {
    var s' := Step(cfg, s, Sweep(at, victims));
    VictimsListed(cfg, s, at, victims);
    SweepRemoves(s.registry, s.connected, victims);
    forall n | n in s'.sweeping
      ensures NoticeOk(s.registry, Ids(victims), n) && n.msg.gone !in s'.registry
    {
      NoticesAreSound(s.registry, s.connected, victims, n);
    }
    forall x, v
      | x in s'.registry && v in s.registry && v !in s'.registry && s.registry[v].network == s'.registry[x].network
      ensures Notice(s'.registry, x, v) in s'.sweeping
    {
      NoticesAreComplete(s.registry, s.connected, victims, x, v);
    }
    forall i, j | 0 <= i < j < |s'.sweeping|
      ensures s'.sweeping[i] != s'.sweeping[j]
    {
      NoticesAreOnce(s.registry, s.connected, victims, i, j);
    }
  }
}
