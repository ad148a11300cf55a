/** The shared per-source limits: connection and registration slots, the registration rate, and the
    ephemeral ban list. */
module Limits {
  import opened Net
  import opened Buckets
  import opened RateHistory
  import opened StrikeHistory
  import opened BanHistory

  // ---- Slots ----

  /** A reserved slot. A slot of a disabled cap is not counted. */
  datatype Slot = Slot(tracked: bool, key: IpKey)

  /** The counts are the numbers of live tracked slots, with no entry for a source that has none. */
  ghost predicate SlotsMatch(counts: map<IpKey, U32>, live: multiset<IpKey>, cap: U32) {
    forall k :: SlotMatch(counts, live, cap, k)
  }

  ghost predicate SlotMatch(counts: map<IpKey, U32>, live: multiset<IpKey>, cap: U32, k: IpKey) {
    && (k in counts <==> live[k] > 0)
    && (k in counts ==> counts[k] == live[k])
    && live[k] <= cap
  }

  function TakeSlot(counts: map<IpKey, U32>, key: IpKey, cap: U32): (map<IpKey, U32>, bool)
    requires cap > 0
  {
    var count := if key in counts then counts[key] else 0;
    if count >= cap then (counts, false)   // a count of 0 is below any cap counted here, so nothing to take back
    else (counts[key := count + 1], true)
  }

  lemma TakeConserves(counts: map<IpKey, U32>, live: multiset<IpKey>, cap: U32, key: IpKey)
    requires cap > 0 && SlotsMatch(counts, live, cap)
    ensures TakeSlot(counts, key, cap).1 <==> live[key] < cap
    ensures SlotsMatch(TakeSlot(counts, key, cap).0,
                       if TakeSlot(counts, key, cap).1 then live + multiset{key} else live, cap)
  {
    assert SlotMatch(counts, live, cap, key);
    var (counts', ok) := TakeSlot(counts, key, cap);
    var live' := if ok then live + multiset{key} else live;
    forall k
      ensures SlotMatch(counts', live', cap, k)
    {
      assert SlotMatch(counts, live, cap, k);
    }
  }

  /** A drop: the count goes down by one, wrapping as `u32` would, and an empty entry goes away. */
  function ReturnSlot(counts: map<IpKey, U32>, key: IpKey): map<IpKey, U32> {
    if key !in counts then counts
    else
      var count := if counts[key] == 0 then U32_MAX else counts[key] - 1;
      if count == 0 then counts - {key} else counts[key := count]
  }

  lemma ReturnConserves(counts: map<IpKey, U32>, live: multiset<IpKey>, cap: U32, key: IpKey)
    requires SlotsMatch(counts, live, cap) && live[key] > 0
    ensures SlotsMatch(ReturnSlot(counts, key), live - multiset{key}, cap)
    ensures key in counts && counts[key] > 0
  {
    assert SlotMatch(counts, live, cap, key);
    forall k
      ensures SlotMatch(ReturnSlot(counts, key), live - multiset{key}, cap, k)
    {
      assert SlotMatch(counts, live, cap, k);
    }
  }

  ghost function Take(counts: map<IpKey, U32>, key: IpKey, cap: U32): map<IpKey, U32> {
    if cap == 0 then counts else TakeSlot(counts, key, cap).0
  }

  ghost predicate CanTake(counts: map<IpKey, U32>, key: IpKey, cap: U32) {
    cap == 0 || TakeSlot(counts, key, cap).1
  }

  ghost function Return(counts: map<IpKey, U32>, key: IpKey, cap: U32): map<IpKey, U32> {
    if cap == 0 then counts else ReturnSlot(counts, key)
  }

  // ---- The policy ----

  class AbusePolicy {
    const maxConnsPerIp: U32
    const regsPerSec: U32
    const maxRegsPerIp: U32
    const rule: BanRule
    const maxTracked: nat

    var connsPerIp: map<IpKey, U32>
    var regBuckets: map<IpKey, TokenBucket>
    var regsPerIp: map<IpKey, U32>
    var strikes: map<IpKey, StrikeRecord>
    var bans: map<IpKey, U64>

    /** The live tracked slots, and the histories the maps carry. */
    ghost var liveConns: multiset<IpKey>
    ghost var liveRegs: multiset<IpKey>
    ghost var regLog: seq<Call<IpKey>>
    ghost var regClock: U64
    ghost var strikeLog: seq<Strike>
    ghost var banClock: U64

    ghost predicate ConnsOk()
      reads this`connsPerIp, this`liveConns
    {
      if maxConnsPerIp > 0 then SlotsMatch(connsPerIp, liveConns, maxConnsPerIp)
      else connsPerIp == map[] && liveConns == multiset{}
    }

    ghost predicate RegsOk()
      reads this`regsPerIp, this`liveRegs
    {
      if maxRegsPerIp > 0 then SlotsMatch(regsPerIp, liveRegs, maxRegsPerIp)
      else regsPerIp == map[] && liveRegs == multiset{}
    }

    ghost predicate RatesOk()
      reads this`regBuckets, this`regLog, this`regClock
    {
      && maxTracked >= 1 && |regBuckets| <= maxTracked
      && (regsPerSec > 0 ==>
            && Tracks(regBuckets, regLog, regClock, regsPerSec, maxTracked)
            && GrantedByHistory(regLog, regsPerSec, maxTracked))
    }

    ghost predicate BansOk()
      reads this`strikes, this`bans, this`strikeLog, this`banClock
    {
      BanState(strikes, bans, strikeLog, banClock, rule, maxTracked)
    }

    ghost predicate Valid()
      reads this
    {
      ConnsOk() && RegsOk() && RatesOk() && BansOk()
    }

    constructor (maxConnsPerIp: U32, regsPerSec: U32, maxRegsPerIp: U32, rule: BanRule, maxTracked: nat)
      requires maxTracked >= 1
      ensures Valid()
      ensures liveConns == liveRegs == multiset{} && regLog == [] && strikeLog == [] && regClock == banClock == 0
      ensures this.maxConnsPerIp == maxConnsPerIp && this.regsPerSec == regsPerSec
      ensures this.maxRegsPerIp == maxRegsPerIp && this.rule == rule && this.maxTracked == maxTracked
    {
      this.maxConnsPerIp := maxConnsPerIp;
      this.regsPerSec := regsPerSec;
      this.maxRegsPerIp := maxRegsPerIp;
      this.rule := rule;
      this.maxTracked := maxTracked;
      connsPerIp, regBuckets, regsPerIp, strikes, bans := map[], map[], map[], map[], map[];
      liveConns, liveRegs, regLog, strikeLog := multiset{}, multiset{}, [], [];
      regClock, banClock := 0, 0;
    }

    method TryAcquireConn(ip: Ip) returns (slot: Option<Slot>)
      requires ConnsOk()
      modifies this`connsPerIp, this`liveConns
      ensures ConnsOk()
      ensures slot.Some? <==> maxConnsPerIp == 0 || old(liveConns)[KeyOf(ip)] < maxConnsPerIp
      ensures slot.Some? <==> CanTake(old(connsPerIp), KeyOf(ip), maxConnsPerIp)
      ensures connsPerIp == Take(old(connsPerIp), KeyOf(ip), maxConnsPerIp)
      ensures slot.Some? ==> slot.value == Slot(maxConnsPerIp > 0, KeyOf(ip))
      ensures liveConns == if slot.Some? && slot.value.tracked then old(liveConns) + multiset{KeyOf(ip)}
                           else old(liveConns)
    {
      var key := KeyOf(ip);
      if maxConnsPerIp == 0 {
        return Some(Slot(false, key));
      }
      TakeConserves(connsPerIp, liveConns, maxConnsPerIp, key);
      var (counts, ok) := TakeSlot(connsPerIp, key, maxConnsPerIp);
      connsPerIp := counts;
      if !ok {
        return None;
      }
      liveConns := liveConns + multiset{key};
      return Some(Slot(true, key));
    }

    method DropConn(slot: Slot)
      requires ConnsOk() && (slot.tracked ==> liveConns[slot.key] > 0)
      modifies this`connsPerIp, this`liveConns
      ensures ConnsOk()
      ensures liveConns == if slot.tracked then old(liveConns) - multiset{slot.key} else old(liveConns)
      ensures connsPerIp == if slot.tracked then ReturnSlot(old(connsPerIp), slot.key) else old(connsPerIp)
    {
      if slot.tracked {
        ReturnConserves(connsPerIp, liveConns, maxConnsPerIp, slot.key);
        connsPerIp := ReturnSlot(connsPerIp, slot.key);
        liveConns := liveConns - multiset{slot.key};
      }
    }

    method TryAcquireRegistration(ip: Ip) returns (slot: Option<Slot>)
      requires RegsOk()
      modifies this`regsPerIp, this`liveRegs
      ensures RegsOk()
      ensures slot.Some? <==> maxRegsPerIp == 0 || old(liveRegs)[KeyOf(ip)] < maxRegsPerIp
      ensures slot.Some? <==> CanTake(old(regsPerIp), KeyOf(ip), maxRegsPerIp)
      ensures regsPerIp == Take(old(regsPerIp), KeyOf(ip), maxRegsPerIp)
      ensures slot.Some? ==> slot.value == Slot(maxRegsPerIp > 0, KeyOf(ip))
      ensures liveRegs == if slot.Some? && slot.value.tracked then old(liveRegs) + multiset{KeyOf(ip)}
                          else old(liveRegs)
    {
      var key := KeyOf(ip);
      if maxRegsPerIp == 0 {
        return Some(Slot(false, key));
      }
      TakeConserves(regsPerIp, liveRegs, maxRegsPerIp, key);
      var (counts, ok) := TakeSlot(regsPerIp, key, maxRegsPerIp);
      regsPerIp := counts;
      if !ok {
        return None;
      }
      liveRegs := liveRegs + multiset{key};
      return Some(Slot(true, key));
    }

    method DropRegistration(slot: Slot)
      requires RegsOk() && (slot.tracked ==> liveRegs[slot.key] > 0)
      modifies this`regsPerIp, this`liveRegs
      ensures RegsOk()
      ensures liveRegs == if slot.tracked then old(liveRegs) - multiset{slot.key} else old(liveRegs)
      ensures regsPerIp == if slot.tracked then ReturnSlot(old(regsPerIp), slot.key) else old(regsPerIp)
    {
      if slot.tracked {
        ReturnConserves(regsPerIp, liveRegs, maxRegsPerIp, slot.key);
        regsPerIp := ReturnSlot(regsPerIp, slot.key);
        liveRegs := liveRegs - multiset{slot.key};
      }
    }

    /** Whether a registration from `ip` is within its source's rate: the history's answer, in every
        second in which no more sources asked than the map can hold. */
    method AllowRegistration(ip: Ip, now: U64) returns (ok: bool)
      requires RatesOk() && regClock <= now
      modifies this`regBuckets, this`regLog, this`regClock
      ensures RatesOk()
      ensures regLog == old(regLog) + [Call(KeyOf(ip), now, ok)] && regClock == now
      ensures regsPerSec == 0 ==> ok
      ensures !Crowded(old(regLog), WindowOf(now), maxTracked) ==>
                (ok <==> WithinBudget(old(regLog), KeyOf(ip), now, regsPerSec))
      ensures ServedIfQuiet(old(regLog), Call(KeyOf(ip), now, ok), regsPerSec, maxTracked)
    {
      var key := KeyOf(ip);
      ok := true;
      if regsPerSec > 0 {
        var kept, _ := EvictLeastIfFull(regBuckets, key, maxTracked, LastSeen);
        var bucket := if key in kept then kept[key] else TokenBucket.New(regsPerSec, now);
        var (spent, granted) := bucket.TrySpend(regsPerSec, now);
        ok := granted;
        regBuckets := kept[key := spent];
        RateStep(old(regBuckets), kept, regBuckets, regLog, regClock, Call(key, now, ok), regsPerSec, maxTracked);
        GrantsGoOn(regLog, Call(key, now, ok), regsPerSec, maxTracked);
        QuietIsGranted(regLog, Call(key, now, ok), regsPerSec, maxTracked);
      }
      regLog := regLog + [Call(key, now, ok)];
      regClock := now;
    }

    /** Over the policy's whole life, in every second of the clock in which no more sources ask to register
        than the map can hold, no source is granted more registrations than its rate. */
    lemma RegistrationsStayWithinRate(key: IpKey, second: U64)
      requires RatesOk() && regsPerSec > 0
      requires |CallersIn(regLog, 1000 * second, 1000 * second + 1000)| <= maxTracked
      ensures GrantsIn(regLog, key, 1000 * second, 1000 * second + 1000) <= regsPerSec
    {
      WindowsAreSeconds(regLog, key, second);
      GrantsStayWithinBudget(regLog, key, second, regsPerSec, maxTracked);
    }

    /** Whether `ip`'s source is banned at `now`. Dropping lapsed bans only when asked is not
        observable: short of an eviction the answer is the history's. */
    method IsBanned(ip: Ip, now: U64) returns (banned: bool)
      requires BansOk() && banClock <= now
      modifies this`bans, this`banClock
      ensures BansOk() && banClock == now
      ensures rule.threshold == 0 ==> !banned
      ensures banned ==> UnderBan(strikeLog, KeyOf(ip), now, rule)
      ensures rule.threshold > 0 && !BanLost(strikeLog, KeyOf(ip)) ==>
                (banned <==> UnderBan(strikeLog, KeyOf(ip), now, rule))
    {
      var key := KeyOf(ip);
      banned := false;
      ClockOn(now);
      if rule.threshold > 0 && key in bans {
        assert BanHeld(bans, strikeLog, key, now, rule);
        if now < bans[key] {
          banned := true;
        } else {
          LapsedBanGone(bans, strikeLog, key, now, rule, maxTracked);
          bans := bans - {key};
        }
      }
      assert BanHeld(bans, strikeLog, key, now, rule);
    }

    /** Record one strike; the one that reaches the threshold bans its source and clears its record.
        A ban gives way to a new one only when the map is full, and then it is one that ends soonest. */
    method RecordStrike(ip: Ip, now: U64)
      requires BansOk() && banClock <= now
      modifies this`strikes, this`bans, this`strikeLog, this`banClock
      ensures BansOk() && banClock == now
      ensures rule.threshold == 0 ==> strikeLog == old(strikeLog) && strikes == old(strikes) && bans == old(bans)
      ensures rule.threshold > 0 ==> Recorded(old(strikeLog), old(bans), strikeLog, KeyOf(ip), now, rule, maxTracked)
    {
      ClockOn(now);
      if rule.threshold > 0 {
        var e, kept, rec, keptBans := CountOrBan(KeyOf(ip), now);
        StrikeRecorded(old(strikes), kept, strikes, old(bans), keptBans, bans, strikeLog, e, rec, rule, maxTracked);
        strikeLog := strikeLog + [e];
      }
    }

    method CountOrBan(key: IpKey, now: U64)
      returns (ghost e: Strike, ghost kept: map<IpKey, StrikeRecord>, ghost rec: StrikeRecord,
               ghost keptBans: map<IpKey, U64>)
      requires maxTracked >= 1
      modifies this`strikes, this`bans
      ensures StrikesChanged(old(strikes), kept, strikes, e, rec, rule, maxTracked)
      ensures BansChanged(old(bans), keptBans, bans, e, rule, maxTracked) && e.key == key && e.at == now
    {
      var count, left, dropped, r := CountStrike(key, now);
      kept, rec, keptBans := left, r, bans;
      e := Strike(key, now, false, dropped, None);
      if count >= rule.threshold {
        strikes := strikes - {key};
        Cleared(kept, key, rec);
        ghost var unbanned;
        keptBans, unbanned := Ban(key, now);
        e := Strike(key, now, true, dropped, unbanned);
      }
    }

    /** The source's record, with the strike counted in it. */
    method CountStrike(key: IpKey, now: U64)
      returns (count: U32, ghost kept: map<IpKey, StrikeRecord>, ghost dropped: Option<IpKey>, ghost rec: StrikeRecord)
      requires maxTracked >= 1
      modifies this`strikes
      ensures MadeRoom(old(strikes), kept, key, dropped, maxTracked, RecordSeen)
      ensures rec == Hit(if key in kept then Some(kept[key]) else None, now, rule) && count == rec.count
      ensures strikes == kept[key := rec]
    {
      var left;
      left, dropped := EvictLeastIfFull(strikes, key, maxTracked, RecordSeen);
      var r := if key in left then left[key] else StrikeRecord(0, now, now);
      if SaturatingSub(now, r.windowStart) > rule.windowMs {
        r := StrikeRecord(0, now, r.lastSeen);
      }
      r := StrikeRecord(if r.count < U32_MAX then r.count + 1 else U32_MAX, r.windowStart, now);
      strikes := left[key := r];
      count, kept, rec := r.count, left, r;
    }

    method Ban(key: IpKey, now: U64) returns (ghost kept: map<IpKey, U64>, ghost dropped: Option<IpKey>)
      requires maxTracked >= 1
      modifies this`bans
      ensures MadeRoom(old(bans), kept, key, dropped, maxTracked, BanEnd)
      ensures bans == kept[key := SaturatingAdd(now, rule.durationMs)]
    {
      var left;
      left, dropped := EvictLeastIfFull(bans, key, maxTracked, BanEnd);
      kept := left;
      bans := left[key := SaturatingAdd(now, rule.durationMs)];
    }

    ghost method ClockOn(now: U64)
      requires BansOk() && banClock <= now
      modifies this`banClock
      ensures BansOk() && banClock == now
    {
      BansLater(bans, strikeLog, banClock, now, rule, maxTracked);
      if strikeLog != [] {
        Later(strikeLog, banClock, now, strikeLog[0]);
      }
      banClock := now;
    }
  }

  function BanEnd(until: U64): nat {
    until
  }

  /** Both maps of the ban list are what the history of strikes says. */
  ghost predicate BanState(
      strikes: map<IpKey, StrikeRecord>, bans: map<IpKey, U64>, log: seq<Strike>, clock: U64, rule: BanRule, max: nat)
  {
    && max >= 1 && InOrder(log) && UpTo(log, clock) && Judged(log, rule) && FairDrops(log, rule, max)
    && StrikesTrack(strikes, log, rule, max) && BansTrack(bans, log, clock, rule, max)
  }

  /** The history gained one strike of `key`, which banned exactly when its count reached the threshold;
      if a ban gave way to its ban, the map was full, and an unexpired one gave way only when every
      ban held was unexpired. */
  ghost predicate Recorded(
      log: seq<Strike>, bans: map<IpKey, U64>, log': seq<Strike>, key: IpKey, now: U64, rule: BanRule, max: nat)
  {
    && |log'| == |log| + 1 && log'[..|log|] == log
    && var e := log'[|log|];
    && e.key == key && e.at == now
    && (e.banned <==> Hit(Standing(log, key, rule), now, rule).count >= rule.threshold)
    && (e.unbanned.Some? ==>
          && |bans| == max && e.unbanned.value in bans
          && (bans[e.unbanned.value] > now ==> AllRun(bans, now)))
  }

  /** Every ban held is unexpired at `now`. */
  ghost predicate AllRun(bans: map<IpKey, U64>, now: U64) {
    forall k | k in bans :: bans[k] > now
  }

  /** What the strike `e` makes of the strike map: room for its source, and the record `rec` counted up,
      or cleared by a ban. */
  ghost predicate StrikesChanged(
      before: map<IpKey, StrikeRecord>, kept: map<IpKey, StrikeRecord>, after: map<IpKey, StrikeRecord>, e: Strike,
      rec: StrikeRecord, rule: BanRule, max: nat)
  {
    && MadeRoom(before, kept, e.key, e.dropped, max, RecordSeen)
    && rec == Hit(if e.key in kept then Some(kept[e.key]) else None, e.at, rule)
    && (e.banned <==> rec.count >= rule.threshold)
    && after == if e.banned then kept - {e.key} else kept[e.key := rec]
  }

  /** What it makes of the ban map: nothing, or room for its source and the source's ban. */
  ghost predicate BansChanged(
      bans: map<IpKey, U64>, kept: map<IpKey, U64>, bans': map<IpKey, U64>, e: Strike, rule: BanRule, max: nat)
  {
    if e.banned then
      && MadeRoom(bans, kept, e.key, e.unbanned, max, BanEnd)
      && bans' == kept[e.key := SaturatingAdd(e.at, rule.durationMs)]
    else e.unbanned.None? && bans' == bans
  }

  lemma Cleared<K, V>(m: map<K, V>, k: K, v: V)
    ensures m[k := v] - {k} == m - {k}
  {
  }

  lemma StrikeRecorded(
      before: map<IpKey, StrikeRecord>, kept: map<IpKey, StrikeRecord>, after: map<IpKey, StrikeRecord>,
      bans: map<IpKey, U64>, keptBans: map<IpKey, U64>, bans': map<IpKey, U64>, log: seq<Strike>, e: Strike,
      rec: StrikeRecord, rule: BanRule, max: nat)
    requires rule.threshold >= 1 && BanState(before, bans, log, e.at, rule, max)
    requires StrikesChanged(before, kept, after, e, rec, rule, max)
    requires BansChanged(bans, keptBans, bans', e, rule, max)
    ensures BanState(after, bans', log + [e], e.at, rule, max)
    ensures Recorded(log, bans, log + [e], e.key, e.at, rule, max)
  {
    StrikeStep(before, kept, after, log, e, rec, rule, max);
    if e.banned {
      NewBan(bans, keptBans, log, e, rule, max);
    } else {
      NoNewBan(bans, log, e, rule, max);
    }
  }

  /** One strike keeps the strike map and the history's judgements in step. */
  lemma StrikeStep(
      before: map<IpKey, StrikeRecord>, kept: map<IpKey, StrikeRecord>, after: map<IpKey, StrikeRecord>,
      log: seq<Strike>, e: Strike, rec: StrikeRecord, rule: BanRule, max: nat)
    requires rule.threshold >= 1 && max >= 1 && InOrder(log) && UpTo(log, e.at) && Judged(log, rule)
    requires FairDrops(log, rule, max) && StrikesTrack(before, log, rule, max)
    requires StrikesChanged(before, kept, after, e, rec, rule, max)
    ensures InOrder(log + [e]) && UpTo(log + [e], e.at) && Judged(log + [e], rule)
    ensures FairDrops(log + [e], rule, max) && StrikesTrack(after, log + [e], rule, max)
    ensures e.banned <==> Hit(Standing(log, e.key, rule), e.at, rule).count >= rule.threshold
  {
    assert Holds(before, e.key, Standing(log, e.key, rule));
    Append(log, e, rule);
    Later(log, e.at, e.at, e);
    DropsStayFair(before, log, e, rule, max);
    AfterSize(before, kept, after, e, rec, max);
    forall k
      ensures Holds(after, k, Standing(log + [e], k, rule))
    {
      assert Holds(before, k, Standing(log, k, rule));
      StandingAfter(before, kept, after, log, e, rec, rule, max, k);
    }
  }

  lemma StandingAfter(
      before: map<IpKey, StrikeRecord>, kept: map<IpKey, StrikeRecord>, after: map<IpKey, StrikeRecord>,
      log: seq<Strike>, e: Strike, rec: StrikeRecord, rule: BanRule, max: nat, k: IpKey)
    requires Holds(before, e.key, Standing(log, e.key, rule)) && Holds(before, k, Standing(log, k, rule))
    requires StrikesChanged(before, kept, after, e, rec, rule, max)
    ensures Holds(after, k, Standing(log + [e], k, rule))
  {
    assert (log + [e])[..|log|] == log;
  }

  lemma AfterSize(
      before: map<IpKey, StrikeRecord>, kept: map<IpKey, StrikeRecord>, after: map<IpKey, StrikeRecord>,
      e: Strike, rec: StrikeRecord, max: nat)
    requires max >= 1 && |before| <= max
    requires if e.dropped.None? then kept == before && (e.key in kept || |kept| < max)
             else e.dropped.value in before && kept == before - {e.dropped.value}
    requires after == if e.banned then kept - {e.key} else kept[e.key := rec]
    ensures |after| <= max
  {
    if e.dropped.Some? {
      assert kept.Keys == before.Keys - {e.dropped.value};
      assert |kept.Keys| == |before.Keys| - 1;
    }
    if e.banned {
      Subset(after.Keys, kept.Keys);
    } else {
      assert after.Keys == kept.Keys + {e.key};
    }
  }

  lemma DropsStayFair(before: map<IpKey, StrikeRecord>, log: seq<Strike>, e: Strike, rule: BanRule, max: nat)
    requires InOrder(log) && UpTo(log, e.at) && FairDrops(log, rule, max) && StrikesTrack(before, log, rule, max)
    requires e.dropped.Some? ==>
               e.key !in before && |before| >= max && IsLeast(before, e.dropped.value, RecordSeen)
    ensures FairDrops(log + [e], rule, max)
  {
    var longer := log + [e];
    forall i | 0 <= i < |longer|
      ensures FairDrop(longer, i, rule, max)
    {
      if i < |log| {
        assert FairDrop(log, i, rule, max);
        assert longer[..i] == log[..i] && longer[..i + 1] == log[..i + 1];
      } else if e.dropped.Some? {
        LeastRecordIsFair(before, log, e, rule, max);
      }
    }
  }

  lemma RateStep(
      table: map<IpKey, TokenBucket>, kept: map<IpKey, TokenBucket>, stored: map<IpKey, TokenBucket>,
      log: seq<Call<IpKey>>, clock: U64, c: Call<IpKey>, capacity: U32, max: nat)
    requires capacity > 0 && Tracks(table, log, clock, capacity, max) && clock <= c.at
    requires StoredOver(table, kept, stored, c.key, max)
    requires var bucket := if c.key in kept then kept[c.key] else TokenBucket.New(capacity, c.at);
             (stored[c.key], c.granted) == bucket.TrySpend(capacity, c.at)
    ensures Tracks(stored, log + [c], c.at, capacity, max) && |stored| <= max
    ensures RightlyGranted(log, c, capacity, max)
  {
    assert FaithfulAt(table, log, c.key, clock, c.at, capacity, max);
    assert Stored(table, stored, c.key, max);
    RecordCall(table, stored, log, clock, c, capacity, max);
  }

  lemma LapsedBanGone(bans: map<IpKey, U64>, log: seq<Strike>, key: IpKey, now: U64, rule: BanRule, max: nat)
    requires BansTrack(bans, log, now, rule, max)
    requires key in bans && bans[key] <= now
    ensures BansTrack(bans - {key}, log, now, rule, max)
  {
    Subset((bans - {key}).Keys, bans.Keys);
    forall k
      ensures BanHeld(bans - {key}, log, k, now, rule)
    {
      assert BanHeld(bans, log, k, now, rule);
    }
  }
}
