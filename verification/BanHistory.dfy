/** What the bounded strike and ban maps keep of the strike history. */
module BanHistory {
  import opened Net
  import opened Buckets
  import opened RateHistory
  import opened StrikeHistory

  // ---- Strike records ----

  function RecordSeen(r: StrikeRecord): nat {
    r.lastSeen
  }

  /** The strike map holds exactly the standing records of the history. */
  ghost predicate StrikesTrack(strikes: map<IpKey, StrikeRecord>, log: seq<Strike>, rule: BanRule, max: nat) {
    && |strikes| <= max
    && (forall k :: Holds(strikes, k, Standing(log, k, rule)))
  }

  ghost predicate Holds(strikes: map<IpKey, StrikeRecord>, k: IpKey, standing: Option<StrikeRecord>) {
    if k in strikes then standing == Some(strikes[k]) else standing == None
  }

  ghost function StruckSince(log: seq<Strike>, t: U64): set<IpKey> {
    set i | 0 <= i < |log| && t <= log[i].at :: log[i].key
  }

  /** A record is evicted only after `max` other sources have struck since its source last did. */
  ghost predicate FairDrop(log: seq<Strike>, i: nat, rule: BanRule, max: nat)
    requires i < |log|
  {
    log[i].dropped.Some? ==>
      var victim := log[i].dropped.value;
      var standing := Standing(log[..i], victim, rule);
      && victim != log[i].key && standing.Some?
      && |StruckSince(log[..i + 1], standing.value.lastSeen) - {victim}| >= max
  }

  ghost predicate FairDrops(log: seq<Strike>, rule: BanRule, max: nat) {
    forall i | 0 <= i < |log| :: FairDrop(log, i, rule, max)
  }

  lemma {:induction false} LastSeenIsLast(log: seq<Strike>, n: nat, key: IpKey, rule: BanRule) returns (last: nat)
    requires n <= |log| && InOrder(log) && Standing(log[..n], key, rule).Some?
    ensures last < n && log[last].key == key && log[last].at == Standing(log[..n], key, rule).value.lastSeen
    ensures forall m | 0 <= m < n && log[m].key == key :: m <= last
  {
    HistoryStep(log, n - 1, key, rule);
    if log[n - 1].key == key {
      last := n - 1;
    } else {
      last := LastSeenIsLast(log, n - 1, key, rule);
    }
  }

  /** A source's record outlives any stretch in which fewer than `max` other sources strike. */
  lemma QuietRecordSurvives(log: seq<Strike>, i: nat, j: nat, rule: BanRule, max: nat)
    requires InOrder(log) && FairDrops(log, rule, max)
    requires i < j <= |log|
    requires |StruckSince(log[..j], log[i].at) - {log[i].key}| < max
    ensures forall n | i <= n < j :: log[n].dropped != Some(log[i].key)
  {
    var key := log[i].key;
    forall n | i <= n < j
      ensures log[n].dropped != Some(key)
    {
      assert FairDrop(log, n, rule, max);
      if log[n].dropped == Some(key) {
        var last := LastSeenIsLast(log, n, key, rule);
        assert i == last || NotAfter(log, i, log[last].at);
        var seen := Standing(log[..n], key, rule).value.lastSeen;
        SinceShrinks(log, n + 1, j, seen, log[i].at);
        Subset(StruckSince(log[..n + 1], seen) - {key}, StruckSince(log[..j], log[i].at) - {key});
        assert false;
      }
    }
  }

  lemma SinceShrinks(log: seq<Strike>, m: nat, n: nat, t: U64, t': U64)
    requires m <= n <= |log| && t' <= t
    ensures StruckSince(log[..m], t) <= StruckSince(log[..n], t')
  {
    forall k | k in StruckSince(log[..m], t)
      ensures k in StruckSince(log[..n], t')
    {
      var i :| 0 <= i < m && t <= log[..m][i].at && log[..m][i].key == k;
      assert log[..n][i].key == k;
    }
  }

  /** Completeness in terms a caller can see: a source that strikes often enough within one window
      is banned by the last of those strikes, unless `max` other sources struck in that time. */
  lemma RepeatOffenderIsBanned(log: seq<Strike>, i: nat, j: nat, rule: BanRule, max: nat)
    requires InOrder(log) && Judged(log, rule) && FairDrops(log, rule, max) && rule.threshold >= 1
    requires i < j <= |log| && log[j - 1].at - log[i].at <= rule.windowMs
    requires Strikes(log[..j], log[i].key) - Strikes(log[..i], log[i].key) >= SureStrikes(rule.threshold)
    requires |StruckSince(log[..j], log[i].at) - {log[i].key}| < max
    ensures exists n | i <= n < j :: log[n].key == log[i].key && log[n].banned
  {
    QuietRecordSurvives(log, i, j, rule, max);
    ClusteredStrikesBan(log, i, j, log[i].key, rule);
  }

  /** Evicting the least recently seen record is fair. */
  lemma LeastRecordIsFair(strikes: map<IpKey, StrikeRecord>, log: seq<Strike>, e: Strike, rule: BanRule, max: nat)
    requires InOrder(log) && UpTo(log, e.at) && StrikesTrack(strikes, log, rule, max) && |strikes| >= max
    requires e.key !in strikes && e.dropped.Some? && IsLeast(strikes, e.dropped.value, RecordSeen)
    ensures FairDrop(log + [e], |log|, rule, max)
  {
    var victim := e.dropped.value;
    var longer := log + [e];
    assert longer[..|log|] == log && longer[..|log| + 1] == longer;
    assert Holds(strikes, victim, Standing(log, victim, rule));
    var t := strikes[victim].lastSeen;
    var others := strikes.Keys - {victim} + {e.key};
    forall k | k in others
      ensures k in StruckSince(longer, t)
    {
      if k == e.key {
        var last := LastSeenIsLast(log, |log|, victim, rule) by { assert log[..|log|] == log; }
        assert NotAfter(log, last, e.at) && longer[|log|].key == k;
      } else {
        assert Holds(strikes, k, Standing(log, k, rule)) && log[..|log|] == log;
        var last := LastSeenIsLast(log, |log|, k, rule);
        assert RecordSeen(strikes[victim]) <= RecordSeen(strikes[k]) && longer[last].key == k;
      }
    }
    Subset(others, StruckSince(longer, t) - {victim});
    assert |strikes.Keys - {victim}| == |strikes| - 1;
  }

  // ---- Bans ----

  ghost function LatestBan(log: seq<Strike>, key: IpKey): Option<U64> {
    if log == [] then None
    else
      var e := log[|log| - 1];
      if e.key == key && e.banned then Some(e.at) else LatestBan(log[..|log| - 1], key)
  }

  /** The latest ban of `key` was evicted to make room for another. */
  ghost predicate BanLost(log: seq<Strike>, key: IpKey) {
    if log == [] then false
    else
      var e := log[|log| - 1];
      if e.key == key && e.banned then false
      else e.unbanned == Some(key) || BanLost(log[..|log| - 1], key)
  }

  /** The history form of the ban list: a source is banned until its latest ban runs out. */
  ghost predicate UnderBan(log: seq<Strike>, key: IpKey, now: U64, rule: BanRule) {
    LatestBan(log, key).Some? && now < SaturatingAdd(LatestBan(log, key).value, rule.durationMs)
  }

  /** The ban map holds every latest ban that is neither evicted nor known to have run out. */
  ghost predicate BanHeld(bans: map<IpKey, U64>, log: seq<Strike>, key: IpKey, clock: U64, rule: BanRule) {
    if key in bans then
      && LatestBan(log, key).Some? && !BanLost(log, key)
      && bans[key] == SaturatingAdd(LatestBan(log, key).value, rule.durationMs)
    else !BanLost(log, key) ==> !UnderBan(log, key, clock, rule)
  }

  ghost predicate BansTrack(bans: map<IpKey, U64>, log: seq<Strike>, clock: U64, rule: BanRule, max: nat) {
    |bans| <= max && forall k :: BanHeld(bans, log, k, clock, rule)
  }

  lemma BansLater(bans: map<IpKey, U64>, log: seq<Strike>, clock: U64, now: U64, rule: BanRule, max: nat)
    requires BansTrack(bans, log, clock, rule, max) && clock <= now
    ensures BansTrack(bans, log, now, rule, max)
  {
    forall k
      ensures BanHeld(bans, log, k, now, rule)
    {
      assert BanHeld(bans, log, k, clock, rule);
    }
  }

  lemma BanStep(log: seq<Strike>, e: Strike, key: IpKey)
    ensures LatestBan(log + [e], key) == if e.key == key && e.banned then Some(e.at) else LatestBan(log, key)
    ensures BanLost(log + [e], key) <==>
            !(e.key == key && e.banned) && (e.unbanned == Some(key) || BanLost(log, key))
  {
    assert (log + [e])[..|log|] == log;
  }

  /** A strike that bans nobody leaves the ban map faithful. */
  lemma NoNewBan(bans: map<IpKey, U64>, log: seq<Strike>, e: Strike, rule: BanRule, max: nat)
    requires BansTrack(bans, log, e.at, rule, max) && !e.banned && e.unbanned == None
    ensures BansTrack(bans, log + [e], e.at, rule, max)
  {
    forall k
      ensures BanHeld(bans, log + [e], k, e.at, rule)
    {
      assert BanHeld(bans, log, k, e.at, rule);
      BanStep(log, e, k);
    }
  }

  /** A ban stored after the soonest-ending ban has made room leaves the ban map faithful. */
  lemma NewBan(bans: map<IpKey, U64>, kept: map<IpKey, U64>, log: seq<Strike>, e: Strike, rule: BanRule, max: nat)
    requires BansTrack(bans, log, e.at, rule, max) && e.banned
    requires kept == (if e.unbanned.Some? then bans - {e.unbanned.value} else bans)
    requires e.unbanned != Some(e.key) && (e.key in kept || |kept| < max)
    ensures BansTrack(kept[e.key := SaturatingAdd(e.at, rule.durationMs)], log + [e], e.at, rule, max)
  {
    var stored := kept[e.key := SaturatingAdd(e.at, rule.durationMs)];
    assert stored.Keys == kept.Keys + {e.key};
    Subset(kept.Keys, bans.Keys);
    forall k
      ensures BanHeld(stored, log + [e], k, e.at, rule)
    {
      assert BanHeld(bans, log, k, e.at, rule);
      BanStep(log, e, k);
    }
  }
}
