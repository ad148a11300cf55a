/** Strikes and bans, said of the history of strikes alone. */
module StrikeHistory {
  import opened Net

  datatype StrikeRecord = StrikeRecord(count: U32, windowStart: U64, lastSeen: U64)

  datatype BanRule = BanRule(threshold: U32, durationMs: U64, windowMs: U64)

  /** One recorded strike: whether it caused a ban, and which strike record and which ban had to
      make room for it in the bounded maps. */
  datatype Strike = Strike(key: IpKey, at: U64, banned: bool, dropped: Option<IpKey>, unbanned: Option<IpKey>)

  ghost predicate NotAfter(log: seq<Strike>, i: nat, t: U64)
    requires i < |log|
  {
    log[i].at <= t
  }

  ghost predicate UpTo(log: seq<Strike>, t: U64) {
    forall i | 0 <= i < |log| :: NotAfter(log, i, t)
  }

  ghost predicate InOrder(log: seq<Strike>) {
    forall i, j | 0 <= i < j < |log| :: NotAfter(log, i, log[j].at)
  }

  /** A source's record after one more strike: a new window opens when the old one has run out. */
  function Hit(standing: Option<StrikeRecord>, at: U64, rule: BanRule): (r: StrikeRecord)
    ensures r.lastSeen == at && r.count >= 1
  {
    var rec := if standing.Some? then standing.value else StrikeRecord(0, at, at);
    var rolled :=
      if SaturatingSub(at, rec.windowStart) > rule.windowMs then StrikeRecord(0, at, rec.lastSeen) else rec;
    StrikeRecord(if rolled.count < U32_MAX then rolled.count + 1 else U32_MAX, rolled.windowStart, at)
  }

  /** The record a source has after a history; a ban clears it, and so does an eviction. */
  ghost function Standing(log: seq<Strike>, key: IpKey, rule: BanRule): Option<StrikeRecord> {
    if log == [] then None
    else
      var e := log[|log| - 1];
      var before := Standing(log[..|log| - 1], key, rule);
      if e.key == key then if e.banned then None else Some(Hit(before, e.at, rule))
      else if e.dropped == Some(key) then None
      else before
  }

  ghost predicate JudgedAt(log: seq<Strike>, i: nat, rule: BanRule)
    requires i < |log|
  {
    log[i].banned <==> Hit(Standing(log[..i], log[i].key, rule), log[i].at, rule).count >= rule.threshold
  }

  /** Every strike's ban flag is what the source's record at that moment called for. */
  ghost predicate Judged(log: seq<Strike>, rule: BanRule) {
    forall i | 0 <= i < |log| :: JudgedAt(log, i, rule)
  }

  ghost function Strikes(log: seq<Strike>, key: IpKey): (n: nat)
    ensures n <= |log|
  {
    if log == [] then 0
    else Strikes(log[..|log| - 1], key) + if log[|log| - 1].key == key then 1 else 0
  }

  lemma HistoryStep(log: seq<Strike>, n: nat, key: IpKey, rule: BanRule)
    requires n < |log|
    ensures Strikes(log[..n + 1], key) == Strikes(log[..n], key) + if log[n].key == key then 1 else 0
    ensures Standing(log[..n + 1], key, rule) ==
            var before := Standing(log[..n], key, rule);
            if log[n].key == key then if log[n].banned then None else Some(Hit(before, log[n].at, rule))
            else if log[n].dropped == Some(key) then None
            else before
  {
    assert log[..n + 1][..n] == log[..n] && log[..n + 1][n] == log[n];
  }

  // ---- Every ban is earned ----

  /** A standing record is backed by real strikes: one of them opened its window, and at least as
      many as it counts were struck since. */
  lemma {:induction false} RecordIsBacked(log: seq<Strike>, n: nat, key: IpKey, rule: BanRule) returns (opener: nat)
    requires n <= |log| && InOrder(log)
    requires Standing(log[..n], key, rule).Some?
    ensures opener < n && log[opener].key == key
    ensures var rec := Standing(log[..n], key, rule).value;
            && rec.windowStart == log[opener].at
            && rec.count <= Strikes(log[..n], key) - Strikes(log[..opener], key)
  {
    var m := n - 1;
    HistoryStep(log, m, key, rule);
    var before := Standing(log[..m], key, rule);
    if before.None? {
      opener := m;
    } else {
      opener := RecordIsBacked(log, m, key, rule);
      if log[m].key == key && SaturatingSub(log[m].at, before.value.windowStart) > rule.windowMs {
        opener := m;
      }
    }
  }

  /** Soundness: every ban follows at least `threshold` strikes from its source within one window. */
  lemma BansAreEarned(log: seq<Strike>, n: nat, rule: BanRule) returns (first: nat)
    requires InOrder(log) && Judged(log, rule)
    requires n < |log| && log[n].banned && rule.threshold >= 1
    ensures first <= n && log[first].key == log[n].key
    ensures log[n].at - log[first].at <= rule.windowMs
    ensures Strikes(log[..n + 1], log[n].key) - Strikes(log[..first], log[n].key) >= rule.threshold
  {
    var key := log[n].key;
    assert JudgedAt(log, n, rule);
    HistoryStep(log, n, key, rule);
    var before := Standing(log[..n], key, rule);
    first := n;
    if before.Some? && SaturatingSub(log[n].at, before.value.windowStart) <= rule.windowMs {
      first := RecordIsBacked(log, n, key, rule);
    }
  }

  // ---- Enough strikes earn a ban ----

  /** The strikes that always earn a ban when they fall within one window's span. */
  function SureStrikes(threshold: U32): nat
    requires threshold >= 1
  {
    if threshold == 1 then 1 else 2 * threshold - 2
  }

  ghost predicate Undisturbed(log: seq<Strike>, i: nat, j: nat, key: IpKey)
    requires i <= j <= |log|
  {
    forall n | i <= n < j :: (log[n].key == key ==> !log[n].banned) && log[n].dropped != Some(key)
  }

  /** How a record relates to `struck` strikes, all since `t0` and within one window's span, that
      earned no ban: either they and one before them all count in it, or its window opened among
      them and all but at most `threshold - 2` of them count in it. */
  ghost predicate Counts(rec: StrikeRecord, struck: int, t0: U64, rule: BanRule) {
    && 1 <= rec.count < rule.threshold
    && (struck <= rec.count - 1 || (rec.windowStart >= t0 && struck <= rec.count + rule.threshold - 2))
  }

  lemma HitKeepsCount(rec: StrikeRecord, struck: int, t0: U64, at: U64, rule: BanRule)
    requires Counts(rec, struck, t0, rule)
    requires t0 <= at && at - t0 <= rule.windowMs && rec.windowStart <= at
    requires Hit(Some(rec), at, rule).count < rule.threshold
    ensures Counts(Hit(Some(rec), at, rule), struck + 1, t0, rule)
  {
  }

  /** The first strike of a stretch: with a record behind it, one strike before it counts too. */
  lemma StretchOpens(log: seq<Strike>, i: nat, key: IpKey, rule: BanRule)
    requires InOrder(log) && Judged(log, rule) && rule.threshold >= 1
    requires i < |log| && log[i].key == key && !log[i].banned
    ensures Standing(log[..i + 1], key, rule).Some?
    ensures Counts(Standing(log[..i + 1], key, rule).value, 1, log[i].at, rule)
  {
    assert JudgedAt(log, i, rule);
    HistoryStep(log, i, key, rule);
    if Standing(log[..i], key, rule).Some? {
      RecordBelow(log, i, key, rule);
    }
  }

  lemma StretchGrows(log: seq<Strike>, m: nat, struck: int, t0: U64, key: IpKey, rule: BanRule)
    requires InOrder(log) && Judged(log, rule) && rule.threshold >= 1
    requires m < |log| && log[m].key == key && !log[m].banned
    requires t0 <= log[m].at && log[m].at - t0 <= rule.windowMs
    requires Standing(log[..m], key, rule).Some? && Counts(Standing(log[..m], key, rule).value, struck, t0, rule)
    ensures Standing(log[..m + 1], key, rule).Some?
    ensures Counts(Standing(log[..m + 1], key, rule).value, struck + 1, t0, rule)
  {
    assert JudgedAt(log, m, rule);
    HistoryStep(log, m, key, rule);
    var opener := RecordIsBacked(log, m, key, rule);
    assert NotAfter(log, opener, log[m].at);
    HitKeepsCount(Standing(log[..m], key, rule).value, struck, t0, log[m].at, rule);
  }

  lemma {:induction false} StretchCounts(log: seq<Strike>, i: nat, j: nat, key: IpKey, rule: BanRule)
    requires InOrder(log) && Judged(log, rule) && rule.threshold >= 1
    requires i < j <= |log| && log[i].key == key
    requires log[j - 1].at - log[i].at <= rule.windowMs
    requires Undisturbed(log, i, j, key)
    ensures Standing(log[..j], key, rule).Some?
    ensures Counts(Standing(log[..j], key, rule).value, Strikes(log[..j], key) - Strikes(log[..i], key), log[i].at,
                   rule)
  {
    var m := j - 1;
    HistoryStep(log, m, key, rule);
    if m == i {
      StretchOpens(log, i, key, rule);
    } else {
      assert NotAfter(log, m - 1, log[m].at) && NotAfter(log, i, log[m].at);
      StretchCounts(log, i, m, key, rule);
      if log[m].key == key {
        StretchGrows(log, m, Strikes(log[..m], key) - Strikes(log[..i], key), log[i].at, key, rule);
      }
    }
  }

  /** Completeness: `SureStrikes(threshold)` strikes from a source within one window's span earn a
      ban by the last of them, as long as its record is not evicted meanwhile. */
  lemma ClusteredStrikesBan(log: seq<Strike>, i: nat, j: nat, key: IpKey, rule: BanRule)
    requires InOrder(log) && Judged(log, rule) && rule.threshold >= 1
    requires i < j <= |log| && log[i].key == key
    requires log[j - 1].at - log[i].at <= rule.windowMs
    requires Strikes(log[..j], key) - Strikes(log[..i], key) >= SureStrikes(rule.threshold)
    requires forall n | i <= n < j :: log[n].dropped != Some(key)
    ensures exists n | i <= n < j :: log[n].key == key && log[n].banned
  {
    if forall n | i <= n < j :: log[n].key == key ==> !log[n].banned {
      StretchCounts(log, i, j, key, rule);
      assert false;
    }
  }

  lemma {:induction false} RecordBelow(log: seq<Strike>, n: nat, key: IpKey, rule: BanRule)
    requires n <= |log| && Judged(log, rule) && rule.threshold >= 1
    requires Standing(log[..n], key, rule).Some?
    ensures 1 <= Standing(log[..n], key, rule).value.count < rule.threshold
  {
    var m := n - 1;
    HistoryStep(log, m, key, rule);
    if log[m].key == key {
      assert JudgedAt(log, m, rule);
    } else {
      RecordBelow(log, m, key, rule);
    }
  }

  // ---- Exactly when a cluster of `threshold` strikes bans ----

  /** The strikes of `key` up to time `limit`. */
  ghost function StrikesBy(log: seq<Strike>, key: IpKey, limit: int): nat {
    if log == [] then 0
    else
      var e := log[|log| - 1];
      StrikesBy(log[..|log| - 1], key, limit) + if e.key == key && e.at <= limit then 1 else 0
  }

  lemma StrikesByStep(log: seq<Strike>, n: nat, key: IpKey, limit: int)
    requires n < |log|
    ensures StrikesBy(log[..n + 1], key, limit)
         == StrikesBy(log[..n], key, limit) + if log[n].key == key && log[n].at <= limit then 1 else 0
  {
    assert log[..n + 1][..n] == log[..n] && log[..n + 1][n] == log[n];
  }

  /** A window opened by earlier strikes is still running when strike `i` arrives. */
  ghost predicate WindowRunning(log: seq<Strike>, i: nat, rule: BanRule)
    requires i < |log|
  {
    var before := Standing(log[..i], log[i].key, rule);
    before.Some? && SaturatingSub(log[i].at, before.value.windowStart) <= rule.windowMs
  }

  /** When that window runs out. */
  ghost function RunsOut(log: seq<Strike>, i: nat, rule: BanRule): int
    requires i < |log| && WindowRunning(log, i, rule)
  {
    Standing(log[..i], log[i].key, rule).value.windowStart + rule.windowMs
  }

  /** What that window will have counted by strike `m`. */
  ghost function CountedBy(log: seq<Strike>, i: nat, m: nat, rule: BanRule): int
    requires i < |log| && m <= |log| && WindowRunning(log, i, rule)
  {
    var limit := RunsOut(log, i, rule);
    Standing(log[..i], log[i].key, rule).value.count
    + StrikesBy(log[..m], log[i].key, limit) - StrikesBy(log[..i], log[i].key, limit)
  }

  /** Where the record stands after the strikes from `i` up to `m`, none of which banned. */
  ghost predicate Along(log: seq<Strike>, i: nat, m: nat, rule: BanRule)
    requires i < m <= |log|
  {
    var key := log[i].key;
    var n := Strikes(log[..m], key) - Strikes(log[..i], key);
    && Standing(log[..m], key, rule).Some?
    && var rec := Standing(log[..m], key, rule).value;
    if !WindowRunning(log, i, rule) then rec.windowStart == log[i].at && rec.count == n < rule.threshold
    else
      var before := Standing(log[..i], key, rule).value;
      var n0 := CountedBy(log, i, m, rule) - before.count;
      && 1 <= n0 && CountedBy(log, i, m, rule) < rule.threshold
      && (|| (n0 == n && rec.windowStart == before.windowStart && rec.count == before.count + n)
          || (rec.windowStart > RunsOut(log, i, rule) && rec.windowStart >= log[i].at && rec.count == n - n0))
  }

  lemma AlongOpens(log: seq<Strike>, i: nat, rule: BanRule)
    requires InOrder(log) && Judged(log, rule) && rule.threshold >= 1 && i < |log|
    ensures log[i].banned <==> (if WindowRunning(log, i, rule) then CountedBy(log, i, i + 1, rule)
                                else 1) >= rule.threshold
    ensures !log[i].banned ==> Along(log, i, i + 1, rule)
  {
    var key := log[i].key;
    assert JudgedAt(log, i, rule);
    HistoryStep(log, i, key, rule);
    if WindowRunning(log, i, rule) {
      RecordBelow(log, i, key, rule);
      var opener := RecordIsBacked(log, i, key, rule);
      assert NotAfter(log, opener, log[i].at);
      StrikesByStep(log, i, key, RunsOut(log, i, rule));
    }
  }

  lemma AlongGrows(log: seq<Strike>, i: nat, m: nat, rule: BanRule)
    requires InOrder(log) && Judged(log, rule) && rule.threshold >= 1
    requires i < m < |log| && Along(log, i, m, rule)
    requires log[m].key == log[i].key && log[m].at - log[i].at <= rule.windowMs
    requires Strikes(log[..m + 1], log[i].key) - Strikes(log[..i], log[i].key) <= rule.threshold
    ensures log[m].banned <==> (if WindowRunning(log, i, rule) then CountedBy(log, i, m + 1, rule)
                                else Strikes(log[..m + 1], log[i].key) - Strikes(log[..i], log[i].key))
                               >= rule.threshold
    ensures !log[m].banned ==> Along(log, i, m + 1, rule)
  {
    var key := log[i].key;
    assert JudgedAt(log, m, rule);
    HistoryStep(log, m, key, rule);
    assert NotAfter(log, i, log[m].at);
    var opener := RecordIsBacked(log, m, key, rule);
    assert NotAfter(log, opener, log[m].at);
    if WindowRunning(log, i, rule) {
      StrikesByStep(log, m, key, RunsOut(log, i, rule));
    }
  }

  /** The strikes from `i` up to `j` ban exactly when the window they fall in counts enough of them. */
  lemma {:induction false} ClusterOutcome(log: seq<Strike>, i: nat, j: nat, rule: BanRule)
    requires InOrder(log) && Judged(log, rule) && rule.threshold >= 1
    requires i < j <= |log| && log[j - 1].at - log[i].at <= rule.windowMs
    requires Strikes(log[..j], log[i].key) - Strikes(log[..i], log[i].key) <= rule.threshold
    requires forall n | i <= n < j :: log[n].dropped != Some(log[i].key)
    ensures (exists n | i <= n < j :: log[n].key == log[i].key && log[n].banned) <==>
            (if WindowRunning(log, i, rule) then CountedBy(log, i, j, rule)
             else Strikes(log[..j], log[i].key) - Strikes(log[..i], log[i].key)) >= rule.threshold
    ensures (exists n | i <= n < j :: log[n].key == log[i].key && log[n].banned) || Along(log, i, j, rule)
  {
    var key, m := log[i].key, j - 1;
    HistoryStep(log, m, key, rule);
    if m == i {
      AlongOpens(log, i, rule);
    } else {
      assert NotAfter(log, m - 1, log[m].at);
      ClusterOutcome(log, i, m, rule);
      if WindowRunning(log, i, rule) {
        StrikesByStep(log, m, key, RunsOut(log, i, rule));
      }
      if exists n | i <= n < m :: log[n].key == key && log[n].banned {
      } else if log[m].key == key {
        AlongGrows(log, i, m, rule);
      }
    }
  }

  /** The documentation says `threshold` strikes within a rolling window ban. The code fixes the
      window by its first strike, so that holds exactly when no earlier window is still running at the
      first of them, or the running one counts enough of them before it runs out. */
  lemma ThresholdClusterBansExactlyWhen(log: seq<Strike>, i: nat, j: nat, rule: BanRule)
    requires InOrder(log) && Judged(log, rule) && rule.threshold >= 1
    requires i < j <= |log| && log[j - 1].at - log[i].at <= rule.windowMs
    requires Strikes(log[..j], log[i].key) - Strikes(log[..i], log[i].key) == rule.threshold
    requires forall n | i <= n < j :: log[n].dropped != Some(log[i].key)
    ensures (exists n | i <= n < j :: log[n].key == log[i].key && log[n].banned) <==>
            (!WindowRunning(log, i, rule) || CountedBy(log, i, j, rule) >= rule.threshold)
  {
    ClusterOutcome(log, i, j, rule);
  }

  lemma Append(log: seq<Strike>, e: Strike, rule: BanRule)
    requires InOrder(log) && Judged(log, rule)
    requires UpTo(log, e.at)
    requires e.banned <==> Hit(Standing(log, e.key, rule), e.at, rule).count >= rule.threshold
    ensures InOrder(log + [e]) && Judged(log + [e], rule)
  {
    var longer := log + [e];
    forall i, j | 0 <= i < j < |longer|
      ensures NotAfter(longer, i, longer[j].at)
    {
      assert NotAfter(log, i, if j < |log| then log[j].at else e.at);
    }
    forall i | 0 <= i < |longer|
      ensures JudgedAt(longer, i, rule)
    {
      if i < |log| {
        assert JudgedAt(log, i, rule) && longer[..i] == log[..i];
      } else {
        assert longer[..i] == log;
      }
    }
  }

  // ---- The bound is sharp ----

  function Burst(key: IpKey, at: U64, n: nat): (burst: seq<Strike>)
    ensures |burst| == n
  {
    if n == 0 then [] else Burst(key, at, n - 1) + [Strike(key, at, false, None, None)]
  }

  /** A burst too small to reach the threshold in the open window is recorded without a ban. */
  lemma {:induction false} BurstCounts(log: seq<Strike>, key: IpKey, at: U64, n: nat, rule: BanRule)
    requires InOrder(log) && Judged(log, rule)
    requires UpTo(log, at)
    requires Standing(log, key, rule).Some?
    requires var rec := Standing(log, key, rule).value;
             SaturatingSub(at, rec.windowStart) <= rule.windowMs && rec.count + n < rule.threshold
    ensures var longer := log + Burst(key, at, n);
            && InOrder(longer) && Judged(longer, rule)
            && UpTo(longer, at)
            && Standing(longer, key, rule).Some?
            && Standing(longer, key, rule).value.windowStart == Standing(log, key, rule).value.windowStart
            && Standing(longer, key, rule).value.count == Standing(log, key, rule).value.count + n
            && Strikes(longer, key) == Strikes(log, key) + n
  {
    if n == 0 {
      assert log + Burst(key, at, 0) == log;
    } else {
      BurstCounts(log, key, at, n - 1, rule);
      OneMore(log + Burst(key, at, n - 1), key, at, rule);
      assert log + Burst(key, at, n) == log + Burst(key, at, n - 1) + [Strike(key, at, false, None, None)];
    }
  }

  lemma OneMore(log: seq<Strike>, key: IpKey, at: U64, rule: BanRule)
    requires InOrder(log) && Judged(log, rule)
    requires UpTo(log, at)
    requires Hit(Standing(log, key, rule), at, rule).count < rule.threshold
    ensures var longer := log + [Strike(key, at, false, None, None)];
            && InOrder(longer) && Judged(longer, rule)
            && UpTo(longer, at)
            && Standing(longer, key, rule) == Some(Hit(Standing(log, key, rule), at, rule))
            && Strikes(longer, key) == Strikes(log, key) + 1
  {
    var e := Strike(key, at, false, None, None);
    Append(log, e, rule);
    Later(log, at, at, e);
    assert (log + [e])[..|log|] == log;
  }

  lemma Later(log: seq<Strike>, t: U64, at: U64, e: Strike)
    requires UpTo(log, t) && t <= at
    ensures UpTo(log, at)
    ensures e.at <= at ==> UpTo(log + [e], at)
  {
    forall i | 0 <= i < |log|
      ensures NotAfter(log, i, at)
    {
      assert NotAfter(log, i, t);
    }
    if e.at <= at {
      forall i | 0 <= i < |log| + 1
        ensures NotAfter(log + [e], i, at)
      {
        assert i < |log| ==> NotAfter(log, i, t);
      }
    }
  }

  /** The strikes are documented as counted over a rolling window, but the window is fixed by its
      first strike. So `threshold` clustered strikes need not ban: for every threshold above two there
      is a history with one strike fewer than `SureStrikes`, all within a millisecond of each other,
      and no ban. */
  lemma ClusterWithoutBan(key: IpKey, rule: BanRule) returns (log: seq<Strike>)
    requires rule.threshold >= 3 && 1 <= rule.windowMs < U64_MAX
    ensures InOrder(log) && Judged(log, rule)
    ensures |log| > 1 && forall i | 0 <= i < |log| :: log[i].key == key && !log[i].banned && log[i].dropped == None
    ensures log[|log| - 1].at - log[1].at <= 1
    ensures Strikes(log, key) - Strikes(log[..1], key) == SureStrikes(rule.threshold) - 1
  {
    var w, n := rule.windowMs, rule.threshold - 2;
    OneMore([], key, 0, rule);
    var first: seq<Strike> := [Strike(key, 0, false, None, None)];
    assert [] + first == first;
    var second := first + Burst(key, w, n);
    Later(first, 0, w, first[0]);
    BurstCounts(first, key, w, n, rule);
    Later(second, w, w + 1, first[0]);
    OneMore(second, key, w + 1, rule);
    var third := second + [Strike(key, w + 1, false, None, None)];
    BurstCounts(third, key, w + 1, n, rule);
    log := third + Burst(key, w + 1, n);
    TwoBursts(key, w, n);
  }

  lemma TwoBursts(key: IpKey, w: U64, n: nat)
    requires n >= 1 && w < U64_MAX
    ensures var first: seq<Strike> := [Strike(key, 0, false, None, None)];
            var log := first + Burst(key, w, n) + [Strike(key, w + 1, false, None, None)] + Burst(key, w + 1, n);
            && (forall i | 0 <= i < |log| :: log[i].key == key && !log[i].banned && log[i].dropped == None)
            && log[|log| - 1].at == w + 1 && log[1].at == w && log[..1] == first
  {
    BurstIs(key, w, n);
    BurstIs(key, w + 1, n);
  }

  lemma {:induction false} BurstIs(key: IpKey, at: U64, n: nat)
    ensures forall i | 0 <= i < n :: Burst(key, at, n)[i] == Strike(key, at, false, None, None)
  {
    if n > 0 {
      BurstIs(key, at, n - 1);
    }
  }
}
