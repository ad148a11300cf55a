/** What a rate limiter promises, said of its call history alone, and how a bounded map of token
    buckets carries that history without storing it. */
module RateHistory {
  import opened Net
  import opened Buckets

  /** One question put to a limiter and the answer it gave. */
  datatype Call<K> = Call(key: K, at: U64, granted: bool)

  ghost predicate NotBefore<K>(log: seq<Call<K>>, now: U64) {
    forall i | 0 <= i < |log| :: log[i].at <= now
  }

  /** How many calls of `key` were granted in one-second window `w`. */
  ghost function Grants<K>(log: seq<Call<K>>, key: K, w: U64): (n: nat)
    ensures n <= |log|
  {
    if log == [] then 0
    else
      var c := log[|log| - 1];
      Grants(log[..|log| - 1], key, w) + if c.granted && c.key == key && WindowOf(c.at) == w then 1 else 0
  }

  /** How many calls were granted in window `w`, whoever made them. */
  ghost function AllGrants<K>(log: seq<Call<K>>, w: U64): (n: nat)
    ensures n <= |log|
  {
    if log == [] then 0
    else
      var c := log[|log| - 1];
      AllGrants(log[..|log| - 1], w) + if c.granted && WindowOf(c.at) == w then 1 else 0
  }

  /** The distinct sources that called in window `w`, granted or not. */
  ghost function Callers<K>(log: seq<Call<K>>, w: U64): set<K> {
    if log == [] then {}
    else
      var c := log[|log| - 1];
      Callers(log[..|log| - 1], w) + if WindowOf(c.at) == w then {c.key} else {}
  }

  ghost predicate Crowded<K>(log: seq<Call<K>>, w: U64, max: nat) {
    |Callers(log, w)| > max
  }

  /** The history form of one budget: a call is within it when its source has had fewer than
      `capacity` grants in the call's window. A zero capacity disables the budget. */
  ghost predicate WithinBudget<K>(log: seq<Call<K>>, key: K, now: U64, capacity: U32) {
    capacity == 0 || Grants(log, key, WindowOf(now)) < capacity
  }

  ghost predicate WithinTotal<K>(log: seq<Call<K>>, now: U64, capacity: U32) {
    capacity == 0 || AllGrants(log, WindowOf(now)) < capacity
  }

  lemma CallersGrow<K>(log: seq<Call<K>>, c: Call<K>, w: U64)
    ensures Callers(log + [c], w) == Callers(log, w) + (if WindowOf(c.at) == w then {c.key} else {})
  {
    assert (log + [c])[..|log|] == log;
  }

  lemma GrantsStep<K>(log: seq<Call<K>>, c: Call<K>, key: K, w: U64)
    ensures Grants(log + [c], key, w)
         == Grants(log, key, w) + if c.granted && c.key == key && WindowOf(c.at) == w then 1 else 0
    ensures AllGrants(log + [c], w) == AllGrants(log, w) + if c.granted && WindowOf(c.at) == w then 1 else 0
  {
    assert (log + [c])[..|log|] == log;
  }

  /** Nothing was granted yet in a window the history has not reached. */
  lemma {:induction false} NoGrantsAhead<K>(log: seq<Call<K>>, key: K, w: U64)
    requires forall i | 0 <= i < |log| :: WindowOf(log[i].at) < w
    ensures Grants(log, key, w) == 0 && AllGrants(log, w) == 0
  {
    if log != [] {
      assert WindowOf(log[|log| - 1].at) < w;
      NoGrantsAhead(log[..|log| - 1], key, w);
    }
  }

  /** No source is granted past `capacity` in a window, once every grant was within budget. */
  lemma {:induction false} BudgetBoundsGrants<K>(log: seq<Call<K>>, key: K, w: U64, capacity: U32)
    requires capacity > 0
    requires forall i | 0 <= i < |log| && log[i].granted && log[i].key == key && WindowOf(log[i].at) == w
               :: WithinBudget(log[..i], key, log[i].at, capacity)
    ensures Grants(log, key, w) <= capacity
  {
    if log != [] {
      var n := |log| - 1;
      assert forall i | 0 <= i < n :: log[..n][..i] == log[..i];
      BudgetBoundsGrants(log[..n], key, w, capacity);
    }
  }

  lemma {:induction false} TotalBoundsGrants<K>(log: seq<Call<K>>, w: U64, capacity: U32)
    requires capacity > 0
    requires forall i | 0 <= i < |log| && log[i].granted :: WithinTotal(log[..i], log[i].at, capacity)
    ensures AllGrants(log, w) <= capacity
  {
    if log != [] {
      var n := |log| - 1;
      assert forall i | 0 <= i < n :: log[..n][..i] == log[..i];
      TotalBoundsGrants(log[..n], w, capacity);
    }
  }

  /** A window is no more crowded early than late. */
  lemma {:induction false} CrowdGrows<K>(log: seq<Call<K>>, i: nat, w: U64, max: nat)
    requires i <= |log|
    requires Crowded(log[..i], w, max)
    ensures Crowded(log, w, max)
    decreases |log|
  {
    if i == |log| {
      assert log[..i] == log;
    } else {
      var shorter := log[..|log| - 1];
      assert shorter[..i] == log[..i];
      CrowdGrows(shorter, i, w, max);
      Subset(Callers(shorter, w), Callers(log, w));
    }
  }

  lemma Subset<T>(a: set<T>, b: set<T>)
    requires a <= b
    ensures |a| <= |b|
  {
    assert b == a + (b - a);
    assert |b| == |a| + |b - a|;
  }

  // ---- The bounded map of buckets ----

  function LastSeen(b: TokenBucket): nat {
    b.lastSeen
  }

  /** What the map says a source has left in window `w`; an untracked source has a full budget. */
  function LeftFor<K>(table: map<K, TokenBucket>, key: K, w: U64, capacity: U32): U32 {
    if key in table then table[key].Left(capacity, w) else capacity
  }

  ghost predicate EntryOk<K>(b: TokenBucket, key: K, log: seq<Call<K>>, clock: U64) {
    b.window == WindowOf(b.lastSeen) && b.lastSeen <= clock && key in Callers(log, b.window)
  }

  ghost predicate EntriesOk<K>(table: map<K, TokenBucket>, log: seq<Call<K>>, clock: U64) {
    forall k | k in table :: EntryOk(table[k], k, log, clock)
  }

  /** What the map says a source has left is exactly what its history leaves it, except in a window
      in which more sources called than the map can hold. */
  ghost predicate Faithful<K>(table: map<K, TokenBucket>, log: seq<Call<K>>, key: K, w: U64, capacity: U32, max: nat) {
    LeftFor(table, key, w, capacity) == capacity - Grants(log, key, w) || Crowded(log, w, max)
  }

  /** The map carries the history up to `clock`, for every call that can still come. */
  ghost predicate Tracks<K(!new)>(table: map<K, TokenBucket>, log: seq<Call<K>>, clock: U64, capacity: U32, max: nat) {
    && |table| <= max && NotBefore(log, clock)
    && EntriesOk(table, log, clock)
    && (forall k, now: U64 :: FaithfulAt(table, log, k, clock, now, capacity, max))
  }

  ghost predicate FaithfulAt<K>(
      table: map<K, TokenBucket>, log: seq<Call<K>>, key: K, clock: U64, now: U64, capacity: U32, max: nat)
  {
    clock <= now ==> Faithful(table, log, key, WindowOf(now), capacity, max)
  }

  /** An eviction can take a bucket used in the current window only when every tracked bucket was
      used in that window, so the newcomer makes the window crowded. */
  lemma EvictionMeansCrowd<K(!new)>(
      table: map<K, TokenBucket>, log: seq<Call<K>>, c: Call<K>, max: nat, victim: K)
    requires EntriesOk(table, log, c.at)
    requires c.key !in table && |table| >= max
    requires IsLeast(table, victim, LastSeen)
    requires table[victim].window == WindowOf(c.at)
    ensures forall k | k in table :: table[k].window == WindowOf(c.at)
    ensures Crowded(log + [c], WindowOf(c.at), max)
  {
    var w := WindowOf(c.at);
    assert EntryOk(table[victim], victim, log, c.at);
    forall k | k in table
      ensures table[k].window == w && k in Callers(log, w)
    {
      assert EntryOk(table[k], k, log, c.at);
      assert LastSeen(table[victim]) <= LastSeen(table[k]);
    }
    CallersGrow(log, c, w);
    Subset(table.Keys + {c.key}, Callers(log + [c], w));
    assert |table.Keys + {c.key}| == |table| + 1;
  }

  /** The bucket a call leaves behind: its own, refilled, charged for a grant and stamped, or, when
      the call never reached it, the one that was there. */
  ghost predicate Leaves<K>(table: map<K, TokenBucket>, c: Call<K>, b: TokenBucket, capacity: U32) {
    var left := LeftFor(table, c.key, WindowOf(c.at), capacity);
    && (c.granted ==> left > 0)
    && b.Left(capacity, WindowOf(c.at)) == left - (if c.granted then 1 else 0)
    && ((b.window == WindowOf(c.at) && b.lastSeen == c.at) || (c.key in table && b == table[c.key]))
  }

  /** `after` is `before` with `key` tracked, after the eviction a full map demands. */
  ghost predicate Stored<K(!new)>(before: map<K, TokenBucket>, after: map<K, TokenBucket>, key: K, max: nat) {
    exists kept :: StoredOver(before, kept, after, key, max)
  }

  ghost predicate StoredOver<K(!new)>(
      before: map<K, TokenBucket>, kept: map<K, TokenBucket>, after: map<K, TokenBucket>, key: K, max: nat)
  {
    && (exists dropped :: MadeRoom(before, kept, key, dropped, max, LastSeen))
    && (key in kept || |kept| < max)
    && key in after && after == kept[key := after[key]]
  }

  lemma StoredSize<K(!new)>(
      before: map<K, TokenBucket>, kept: map<K, TokenBucket>, after: map<K, TokenBucket>, key: K, max: nat)
    requires |before| <= max && StoredOver(before, kept, after, key, max)
    ensures |after| <= max
    ensures forall k | k in after && k != key :: k in before && after[k] == before[k]
  {
    assert after.Keys == kept.Keys + {key};
    Subset(kept.Keys, before.Keys);
  }

  lemma StoredAgain<K(!new)>(
      before: map<K, TokenBucket>, after: map<K, TokenBucket>, key: K, max: nat, b: TokenBucket)
    requires Stored(before, after, key, max)
    ensures Stored(before, after[key := b], key, max)
  {
    var kept :| StoredOver(before, kept, after, key, max);
    assert StoredOver(before, kept, after[key := b], key, max);
  }

  /** The step every limiter takes: evict if full, store the caller's bucket, and the map still
      carries the longer history. */
  lemma RecordCall<K(!new)>(
      table: map<K, TokenBucket>, stored: map<K, TokenBucket>, log: seq<Call<K>>, clock: U64, c: Call<K>,
      capacity: U32, max: nat)
    requires Tracks(table, log, clock, capacity, max) && clock <= c.at
    requires Stored(table, stored, c.key, max) && Leaves(table, c, stored[c.key], capacity)
    ensures Tracks(stored, log + [c], c.at, capacity, max)
  {
    var longer := log + [c];
    var kept :| StoredOver(table, kept, stored, c.key, max);
    StoredSize(table, kept, stored, c.key, max);
    forall k | k in stored
      ensures EntryOk(stored[k], k, longer, c.at)
    {
      EntryStays(table, log, clock, c, stored[c.key], capacity, k);
    }
    forall k, now: U64
      ensures FaithfulAt(stored, longer, k, c.at, now, capacity, max)
    {
      if c.at <= now && WindowOf(now) == WindowOf(c.at) {
        FaithfulNow(table, kept, stored, log, clock, c, capacity, max, k);
      } else if c.at <= now {
        FaithfulAhead(stored, longer, c.at, k, WindowOf(now), capacity, max);
      }
    }
  }

  lemma EntryStays<K(!new)>(
      table: map<K, TokenBucket>, log: seq<Call<K>>, clock: U64, c: Call<K>, b: TokenBucket, capacity: U32, k: K)
    requires EntriesOk(table, log, clock) && clock <= c.at
    requires Leaves(table, c, b, capacity)
    ensures k in table ==> EntryOk(table[k], k, log + [c], c.at)
    ensures EntryOk(b, c.key, log + [c], c.at)
  {
    if k in table {
      assert EntryOk(table[k], k, log, clock);
      CallersGrow(log, c, table[k].window);
    }
    CallersGrow(log, c, b.window);
    assert c.key in table ==> EntryOk(table[c.key], c.key, log, clock);
  }

  lemma FaithfulNow<K(!new)>(
      table: map<K, TokenBucket>, kept: map<K, TokenBucket>, stored: map<K, TokenBucket>, log: seq<Call<K>>, clock: U64,
      c: Call<K>, capacity: U32, max: nat, k: K)
    requires Tracks(table, log, clock, capacity, max) && clock <= c.at
    requires StoredOver(table, kept, stored, c.key, max) && Leaves(table, c, stored[c.key], capacity)
    ensures Faithful(stored, log + [c], k, WindowOf(c.at), capacity, max)
  {
    var w := WindowOf(c.at);
    assert FaithfulAt(table, log, k, clock, c.at, capacity, max);
    GrantsStep(log, c, k, w);
    if Crowded(log, w, max) {
      CallersGrow(log, c, w);
      Subset(Callers(log, w), Callers(log + [c], w));
    } else if k != c.key && k in table && k !in stored && table[k].window == w {
      assert forall j | j in table :: EntryOk(table[j], j, log, clock);
      EvictionMeansCrowd(table, log, c, max, k);
    }
  }

  lemma FaithfulAhead<K(!new)>(
      table: map<K, TokenBucket>, log: seq<Call<K>>, clock: U64, k: K, w: U64, capacity: U32, max: nat)
    requires EntriesOk(table, log, clock) && NotBefore(log, clock) && WindowOf(clock) < w
    ensures Faithful(table, log, k, w, capacity, max)
  {
    NoGrantsAhead(log, k, w);
    if k in table {
      assert EntryOk(table[k], k, log, clock);
    }
  }

  // ---- Whole histories ----

  /** The answer to a call is the history's, unless its second was already crowded. */
  ghost predicate RightlyGranted<K>(log: seq<Call<K>>, c: Call<K>, capacity: U32, max: nat) {
    !Crowded(log, WindowOf(c.at), max) ==> (c.granted <==> WithinBudget(log, c.key, c.at, capacity))
  }

  ghost predicate GrantedAt<K>(log: seq<Call<K>>, i: nat, capacity: U32, max: nat)
    requires i < |log|
  {
    RightlyGranted(log[..i], log[i], capacity, max)
  }

  ghost predicate GrantedByHistory<K>(log: seq<Call<K>>, capacity: U32, max: nat) {
    forall i {:trigger GrantedAt(log, i, capacity, max)} | 0 <= i < |log| :: GrantedAt(log, i, capacity, max)
  }

  lemma GrantsGoOn<K>(log: seq<Call<K>>, c: Call<K>, capacity: U32, max: nat)
    requires GrantedByHistory(log, capacity, max) && RightlyGranted(log, c, capacity, max)
    ensures GrantedByHistory(log + [c], capacity, max)
  {
    var longer := log + [c];
    forall i | 0 <= i < |longer|
      ensures GrantedAt(longer, i, capacity, max)
    {
      if i < |log| {
        assert GrantedAt(log, i, capacity, max);
        assert longer[..i] == log[..i];
      } else {
        assert longer[..i] == log;
      }
    }
  }

  /** In every second in which no more sources call than the map can hold, no source is granted more
      than its capacity. */
  lemma GrantsStayWithinBudget<K>(log: seq<Call<K>>, key: K, w: U64, capacity: U32, max: nat)
    requires GrantedByHistory(log, capacity, max) && capacity > 0 && !Crowded(log, w, max)
    ensures Grants(log, key, w) <= capacity
  {
    forall i | 0 <= i < |log| && log[i].granted && log[i].key == key && WindowOf(log[i].at) == w
      ensures WithinBudget(log[..i], key, log[i].at, capacity)
    {
      assert GrantedAt(log, i, capacity, max);
      if Crowded(log[..i], w, max) {
        CrowdGrows(log, i, w, max);
      }
    }
    BudgetBoundsGrants(log, key, w, capacity);
  }

  // ---- In milliseconds ----

  /** How many calls of `key` were granted at a time from `from` up to but not including `to`. */
  ghost function GrantsIn<K>(log: seq<Call<K>>, key: K, from: int, to: int): (n: nat)
    ensures n <= |log|
  {
    if log == [] then 0
    else
      var c := log[|log| - 1];
      GrantsIn(log[..|log| - 1], key, from, to) + if c.granted && c.key == key && from <= c.at < to then 1 else 0
  }

  ghost function AllGrantsIn<K>(log: seq<Call<K>>, from: int, to: int): (n: nat)
    ensures n <= |log|
  {
    if log == [] then 0
    else
      var c := log[|log| - 1];
      AllGrantsIn(log[..|log| - 1], from, to) + if c.granted && from <= c.at < to then 1 else 0
  }

  /** The distinct sources that called then, granted or not. */
  ghost function CallersIn<K>(log: seq<Call<K>>, from: int, to: int): set<K> {
    if log == [] then {}
    else
      var c := log[|log| - 1];
      CallersIn(log[..|log| - 1], from, to) + if from <= c.at < to then {c.key} else {}
  }

  /** A window is one second of the clock. */
  lemma {:induction false} WindowsAreSeconds<K>(log: seq<Call<K>>, key: K, w: U64)
    ensures Grants(log, key, w) == GrantsIn(log, key, 1000 * w, 1000 * w + 1000)
    ensures AllGrants(log, w) == AllGrantsIn(log, 1000 * w, 1000 * w + 1000)
    ensures Callers(log, w) == CallersIn(log, 1000 * w, 1000 * w + 1000)
  {
    if log != [] {
      WindowsAreSeconds(log[..|log| - 1], key, w);
    }
  }

  lemma {:induction false} WiderHasMore<K>(log: seq<Call<K>>, key: K, from: int, to: int, from': int, to': int)
    requires forall i | 0 <= i < |log| :: from <= log[i].at < to ==> from' <= log[i].at < to'
    ensures GrantsIn(log, key, from, to) <= GrantsIn(log, key, from', to')
    ensures AllGrantsIn(log, from, to) <= AllGrantsIn(log, from', to')
    ensures CallersIn(log, from, to) <= CallersIn(log, from', to')
  {
    if log != [] {
      WiderHasMore(log[..|log| - 1], key, from, to, from', to');
    }
  }

  /** What counts against a call is what happened less than a second before it, and no more. */
  lemma OnlyTheLastSecondCounts<K>(log: seq<Call<K>>, key: K, now: U64, max: nat)
    requires NotBefore(log, now)
    ensures Grants(log, key, WindowOf(now)) <= GrantsIn(log, key, now - 999, now + 1)
    ensures AllGrants(log, WindowOf(now)) <= AllGrantsIn(log, now - 999, now + 1)
    ensures |CallersIn(log, now - 999, now + 1)| <= max ==> !Crowded(log, WindowOf(now), max)
  {
    var w := WindowOf(now);
    var start: int := 1000 * (w as int);
    WindowsAreSeconds(log, key, w);
    WiderHasMore(log, key, start, start + 1000, now - 999, now + 1);
    Subset(Callers(log, w), CallersIn(log, now - 999, now + 1));
  }

  /** A source is served if fewer than its capacity were granted to it less than a second ago, and no
      more sources called in that time than the map can hold. */
  ghost predicate ServedIfQuiet<K>(log: seq<Call<K>>, c: Call<K>, capacity: U32, max: nat) {
    GrantsIn(log, c.key, c.at - 999, c.at + 1) < capacity && |CallersIn(log, c.at - 999, c.at + 1)| <= max ==> c.granted
  }

  lemma QuietIsGranted<K>(log: seq<Call<K>>, c: Call<K>, capacity: U32, max: nat)
    requires NotBefore(log, c.at) && RightlyGranted(log, c, capacity, max)
    ensures ServedIfQuiet(log, c, capacity, max)
  {
    OnlyTheLastSecondCounts(log, c.key, c.at, max);
  }
}
