/** The STUN reflector's response limiter: one budget per source address and one for all sources. */
module Stun {
  import opened Net
  import opened Buckets
  import opened RateHistory

  ghost predicate StunAllows(log: seq<Call<Ip>>, key: Ip, now: U64, perIp: U32, global: U32) {
    WithinBudget(log, key, now, perIp) && WithinTotal(log, now, global)
  }

  /** The single bucket all sources share, against the history of all grants. */
  ghost predicate GlobalTracks(b: TokenBucket, log: seq<Call<Ip>>, capacity: U32) {
    && b.window == WindowOf(b.lastSeen)
    && b.tokens == capacity - AllGrants(log, b.window)
    && (forall w: U64 | w > b.window :: AllGrants(log, w) == 0)
  }

  lemma GlobalLeft(b: TokenBucket, log: seq<Call<Ip>>, capacity: U32, now: U64)
    requires GlobalTracks(b, log, capacity) && b.lastSeen <= now
    ensures b.window <= WindowOf(now)
    ensures b.Left(capacity, WindowOf(now)) == capacity - AllGrants(log, WindowOf(now))
  {
  }

  lemma GlobalStep(b: TokenBucket, b': TokenBucket, log: seq<Call<Ip>>, c: Call<Ip>, capacity: U32)
    requires GlobalTracks(b, log, capacity) && b.lastSeen <= c.at
    requires c.granted ==> b.Left(capacity, WindowOf(c.at)) > 0
    requires b' == if c.granted then b.TrySpend(capacity, c.at).0 else b
    ensures GlobalTracks(b', log + [c], capacity)
  {
    GlobalLeft(b, log, capacity, c.at);
    GrantsStep(log, c, c.key, b'.window);
    forall w: U64 | w > b'.window
      ensures AllGrants(log + [c], w) == 0
    {
      GrantsStep(log, c, c.key, w);
    }
  }

  /** A call is granted exactly when both stores have a token left for it. */
  ghost predicate Granted(
      perIp: map<Ip, TokenBucket>, global: TokenBucket, c: Call<Ip>, perIpCapacity: U32, globalCapacity: U32)
  {
    var w := WindowOf(c.at);
    c.granted <==>
      && (perIpCapacity == 0 || LeftFor(perIp, c.key, w, perIpCapacity) > 0)
      && (globalCapacity == 0 || global.Left(globalCapacity, w) > 0)
  }

  /** One call of the limiter, as a relation on its two stores. */
  ghost predicate StunStep(
      perIp: map<Ip, TokenBucket>, global: TokenBucket, perIp': map<Ip, TokenBucket>, global': TokenBucket,
      c: Call<Ip>, perIpCapacity: U32, globalCapacity: U32, max: nat)
  {
    && Granted(perIp, global, c, perIpCapacity, globalCapacity)
    && (if perIpCapacity == 0 then perIp' == perIp
        else Stored(perIp, perIp', c.key, max) && Leaves(perIp, c, perIp'[c.key], perIpCapacity))
    && global' == if c.granted && globalCapacity > 0 then global.TrySpend(globalCapacity, c.at).0 else global
  }

  /** A call's answer is the history's answer, unless its window was already crowded; and no grant
      overruns the shared budget, crowded or not. */
  ghost predicate RightAnswer(log: seq<Call<Ip>>, c: Call<Ip>, perIp: U32, global: U32, max: nat) {
    && (perIp == 0 || !Crowded(log, WindowOf(c.at), max) ==>
          (c.granted <==> StunAllows(log, c.key, c.at, perIp, global)))
    && (c.granted ==> WithinTotal(log, c.at, global))
  }

  ghost predicate AnsweredAt(log: seq<Call<Ip>>, i: nat, perIp: U32, global: U32, max: nat)
    requires i < |log|
  {
    RightAnswer(log[..i], log[i], perIp, global, max)
  }

  ghost predicate AnsweredByHistory(log: seq<Call<Ip>>, perIp: U32, global: U32, max: nat) {
    forall i | 0 <= i < |log| :: AnsweredAt(log, i, perIp, global, max)
  }

  lemma HistoryAppend(log: seq<Call<Ip>>, c: Call<Ip>, perIp: U32, global: U32, max: nat)
    requires AnsweredByHistory(log, perIp, global, max) && RightAnswer(log, c, perIp, global, max)
    ensures AnsweredByHistory(log + [c], perIp, global, max)
  {
    var longer := log + [c];
    forall i | 0 <= i < |longer|
      ensures AnsweredAt(longer, i, perIp, global, max)
    {
      if i < |log| {
        assert AnsweredAt(log, i, perIp, global, max) && longer[..i] == log[..i];
      } else {
        assert longer[..i] == log;
      }
    }
  }

  /** The two stores carry the history. */
  ghost predicate Carries(
      perIp: map<Ip, TokenBucket>, global: TokenBucket, log: seq<Call<Ip>>, clock: U64, perIpCapacity: U32,
      globalCapacity: U32, max: nat)
  {
    && |perIp| <= max && NotBefore(log, clock)
    && (perIpCapacity > 0 ==> Tracks(perIp, log, clock, perIpCapacity, max))
    && (globalCapacity > 0 ==> GlobalTracks(global, log, globalCapacity))
    && global.lastSeen <= clock
  }

  lemma StepCarries(
      perIp: map<Ip, TokenBucket>, global: TokenBucket, perIp': map<Ip, TokenBucket>, global': TokenBucket,
      log: seq<Call<Ip>>, clock: U64, c: Call<Ip>, perIpCapacity: U32, globalCapacity: U32, max: nat)
    requires Carries(perIp, global, log, clock, perIpCapacity, globalCapacity, max)
    requires clock <= c.at
    requires StunStep(perIp, global, perIp', global', c, perIpCapacity, globalCapacity, max)
    ensures Carries(perIp', global', log + [c], c.at, perIpCapacity, globalCapacity, max)
  {
    if perIpCapacity > 0 {
      RecordCall(perIp, perIp', log, clock, c, perIpCapacity, max);
    }
    if globalCapacity > 0 {
      GlobalLeft(global, log, globalCapacity, c.at);
      GlobalStep(global, global', log, c, globalCapacity);
    }
  }

  /** A request is answered if fewer responses than either budget went out less than a second ago, its
      source's of those to it, and no more sources asked in that time than the map can hold. A budget of
      zero is none. */
  ghost predicate AnsweredIfQuiet(log: seq<Call<Ip>>, c: Call<Ip>, perIp: U32, global: U32, max: nat) {
    && (perIp == 0 || GrantsIn(log, c.key, c.at - 999, c.at + 1) < perIp)
    && (global == 0 || AllGrantsIn(log, c.at - 999, c.at + 1) < global)
    && |CallersIn(log, c.at - 999, c.at + 1)| <= max
    ==> c.granted
  }

  lemma QuietIsAnswered(log: seq<Call<Ip>>, c: Call<Ip>, perIp: U32, global: U32, max: nat)
    requires NotBefore(log, c.at) && RightAnswer(log, c, perIp, global, max)
    ensures AnsweredIfQuiet(log, c, perIp, global, max)
  {
    OnlyTheLastSecondCounts(log, c.key, c.at, max);
  }

  lemma StepAnswers(
      perIp: map<Ip, TokenBucket>, global: TokenBucket, log: seq<Call<Ip>>, clock: U64, c: Call<Ip>,
      perIpCapacity: U32, globalCapacity: U32, max: nat)
    requires Carries(perIp, global, log, clock, perIpCapacity, globalCapacity, max)
    requires clock <= c.at
    requires Granted(perIp, global, c, perIpCapacity, globalCapacity)
    ensures RightAnswer(log, c, perIpCapacity, globalCapacity, max)
    ensures AnsweredIfQuiet(log, c, perIpCapacity, globalCapacity, max)
  {
    if perIpCapacity > 0 {
      assert FaithfulAt(perIp, log, c.key, clock, c.at, perIpCapacity, max);
    }
    if globalCapacity > 0 {
      GlobalLeft(global, log, globalCapacity, c.at);
    }
    QuietIsAnswered(log, c, perIpCapacity, globalCapacity, max);
  }

  class StunRateLimiter {
    const perIpCapacity: U32
    const globalCapacity: U32
    const maxTracked: nat
    var perIp: map<Ip, TokenBucket>
    var global: TokenBucket
    ghost var clock: U64
    ghost var log: seq<Call<Ip>>

    ghost predicate Valid()
      reads this
    {
      && maxTracked >= 1
      && Carries(perIp, global, log, clock, perIpCapacity, globalCapacity, maxTracked)
      && AnsweredByHistory(log, perIpCapacity, globalCapacity, maxTracked)
    }

    constructor (perIpCapacity: U32, globalCapacity: U32, now: U64, maxTracked: nat)
      requires maxTracked >= 1
      ensures Valid() && log == [] && clock == now && perIp == map[]
      ensures this.perIpCapacity == perIpCapacity && this.globalCapacity == globalCapacity
      ensures this.maxTracked == maxTracked
    {
      this.perIpCapacity := perIpCapacity;
      this.globalCapacity := globalCapacity;
      this.maxTracked := maxTracked;
      perIp := map[];
      // Made even when the relay-wide budget is off, so that its capacity is never 0.
      global := TokenBucket.New(if globalCapacity > 1 then globalCapacity else 1, now);
      clock := now;
      log := [];
    }

    /** Whether a response to `src` may be sent at `now`. The answer is the history's answer, in
        every window in which no more sources called than the map can hold; the shared budget is
        never overrun in any window. */
    method Allow(src: Ip, now: U64) returns (ok: bool)
      requires Valid() && clock <= now
      modifies this`perIp, this`global, this`clock, this`log
      ensures Valid() && clock == now
      ensures log == old(log) + [Call(Canonical(src), now, ok)]
      ensures StunStep(old(perIp), old(global), perIp, global, Call(Canonical(src), now, ok),
                       perIpCapacity, globalCapacity, maxTracked)
      ensures RightAnswer(old(log), Call(Canonical(src), now, ok), perIpCapacity, globalCapacity, maxTracked)
      ensures AnsweredIfQuiet(old(log), Call(Canonical(src), now, ok), perIpCapacity, globalCapacity, maxTracked)
    {
      ok := Decide(Canonical(src), now);
      ghost var c := Call(Canonical(src), now, ok);
      StepCarries(old(perIp), old(global), perIp, global, log, clock, c, perIpCapacity, globalCapacity, maxTracked);
      StepAnswers(old(perIp), old(global), log, clock, c, perIpCapacity, globalCapacity, maxTracked);
      HistoryAppend(log, c, perIpCapacity, globalCapacity, maxTracked);
      log := log + [c];
      clock := now;
    }

    /** Peek at both budgets and commit a token in each only when both permit. */
    method Decide(key: Ip, now: U64) returns (ok: bool)
      requires maxTracked >= 1 && |perIp| <= maxTracked
      modifies this`perIp, this`global
      ensures StunStep(old(perIp), old(global), perIp, global, Call(key, now, ok),
                       perIpCapacity, globalCapacity, maxTracked)
    {
      var w := WindowOf(now);
      if perIpCapacity > 0 {
        BucketFor(key, now);
        if perIp[key].Left(perIpCapacity, w) == 0 {
          // A throttled source still counts as seen, so it is not the first to be evicted.
          StoredAgain(old(perIp), perIp, key, maxTracked, perIp[key].(lastSeen := now));
          perIp := perIp[key := perIp[key].(lastSeen := now)];
          return false;
        }
      }
      if globalCapacity > 0 && global.Left(globalCapacity, w) == 0 {
        return false;
      }
      if perIpCapacity > 0 {
        BucketFor(key, now);
        StoredAgain(old(perIp), perIp, key, maxTracked, perIp[key].TrySpend(perIpCapacity, now).0);
        perIp := perIp[key := perIp[key].TrySpend(perIpCapacity, now).0];
      }
      if globalCapacity > 0 {
        global := global.TrySpend(globalCapacity, now).0;
      }
      return true;
    }

    /** Track `key`, with a fresh bucket if it has none, evicting the least recently seen source
        first when the map is full. */
    method BucketFor(key: Ip, now: U64)
      requires maxTracked >= 1 && |perIp| <= maxTracked && perIpCapacity > 0
      modifies this`perIp
      ensures Stored(old(perIp), perIp, key, maxTracked) && |perIp| <= maxTracked
      ensures perIp[key] == if key in old(perIp) then old(perIp)[key] else TokenBucket.New(perIpCapacity, now)
      ensures key in old(perIp) ==> perIp == old(perIp)
    {
      var kept, _ := EvictLeastIfFull(perIp, key, maxTracked, LastSeen);
      if key in kept {
        perIp := kept;
        assert kept == kept[key := perIp[key]];
      } else {
        perIp := kept[key := TokenBucket.New(if perIpCapacity > 1 then perIpCapacity else 1, now)];
      }
      assert StoredOver(old(perIp), kept, perIp, key, maxTracked);
      StoredSize(old(perIp), kept, perIp, key, maxTracked);
    }
  }

  /** The history a run of the receive loop leaves behind. */
  ghost function History(requests: seq<(Ip, U64)>, answers: seq<bool>): (log: seq<Call<Ip>>)
    requires |requests| == |answers|
    ensures |log| == |requests|
  {
    seq(|requests|, i requires 0 <= i < |requests| => Call(Canonical(requests[i].0), requests[i].1, answers[i]))
  }

  /** The receive loop over any finite run of well-formed requests: which of them are answered. */
  method Serve(perIp: U32, global: U32, start: U64, max: nat, requests: seq<(Ip, U64)>) returns (answers: seq<bool>)
    requires max >= 1
    requires forall i | 0 <= i < |requests| :: start <= requests[i].1
    requires forall i, j | 0 <= i < j < |requests| :: requests[i].1 <= requests[j].1
    ensures |answers| == |requests|
    ensures AnsweredByHistory(History(requests, answers), perIp, global, max)
    ensures forall i | 0 <= i < |requests| ::
              AnsweredIfQuiet(History(requests, answers)[..i], History(requests, answers)[i], perIp, global, max)
  {
    var limiter := new StunRateLimiter(perIp, global, start, max);
    answers := [];
    for n := 0 to |requests|
      invariant fresh(limiter) && limiter.Valid() && |answers| == n
      invariant limiter.perIpCapacity == perIp && limiter.globalCapacity == global && limiter.maxTracked == max
      invariant limiter.clock == if n == 0 then start else requests[n - 1].1
      invariant limiter.log == History(requests[..n], answers)
    {
      var ok := limiter.Allow(requests[n].0, requests[n].1);
      HistoryStep(requests, answers, ok);
      answers := answers + [ok];
    }
    assert requests[..|requests|] == requests;
    ghost var log := History(requests, answers);
    forall i | 0 <= i < |requests|
      ensures AnsweredIfQuiet(log[..i], log[i], perIp, global, max)
    {
      assert AnsweredAt(log, i, perIp, global, max);
      QuietIsAnswered(log[..i], log[i], perIp, global, max);
    }
  }

  lemma HistoryStep(requests: seq<(Ip, U64)>, answers: seq<bool>, ok: bool)
    requires |answers| < |requests|
    ensures History(requests[..|answers| + 1], answers + [ok])
         == History(requests[..|answers|], answers)
            + [Call(Canonical(requests[|answers|].0), requests[|answers|].1, ok)]
  {
  }

  /** Over a whole run: the shared budget holds in every second of the clock, and a source's own budget
      holds in every second in which at most `max` distinct sources called. */
  lemma RunStaysWithinBudgets(log: seq<Call<Ip>>, perIp: U32, global: U32, max: nat, key: Ip, w: U64)
    requires AnsweredByHistory(log, perIp, global, max)
    ensures global > 0 ==> AllGrantsIn(log, 1000 * w, 1000 * w + 1000) <= global
    ensures perIp > 0 && |CallersIn(log, 1000 * w, 1000 * w + 1000)| <= max ==>
              GrantsIn(log, key, 1000 * w, 1000 * w + 1000) <= perIp
  {
    WindowsAreSeconds(log, key, w);
    forall i | 0 <= i < |log|
      ensures RightAnswer(log[..i], log[i], perIp, global, max)
    {
      assert AnsweredAt(log, i, perIp, global, max);
    }
    if global > 0 {
      TotalBoundsGrants(log, w, global);
    }
    if perIp > 0 && !Crowded(log, w, max) {
      forall i | 0 <= i < |log| && log[i].granted && log[i].key == key && WindowOf(log[i].at) == w
        ensures WithinBudget(log[..i], key, log[i].at, perIp)
      {
        if Crowded(log[..i], w, max) {
          CrowdGrows(log, i, w, max);
        }
      }
      BudgetBoundsGrants(log, key, w, perIp);
    }
  }

  // ---- The crowd condition is needed ----

  /** A run of the limiter without a shared budget: its tables before and after each call. */
  ghost predicate StunRun(
      tables: seq<map<Ip, TokenBucket>>, log: seq<Call<Ip>>, g: TokenBucket, capacity: U32, max: nat)
  {
    && |tables| == |log| + 1 && tables[0] == map[]
    && forall i {:trigger RunsAt(tables, log, g, capacity, max, i)} | 0 <= i < |log| ::
         RunsAt(tables, log, g, capacity, max, i)
  }

  ghost predicate RunsAt(
      tables: seq<map<Ip, TokenBucket>>, log: seq<Call<Ip>>, g: TokenBucket, capacity: U32, max: nat, i: nat)
    requires i < |log| && |tables| == |log| + 1
  {
    StunStep(tables[i], g, tables[i + 1], g, log[i], capacity, 0, max)
  }

  /** One source spends its budget, as many others as the map holds call a millisecond later, and the
      first calls again, all in one second. */
  ghost predicate Crowd(log: seq<Call<Ip>>, a: Ip, others: seq<Ip>, capacity: U32) {
    && |log| == capacity + |others| + 1
    && forall i {:trigger CrowdCall(log, a, others, capacity, i)} | 0 <= i < |log| ::
         CrowdCall(log, a, others, capacity, i)
  }

  ghost predicate CrowdCall(log: seq<Call<Ip>>, a: Ip, others: seq<Ip>, capacity: U32, i: nat)
    requires i < |log| == capacity + |others| + 1
  {
    if i < capacity then log[i].key == a && log[i].at == 0
    else if i < capacity + |others| then log[i].key == others[i - capacity] && log[i].at == 1
    else log[i].key == a && log[i].at == 2
  }

  ghost predicate AllDistinct(a: Ip, others: seq<Ip>) {
    a !in others && forall i, j | 0 <= i < j < |others| :: others[i] != others[j]
  }

  lemma StoredWithRoom(before: map<Ip, TokenBucket>, after: map<Ip, TokenBucket>, key: Ip, max: nat)
    requires Stored(before, after, key, max) && (key in before || |before| < max)
    ensures key in after && after == before[key := after[key]]
  {
    var kept :| StoredOver(before, kept, after, key, max);
  }

  lemma StoredForLeast(before: map<Ip, TokenBucket>, after: map<Ip, TokenBucket>, key: Ip, max: nat, oldest: Ip)
    requires Stored(before, after, key, max) && key !in before && |before| >= max && oldest in before
    requires forall k | k in before && k != oldest :: before[oldest].lastSeen < before[k].lastSeen
    ensures key in after && after == (before - {oldest})[key := after[key]]
  {
    var kept :| StoredOver(before, kept, after, key, max);
    var dropped :| MadeRoom(before, kept, key, dropped, max, LastSeen);
    assert LastSeen(before[oldest]) == before[oldest].lastSeen;
    assert dropped.Some? && LastSeen(before[dropped.value]) <= LastSeen(before[oldest]);
  }

  /** The first source's calls: each is granted, and it alone is tracked. */
  lemma {:induction false} SpendsItsBudget(
      tables: seq<map<Ip, TokenBucket>>, log: seq<Call<Ip>>, g: TokenBucket, a: Ip, others: seq<Ip>, capacity: U32,
      max: nat, n: nat)
    requires StunRun(tables, log, g, capacity, max) && Crowd(log, a, others, capacity) && capacity >= 1
    requires max >= 1 && n <= capacity
    ensures tables[n].Keys == (if n == 0 then {} else {a}) && LeftFor(tables[n], a, 0, capacity) == capacity - n
    ensures n > 0 ==> tables[n][a].lastSeen == 0
    ensures Grants(log[..n], a, 0) == n && forall i | 0 <= i < n :: log[i].granted
  {
    if n > 0 {
      SpendsItsBudget(tables, log, g, a, others, capacity, max, n - 1);
      assert RunsAt(tables, log, g, capacity, max, n - 1) && CrowdCall(log, a, others, capacity, n - 1);
      StoredWithRoom(tables[n - 1], tables[n], a, max);
      assert log[..n][..n - 1] == log[..n - 1];
    }
  }

  /** Those tracked after `n` of the others have called. */
  ghost predicate Crowding(table: map<Ip, TokenBucket>, a: Ip, others: seq<Ip>, n: nat, max: nat)
    requires n <= |others|
  {
    && |table| == (if n < max then n + 1 else max)
    && forall k {:trigger CrowdMember(table, a, others, n, max, k)} :: CrowdMember(table, a, others, n, max, k)
  }

  ghost predicate CrowdMember(table: map<Ip, TokenBucket>, a: Ip, others: seq<Ip>, n: nat, max: nat, k: Ip)
    requires n <= |others|
  {
    && (k in table <==> k in others[..n] || (k == a && n < max))
    && (k in table ==> table[k].lastSeen == if k == a then 0 else 1)
  }

  /** The others' calls: each is granted, and the last of them puts the first source out. */
  lemma {:induction false} CrowdsIn(
      tables: seq<map<Ip, TokenBucket>>, log: seq<Call<Ip>>, g: TokenBucket, a: Ip, others: seq<Ip>, capacity: U32,
      max: nat, n: nat)
    requires StunRun(tables, log, g, capacity, max) && Crowd(log, a, others, capacity) && AllDistinct(a, others)
    requires capacity >= 1 && max >= 1 && |others| == max && n <= max
    ensures Crowding(tables[capacity + n], a, others, n, max)
    ensures Grants(log[..capacity + n], a, 0) == capacity && forall i | 0 <= i < capacity + n :: log[i].granted
  {
    if n == 0 {
      SpendsItsBudget(tables, log, g, a, others, capacity, max, capacity);
      assert |tables[capacity].Keys| == 1;
      forall k
        ensures CrowdMember(tables[capacity], a, others, 0, max, k)
      {
      }
    } else {
      CrowdsIn(tables, log, g, a, others, capacity, max, n - 1);
      var m := capacity + n - 1;
      assert RunsAt(tables, log, g, capacity, max, m) && CrowdCall(log, a, others, capacity, m);
      assert log[..m + 1][..m] == log[..m];
      NotYet(a, others, n);
      assert CrowdMember(tables[m], a, others, n - 1, max, others[n - 1]);
      OneMoreCalls(tables[m], tables[m + 1], log[m], a, others, capacity, max, n);
    }
  }

  lemma NotYet(a: Ip, others: seq<Ip>, n: nat)
    requires AllDistinct(a, others) && 1 <= n <= |others|
    ensures others[..n] == others[..n - 1] + [others[n - 1]] && others[n - 1] !in others[..n - 1] && others[n - 1] != a
  {
  }

  lemma OneMoreCalls(
      before: map<Ip, TokenBucket>, after: map<Ip, TokenBucket>, c: Call<Ip>, a: Ip, others: seq<Ip>, capacity: U32,
      max: nat, n: nat)
    requires capacity >= 1 && 1 <= n <= max == |others| && AllDistinct(a, others)
    requires Crowding(before, a, others, n - 1, max)
    requires c.key == others[n - 1] && c.at == 1 && Stored(before, after, c.key, max)
    requires Leaves(before, c, after[c.key], capacity)
    ensures Crowding(after, a, others, n, max)
  {
    NotYet(a, others, n);
    assert CrowdMember(before, a, others, n - 1, max, c.key) && CrowdMember(before, a, others, n - 1, max, a);
    if n < max {
      StoredWithRoom(before, after, c.key, max);
      Grows(before, after, c.key);
    } else {
      forall k | k in before && k != a
        ensures before[a].lastSeen < before[k].lastSeen
      {
        assert CrowdMember(before, a, others, n - 1, max, k);
      }
      StoredForLeast(before, after, c.key, max, a);
      Trades(before, after, a, c.key);
    }
    forall k
      ensures CrowdMember(after, a, others, n, max, k)
    {
      assert CrowdMember(before, a, others, n - 1, max, k);
    }
  }

  lemma Grows(before: map<Ip, TokenBucket>, after: map<Ip, TokenBucket>, key: Ip)
    requires key !in before && key in after && after == before[key := after[key]]
    ensures |after| == |before| + 1
  {
    assert after.Keys == before.Keys + {key};
  }

  lemma Trades(before: map<Ip, TokenBucket>, after: map<Ip, TokenBucket>, oldest: Ip, key: Ip)
    requires oldest in before && key !in before && key in after && after == (before - {oldest})[key := after[key]]
    ensures |after| == |before| && forall k :: k in after <==> k == key || (k in before && k != oldest)
  {
    assert after.Keys == before.Keys - {oldest} + {key};
    assert |before.Keys - {oldest}| == |before.Keys| - 1;
  }

  /** For every bound and budget that crowd gets the first source past its budget in one second. */
  lemma CrowdIsGranted(
      tables: seq<map<Ip, TokenBucket>>, log: seq<Call<Ip>>, g: TokenBucket, a: Ip, others: seq<Ip>, capacity: U32,
      max: nat)
    requires StunRun(tables, log, g, capacity, max) && Crowd(log, a, others, capacity) && AllDistinct(a, others)
    requires capacity >= 1 && max >= 1 && |others| == max
    ensures (forall i | 0 <= i < |log| :: log[i].granted) && Grants(log, a, 0) == capacity + 1
  {
    var m := capacity + max;
    CrowdsIn(tables, log, g, a, others, capacity, max, max);
    assert RunsAt(tables, log, g, capacity, max, m) && CrowdCall(log, a, others, capacity, m);
    PutOut(tables[m], a, others, max);
    UnknownIsGranted(tables[m], tables[m + 1], g, log[m], capacity, max);
    assert log == log[..m] + [log[m]];
    GrantsStep(log[..m], log[m], a, 0);
  }

  lemma PutOut(table: map<Ip, TokenBucket>, a: Ip, others: seq<Ip>, max: nat)
    requires |others| == max && Crowding(table, a, others, max, max) && a !in others
    ensures a !in table
  {
    assert CrowdMember(table, a, others, max, max, a) && others[..max] == others;
  }

  lemma UnknownIsGranted(
      before: map<Ip, TokenBucket>, after: map<Ip, TokenBucket>, g: TokenBucket, c: Call<Ip>, capacity: U32, max: nat)
    requires StunStep(before, g, after, g, c, capacity, 0, max) && c.key !in before && capacity >= 1
    ensures c.granted
  {
  }

  function CrowdKey(a: Ip, others: seq<Ip>, capacity: U32, i: nat): Ip {
    if capacity <= i < capacity + |others| then others[i - capacity] else a
  }

  function CrowdTime(others: seq<Ip>, capacity: U32, i: nat): U64 {
    if i < capacity then 0 else if i < capacity + |others| then 1 else 2
  }

  /** The first calls of the crowd, and a run of the limiter over them that ends in `table`. */
  ghost predicate CrowdSoFar(
      tables: seq<map<Ip, TokenBucket>>, log: seq<Call<Ip>>, g: TokenBucket, a: Ip, others: seq<Ip>, capacity: U32,
      table: map<Ip, TokenBucket>, answers: seq<bool>)
  {
    && StunRun(tables, log, g, capacity, |others|) && tables[|log|] == table && |answers| == |log|
    && forall i | 0 <= i < |log| ::
         log[i] == Call(CrowdKey(a, others, capacity, i), CrowdTime(others, capacity, i), answers[i])
  }

  lemma CrowdGoesOn(
      tables: seq<map<Ip, TokenBucket>>, log: seq<Call<Ip>>, g: TokenBucket, a: Ip, others: seq<Ip>, capacity: U32,
      table: map<Ip, TokenBucket>, answers: seq<bool>, after: map<Ip, TokenBucket>, ok: bool)
    requires CrowdSoFar(tables, log, g, a, others, capacity, table, answers)
    requires var c := Call(CrowdKey(a, others, capacity, |log|), CrowdTime(others, capacity, |log|), ok);
             StunStep(table, g, after, g, c, capacity, 0, |others|)
    ensures var c := Call(CrowdKey(a, others, capacity, |log|), CrowdTime(others, capacity, |log|), ok);
            CrowdSoFar(tables + [after], log + [c], g, a, others, capacity, after, answers + [ok])
  {
    var c := Call(CrowdKey(a, others, capacity, |log|), CrowdTime(others, capacity, |log|), ok);
    var longer, calls := tables + [after], log + [c];
    forall i | 0 <= i < |calls|
      ensures RunsAt(longer, calls, g, capacity, |others|, i)
    {
      if i < |log| {
        assert RunsAt(tables, log, g, capacity, |others|, i);
      }
    }
  }

  lemma WholeCrowd(
      tables: seq<map<Ip, TokenBucket>>, log: seq<Call<Ip>>, g: TokenBucket, a: Ip, others: seq<Ip>, capacity: U32,
      table: map<Ip, TokenBucket>, answers: seq<bool>)
    requires CrowdSoFar(tables, log, g, a, others, capacity, table, answers) && AllDistinct(a, others)
    requires capacity >= 1 && |others| >= 1 && |log| == capacity + |others| + 1
    ensures Crowd(log, a, others, capacity) && Grants(log, a, 0) == capacity + 1
    ensures forall i | 0 <= i < |answers| :: answers[i] && log[i].granted
  {
    forall i | 0 <= i < |log|
      ensures CrowdCall(log, a, others, capacity, i)
    {
    }
    CrowdIsGranted(tables, log, g, a, others, capacity, |others|);
  }

  /** So the limiter itself, at every budget and bound, can be taken past a source's budget within one
      second: it answers every call of such a crowd. */
  method CrowdResetsBudget(a: Ip, others: seq<Ip>, capacity: U32) returns (answers: seq<bool>, ghost log: seq<Call<Ip>>)
    requires capacity >= 1 && |others| >= 1 && AllDistinct(a, others)
    requires Canonical(a) == a && forall x | x in others :: Canonical(x) == x
    ensures |answers| == capacity + |others| + 1 && forall i | 0 <= i < |answers| :: answers[i]
    ensures |log| == |answers| && Crowd(log, a, others, capacity) && forall i | 0 <= i < |log| :: log[i].granted
    ensures AnsweredByHistory(log, capacity, 0, |others|) && Grants(log, a, 0) == capacity + 1
  {
    var limiter := new StunRateLimiter(capacity, 0, 0, |others|);
    ghost var g, tables := limiter.global, [limiter.perIp];
    answers := [];
    for i := 0 to capacity + |others| + 1
      invariant fresh(limiter) && limiter.Valid() && limiter.global == g && limiter.maxTracked == |others|
      invariant limiter.perIpCapacity == capacity && limiter.globalCapacity == 0 && |answers| == i
      invariant limiter.clock <= CrowdTime(others, capacity, i)
      invariant CrowdSoFar(tables, limiter.log, g, a, others, capacity, limiter.perIp, answers)
    {
      ghost var table, calls := limiter.perIp, limiter.log;
      var ok := limiter.Allow(CrowdKey(a, others, capacity, i), CrowdTime(others, capacity, i));
      CrowdGoesOn(tables, calls, g, a, others, capacity, table, answers, limiter.perIp, ok);
      tables := tables + [limiter.perIp];
      answers := answers + [ok];
    }
    log := limiter.log;
    WholeCrowd(tables, log, g, a, others, capacity, limiter.perIp, answers);
  }
}
