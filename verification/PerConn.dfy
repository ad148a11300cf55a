/** The per-connection limiter: a frame rate, a byte rate and a lifetime byte cap. */
module PerConn {
  import opened Net
  import opened Buckets

  datatype ByteBucket = ByteBucket(remaining: U64, window: U64) {

    static function New(capacity: U64, now: U64): ByteBucket {
      ByteBucket(capacity, WindowOf(now))
    }

    function Left(capacity: U64, w: U64): U64 {
      if window != w then capacity else remaining
    }

    function TrySpend(capacity: U64, cost: U64, now: U64): (r: (ByteBucket, bool))
      ensures r.1 <==> cost <= Left(capacity, WindowOf(now))
      ensures r.0.window == WindowOf(now)
      ensures r.0.remaining == Left(capacity, WindowOf(now)) - (if r.1 then cost else 0)
    {
      var w := WindowOf(now);
      var refilled := if w != window then ByteBucket(capacity, w) else this;
      if refilled.remaining >= cost then (refilled.(remaining := refilled.remaining - cost), true)
      else (refilled, false)
    }
  }

  /** The configured limits; zero disables a dimension. */
  datatype Budget = Budget(msgsPerSec: U32, bytesPerSec: U64, maxTotal: U64)

  /** What became of a frame. Only the last keeps the connection. */
  datatype Verdict = TooManyFrames | TooManyBytes | PastTotal | Admitted

  datatype Frame = Frame(len: U64, at: U64, verdict: Verdict)

  // ---- The limiter as a history ----

  ghost predicate ChargedMessage(f: Frame) {
    !f.verdict.TooManyFrames?
  }

  ghost predicate ChargedBytes(f: Frame) {
    f.verdict.PastTotal? || f.verdict.Admitted?
  }

  ghost function MessagesIn(log: seq<Frame>, w: U64): nat {
    if log == [] then 0
    else
      var f := log[|log| - 1];
      MessagesIn(log[..|log| - 1], w) + if ChargedMessage(f) && WindowOf(f.at) == w then 1 else 0
  }

  ghost function BytesIn(log: seq<Frame>, w: U64): nat {
    if log == [] then 0
    else
      var f := log[|log| - 1];
      BytesIn(log[..|log| - 1], w) + if ChargedBytes(f) && WindowOf(f.at) == w then f.len else 0
  }

  ghost function TotalBytes(log: seq<Frame>): nat {
    if log == [] then 0
    else
      var f := log[|log| - 1];
      TotalBytes(log[..|log| - 1]) + if ChargedBytes(f) then f.len else 0
  }

  ghost function Capped(n: nat): U64 {
    if n <= U64_MAX then n else U64_MAX
  }

  /** What a frame's verdict must be, from the frames before it alone. */
  ghost function Judge(budget: Budget, log: seq<Frame>, len: U64, now: U64): Verdict {
    var w := WindowOf(now);
    if budget.msgsPerSec > 0 && MessagesIn(log, w) >= budget.msgsPerSec then TooManyFrames
    else if budget.bytesPerSec > 0 && BytesIn(log, w) + len > budget.bytesPerSec then TooManyBytes
    else if budget.maxTotal > 0 && Capped(TotalBytes(log) + len) > budget.maxTotal then PastTotal
    else Admitted
  }

  ghost predicate JudgedAt(budget: Budget, log: seq<Frame>, i: nat)
    requires i < |log|
  {
    log[i].verdict == Judge(budget, log[..i], log[i].len, log[i].at)
  }

  ghost predicate WellJudged(budget: Budget, log: seq<Frame>) {
    forall i | 0 <= i < |log| :: JudgedAt(budget, log, i)
  }

  lemma LogStep(log: seq<Frame>, f: Frame, w: U64)
    ensures MessagesIn(log + [f], w) == MessagesIn(log, w) + if ChargedMessage(f) && WindowOf(f.at) == w then 1 else 0
    ensures BytesIn(log + [f], w) == BytesIn(log, w) + if ChargedBytes(f) && WindowOf(f.at) == w then f.len else 0
    ensures TotalBytes(log + [f]) == TotalBytes(log) + if ChargedBytes(f) then f.len else 0
  {
    assert (log + [f])[..|log|] == log;
  }

  lemma JudgedStep(budget: Budget, log: seq<Frame>, f: Frame)
    requires WellJudged(budget, log) && f.verdict == Judge(budget, log, f.len, f.at)
    ensures WellJudged(budget, log + [f])
  {
    var longer := log + [f];
    forall i | 0 <= i < |longer|
      ensures JudgedAt(budget, longer, i)
    {
      if i < |log| {
        assert JudgedAt(budget, log, i) && longer[..i] == log[..i];
      } else {
        assert longer[..i] == log;
      }
    }
  }

  // ---- In milliseconds ----

  /** The frames charged at a time from `from` up to but not including `to`. */
  ghost function FramesFrom(log: seq<Frame>, from: int, to: int): nat {
    if log == [] then 0
    else
      var f := log[|log| - 1];
      FramesFrom(log[..|log| - 1], from, to) + if ChargedMessage(f) && from <= f.at < to then 1 else 0
  }

  ghost function BytesFrom(log: seq<Frame>, from: int, to: int): nat {
    if log == [] then 0
    else
      var f := log[|log| - 1];
      BytesFrom(log[..|log| - 1], from, to) + if ChargedBytes(f) && from <= f.at < to then f.len else 0
  }

  /** A window is one second of the clock. */
  lemma {:induction false} WindowsAreSeconds(log: seq<Frame>, w: U64)
    ensures MessagesIn(log, w) == FramesFrom(log, 1000 * w, 1000 * w + 1000)
    ensures BytesIn(log, w) == BytesFrom(log, 1000 * w, 1000 * w + 1000)
  {
    if log != [] {
      WindowsAreSeconds(log[..|log| - 1], w);
    }
  }

  lemma {:induction false} WiderHasMore(log: seq<Frame>, from: int, to: int, from': int, to': int)
    requires forall i | 0 <= i < |log| :: from <= log[i].at < to ==> from' <= log[i].at < to'
    ensures FramesFrom(log, from, to) <= FramesFrom(log, from', to')
    ensures BytesFrom(log, from, to) <= BytesFrom(log, from', to')
  {
    if log != [] {
      WiderHasMore(log[..|log| - 1], from, to, from', to');
    }
  }

  /** A frame fits if the frames and the bytes charged less than a second ago leave room for it in both
      budgets, and all bytes so far in the lifetime cap. A limit of zero is none. */
  ghost predicate Fits(budget: Budget, log: seq<Frame>, len: U64, now: U64) {
    && (budget.msgsPerSec == 0 || FramesFrom(log, now - 999, now + 1) < budget.msgsPerSec)
    && (budget.bytesPerSec == 0 || BytesFrom(log, now - 999, now + 1) + len <= budget.bytesPerSec)
    && (budget.maxTotal == 0 || TotalBytes(log) + len <= budget.maxTotal)
  }

  lemma FitsIsAdmitted(budget: Budget, log: seq<Frame>, len: U64, now: U64)
    requires forall i | 0 <= i < |log| :: log[i].at <= now
    ensures Fits(budget, log, len, now) ==> Judge(budget, log, len, now).Admitted?
  {
    var w := WindowOf(now);
    var start: int := 1000 * (w as int);
    WindowsAreSeconds(log, w);
    WiderHasMore(log, start, start + 1000, now - 999, now + 1);
  }

  // ---- The limiter ----

  /** The two buckets carry what the history says of the current window and of no later one. */
  ghost predicate MessagesTracked(b: TokenBucket, log: seq<Frame>, clock: U64, capacity: U32) {
    && b.window <= WindowOf(clock)
    && b.tokens == capacity - MessagesIn(log, b.window)
    && forall w: U64 | w > b.window :: MessagesIn(log, w) == 0
  }

  ghost predicate BytesTracked(b: ByteBucket, log: seq<Frame>, clock: U64, capacity: U64) {
    && b.window <= WindowOf(clock)
    && b.remaining == capacity - BytesIn(log, b.window)
    && forall w: U64 | w > b.window :: BytesIn(log, w) == 0
  }

  lemma MessagesStep(b: TokenBucket, log: seq<Frame>, clock: U64, f: Frame, capacity: U32)
    requires capacity > 0 && MessagesTracked(b, log, clock, capacity) && clock <= f.at
    requires ChargedMessage(f) <==> b.TrySpend(capacity, f.at).1
    ensures b.TrySpend(capacity, f.at).1 <==> MessagesIn(log, WindowOf(f.at)) < capacity
    ensures MessagesTracked(b.TrySpend(capacity, f.at).0, log + [f], f.at, capacity)
  {
    LogStep(log, f, WindowOf(f.at));
    forall w: U64 | w > WindowOf(f.at)
      ensures MessagesIn(log + [f], w) == 0
    {
      LogStep(log, f, w);
    }
  }

  lemma BytesStep(b: ByteBucket, log: seq<Frame>, clock: U64, f: Frame, capacity: U64)
    requires capacity > 0 && BytesTracked(b, log, clock, capacity) && clock <= f.at
    requires ChargedBytes(f) <==> b.TrySpend(capacity, f.len, f.at).1
    ensures b.TrySpend(capacity, f.len, f.at).1 <==> BytesIn(log, WindowOf(f.at)) + f.len <= capacity
    ensures BytesTracked(b.TrySpend(capacity, f.len, f.at).0, log + [f], f.at, capacity)
  {
    LogStep(log, f, WindowOf(f.at));
    forall w: U64 | w > WindowOf(f.at)
      ensures BytesIn(log + [f], w) == 0
    {
      LogStep(log, f, w);
    }
  }

  /** A frame refused before its bytes were charged leaves the byte bucket faithful. */
  lemma BytesUntouched(b: ByteBucket, log: seq<Frame>, clock: U64, f: Frame, capacity: U64)
    requires BytesTracked(b, log, clock, capacity) && clock <= f.at && !ChargedBytes(f)
    ensures BytesTracked(b, log + [f], f.at, capacity)
  {
    LogStep(log, f, b.window);
    forall w: U64 | w > b.window
      ensures BytesIn(log + [f], w) == 0
    {
      LogStep(log, f, w);
    }
  }

  /** The counters carry the history. */
  ghost predicate Carries(
      budget: Budget, msgs: TokenBucket, bytes: ByteBucket, total: U64, log: seq<Frame>, clock: U64)
  {
    && (budget.msgsPerSec > 0 ==> MessagesTracked(msgs, log, clock, budget.msgsPerSec))
    && (budget.bytesPerSec > 0 ==> BytesTracked(bytes, log, clock, budget.bytesPerSec))
    && total == Capped(TotalBytes(log))
  }

  /** One frame against the counters, each dimension charged only when the ones before it pass. */
  ghost predicate Charged(
      budget: Budget, msgs: TokenBucket, bytes: ByteBucket, total: U64,
      msgs': TokenBucket, bytes': ByteBucket, total': U64, f: Frame)
  {
    var m, b := msgs.TrySpend(budget.msgsPerSec, f.at), bytes.TrySpend(budget.bytesPerSec, f.len, f.at);
    var framesFit := budget.msgsPerSec == 0 || m.1;
    var bytesFit := budget.bytesPerSec == 0 || b.1;
    && (budget.msgsPerSec > 0 ==> msgs' == m.0)
    && (budget.bytesPerSec > 0 ==> bytes' == if framesFit then b.0 else bytes)
    && total' == (if framesFit && bytesFit then SaturatingAdd(total, f.len) else total)
    && f.verdict == if !framesFit then TooManyFrames else if !bytesFit then TooManyBytes
                    else if budget.maxTotal > 0 && total' > budget.maxTotal then PastTotal else Admitted
  }

  lemma ChargedIsJudged(
      budget: Budget, msgs: TokenBucket, bytes: ByteBucket, total: U64,
      msgs': TokenBucket, bytes': ByteBucket, total': U64, log: seq<Frame>, clock: U64, f: Frame)
    requires Carries(budget, msgs, bytes, total, log, clock) && clock <= f.at
    requires Charged(budget, msgs, bytes, total, msgs', bytes', total', f)
    ensures f.verdict == Judge(budget, log, f.len, f.at)
    ensures Carries(budget, msgs', bytes', total', log + [f], f.at)
  {
    LogStep(log, f, WindowOf(f.at));
    if budget.msgsPerSec > 0 {
      MessagesStep(msgs, log, clock, f, budget.msgsPerSec);
    }
    if budget.bytesPerSec > 0 {
      if f.verdict.TooManyFrames? {
        BytesUntouched(bytes, log, clock, f, budget.bytesPerSec);
      } else {
        BytesStep(bytes, log, clock, f, budget.bytesPerSec);
      }
    }
  }

  class PerConnLimiter {
    const budget: Budget
    var msgs: TokenBucket
    var bytes: ByteBucket
    var relayedTotal: U64
    ghost var log: seq<Frame>
    ghost var clock: U64

    ghost predicate Valid()
      reads this
    {
      && WellJudged(budget, log) && Carries(budget, msgs, bytes, relayedTotal, log, clock)
      && forall i | 0 <= i < |log| :: log[i].at <= clock
    }

    constructor (budget: Budget, now: U64)
      ensures Valid() && log == [] && clock == now && this.budget == budget
    {
      this.budget := budget;
      msgs := TokenBucket.New(budget.msgsPerSec, now);
      bytes := ByteBucket.New(budget.bytesPerSec, now);
      relayedTotal := 0;
      log := [];
      clock := now;
    }

    /** Account for one frame; a breach of any dimension asks for a disconnect. */
    method Admit(len: U64, now: U64) returns (ok: bool)
      requires Valid() && clock <= now
      modifies this`msgs, this`bytes, this`relayedTotal, this`log, this`clock
      ensures Valid() && clock == now
      ensures log == old(log) + [Frame(len, now, Judge(budget, old(log), len, now))]
      ensures ok <==> Judge(budget, old(log), len, now).Admitted?
      ensures Fits(budget, old(log), len, now) ==> ok
    {
      var verdict := Charge(len, now);
      ghost var f := Frame(len, now, verdict);
      FitsIsAdmitted(budget, log, len, now);
      ChargedIsJudged(budget, old(msgs), old(bytes), old(relayedTotal), msgs, bytes, relayedTotal, log, clock, f);
      JudgedStep(budget, log, f);
      log := log + [f];
      clock := now;
      ok := verdict.Admitted?;
    }

    method Charge(len: U64, now: U64) returns (verdict: Verdict)
      modifies this`msgs, this`bytes, this`relayedTotal
      ensures Charged(budget, old(msgs), old(bytes), old(relayedTotal), msgs, bytes, relayedTotal,
                      Frame(len, now, verdict))
    {
      if budget.msgsPerSec > 0 {
        var (spent, fits) := msgs.TrySpend(budget.msgsPerSec, now);
        msgs := spent;
        if !fits {
          return TooManyFrames;
        }
      }
      if budget.bytesPerSec > 0 {
        var (spent, fits) := bytes.TrySpend(budget.bytesPerSec, len, now);
        bytes := spent;
        if !fits {
          return TooManyBytes;
        }
      }
      relayedTotal := SaturatingAdd(relayedTotal, len);
      if budget.maxTotal > 0 && relayedTotal > budget.maxTotal {
        return PastTotal;
      }
      return Admitted;
    }
  }

  // ---- What every run keeps ----

  /** The admitted frames (or bytes) of windows `lo` up to but not including `hi`. */
  ghost function Load(log: seq<Frame>, lo: int, hi: int, inBytes: bool): nat {
    if log == [] then 0
    else
      var f := log[|log| - 1];
      Load(log[..|log| - 1], lo, hi, inBytes)
      + if f.verdict.Admitted? && lo <= WindowOf(f.at) < hi then if inBytes then f.len else 1 else 0
  }

  ghost function PerSecond(budget: Budget, inBytes: bool): nat {
    if inBytes then budget.bytesPerSec else budget.msgsPerSec
  }

  lemma {:induction false} LoadSplits(log: seq<Frame>, lo: int, mid: int, hi: int, inBytes: bool)
    requires lo <= mid <= hi
    ensures Load(log, lo, hi, inBytes) == Load(log, lo, mid, inBytes) + Load(log, mid, hi, inBytes)
  {
    if log != [] {
      LoadSplits(log[..|log| - 1], lo, mid, hi, inBytes);
    }
  }

  /** One second's admitted load is within that second's budget. */
  lemma {:induction false} SecondWithinBudget(budget: Budget, log: seq<Frame>, w: U64, inBytes: bool)
    requires WellJudged(budget, log) && PerSecond(budget, inBytes) > 0
    ensures Load(log, w, w + 1, inBytes) <= (if inBytes then BytesIn(log, w) else MessagesIn(log, w))
         <= PerSecond(budget, inBytes)
  {
    if log != [] {
      var n := |log| - 1;
      forall i | 0 <= i < n
        ensures JudgedAt(budget, log[..n], i)
      {
        assert JudgedAt(budget, log, i) && log[..n][..i] == log[..i];
      }
      SecondWithinBudget(budget, log[..n], w, inBytes);
      assert JudgedAt(budget, log, n);
    }
  }

  lemma {:induction false} SecondsWithinBudget(budget: Budget, log: seq<Frame>, w: U64, n: nat, inBytes: bool)
    requires WellJudged(budget, log) && PerSecond(budget, inBytes) > 0 && w + n <= U64_MAX
    ensures Load(log, w, w + n, inBytes) <= n * PerSecond(budget, inBytes)
  {
    if n == 0 {
      NoLoad(log, w, inBytes);
    } else {
      SecondsWithinBudget(budget, log, w, n - 1, inBytes);
      SecondWithinBudget(budget, log, w + n - 1, inBytes);
      LoadSplits(log, w, w + n - 1, w + n, inBytes);
      OneMore(n, PerSecond(budget, inBytes));
    }
  }

  lemma OneMore(n: nat, c: nat)
    requires n > 0
    ensures n * c == (n - 1) * c + c
  {
  }

  lemma {:induction false} NoLoad(log: seq<Frame>, w: int, inBytes: bool)
    ensures Load(log, w, w, inBytes) == 0
  {
    if log != [] {
      NoLoad(log[..|log| - 1], w, inBytes);
    }
  }

  /** The admitted frames (or bytes) between two instants. */
  ghost function Between(log: seq<Frame>, from: U64, to: U64, inBytes: bool): nat {
    if log == [] then 0
    else
      var f := log[|log| - 1];
      Between(log[..|log| - 1], from, to, inBytes)
      + if f.verdict.Admitted? && from <= f.at <= to then if inBytes then f.len else 1 else 0
  }

  lemma {:induction false} BetweenWithinSeconds(log: seq<Frame>, from: U64, to: U64, inBytes: bool)
    requires from <= to
    ensures Between(log, from, to, inBytes) <= Load(log, WindowOf(from), WindowOf(to) + 1, inBytes)
  {
    if log != [] {
      BetweenWithinSeconds(log[..|log| - 1], from, to, inBytes);
    }
  }

  /** Over any interval the admitted load is at most two more seconds' budgets than it spans. */
  lemma IntervalBound(budget: Budget, log: seq<Frame>, from: U64, to: U64, inBytes: bool)
    requires WellJudged(budget, log) && PerSecond(budget, inBytes) > 0 && from <= to
    ensures Between(log, from, to, inBytes) <= ((to - from) / 1000 + 2) * PerSecond(budget, inBytes)
  {
    var n := WindowOf(to) + 1 - WindowOf(from);
    BetweenWithinSeconds(log, from, to, inBytes);
    SecondsWithinBudget(budget, log, WindowOf(from), n, inBytes);
    MoreIsMore(n, (to - from) / 1000 + 2, PerSecond(budget, inBytes));
  }

  lemma MoreIsMore(a: nat, b: nat, c: nat)
    requires a <= b
    ensures a * c <= b * c
  {
  }

  ghost function AdmittedBytes(log: seq<Frame>): nat {
    if log == [] then 0
    else
      var f := log[|log| - 1];
      AdmittedBytes(log[..|log| - 1]) + if f.verdict.Admitted? then f.len else 0
  }

  /** A connection's admitted bytes never exceed a lifetime cap below the counter's own limit. */
  lemma {:induction false} LifetimeCap(budget: Budget, log: seq<Frame>)
    requires WellJudged(budget, log) && 0 < budget.maxTotal < U64_MAX
    ensures AdmittedBytes(log) <= TotalBytes(log)
    ensures AdmittedBytes(log) <= budget.maxTotal
  {
    if log != [] {
      var n := |log| - 1;
      forall i | 0 <= i < n
        ensures JudgedAt(budget, log[..n], i)
      {
        assert JudgedAt(budget, log, i) && log[..n][..i] == log[..i];
      }
      LifetimeCap(budget, log[..n]);
      assert JudgedAt(budget, log, n);
    }
  }

  /** At the counter's own limit the cap no longer holds: the total saturates there and never passes it,
      so frames of any length, sent often enough, are all admitted and go past it together. */
  lemma LifetimeCapSaturates(len: U64) returns (budget: Budget, log: seq<Frame>)
    requires len >= 1
    ensures budget.maxTotal == U64_MAX && WellJudged(budget, log) && AdmittedBytes(log) > budget.maxTotal
    ensures forall f | f in log :: f.len == len && f.verdict.Admitted?
  {
    budget := Budget(0, 0, U64_MAX);
    log := AllAdmitted(len, U64_MAX + 1);
    MoreIsMore(1, len, |log|);
  }

  lemma {:induction false} AllAdmitted(len: U64, n: nat) returns (log: seq<Frame>)
    ensures |log| == n && WellJudged(Budget(0, 0, U64_MAX), log) && AdmittedBytes(log) == len * n
    ensures forall f | f in log :: f.len == len && f.verdict.Admitted?
  {
    log := [];
    if n > 0 {
      var fewer := AllAdmitted(len, n - 1);
      var f := Frame(len, 0, Admitted);
      JudgedStep(Budget(0, 0, U64_MAX), fewer, f);
      log := fewer + [f];
      assert log[..n - 1] == fewer;
      OneMore(n, len);
    }
  }

  /** Once the cap has been passed every later frame asks for a disconnect. */
  lemma PastTotalIsForever(budget: Budget, log: seq<Frame>, i: nat, j: nat)
    requires WellJudged(budget, log) && i < j < |log| && log[i].verdict.PastTotal?
    ensures !log[j].verdict.Admitted?
  {
    assert JudgedAt(budget, log, i) && JudgedAt(budget, log, j);
    assert log[..i + 1][..i] == log[..i];
    TotalGrows(log, i + 1, j);
  }

  lemma {:induction false} TotalGrows(log: seq<Frame>, i: nat, j: nat)
    requires i <= j <= |log|
    ensures TotalBytes(log[..i]) <= TotalBytes(log[..j])
    decreases j
  {
    if i < j {
      TotalGrows(log, i, j - 1);
      assert log[..j][..j - 1] == log[..j - 1];
    }
  }
}
