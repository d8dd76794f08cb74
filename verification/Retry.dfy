/** The retry loop around the AI call: its overall ceiling, its classification of
    errors and its stopping rule, on a clock that starts at the call. */
module Retry {
  import opened Model
  import opened Backoff

  const OK := 200

  /** The adapter's settings after `NewAIAdapter`, in the 64-bit integers of the code. */
  datatype Adapter = Adapter(timeoutSecs: int, maxRetries: int, retryBase: int) {
    predicate Valid() {
      && -INT64_LIMIT <= timeoutSecs < INT64_LIMIT
      && 0 <= maxRetries < INT64_LIMIT
      && -INT64_LIMIT <= retryBase < INT64_LIMIT
    }

    function Attempts(): int {
      Wrap(maxRetries + 1)
    }

    function PerAttempt(): int {
      Wrap(timeoutSecs * SECOND)
    }

    /** The worst case plus one attempt of slack, before it is cut to 64 bits. */
    function WorstCase(): int {
      (maxRetries + 2) * PerAttempt() + maxRetries * MAX_BACKOFF
    }

    function Ceiling(): int {
      Wrap(WorstCase())
    }
  }

  function NewAdapter(timeoutSecs: int, maxRetries: int, retryBaseMs: int): (a: Adapter)
    requires -INT64_LIMIT <= timeoutSecs < INT64_LIMIT && maxRetries < INT64_LIMIT
    ensures a.Valid()
    ensures a.timeoutSecs == timeoutSecs
    ensures if maxRetries <= 0 then a.maxRetries == 0 else a.maxRetries == maxRetries
    ensures retryBaseMs <= 0 ==> a.retryBase == 200_000_000
    ensures 0 < retryBaseMs <= 9_223_372_036_854 ==> a.retryBase == retryBaseMs * 1_000_000
  {
    Adapter(
      timeoutSecs,
      if maxRetries < 0 then 0 else maxRetries,
      Wrap((if retryBaseMs <= 0 then 200 else retryBaseMs) * MILLISECOND))
  }

  /** What the AI processor would do with one request if nobody cut it short: answer
      with a status, or fail on the network, after `wait`; then deliver a body. */
  datatype Exchange = Exchange(wait: nat, status: Option<int>, body: nat, decodes: bool)

  /** Everything the loop does not control. */
  datatype World = World(cancelAt: Option<nat>, exchange: nat -> Exchange, draw: nat -> nat)

  datatype Outcome =
    | Reply
    | Cancelled
    | TimedOut
    | NetworkFailed
    | BadStatus(code: int)
    | Undecodable
    | NoResult

  datatype Attempt = Attempt(start: int, end: int, outcome: Outcome, retryable: bool)

  datatype Run = Run(end: int, outcome: Outcome, attempts: seq<Attempt>)

  // ------------------------------------------------------------ specification

  predicate RetryableStatus(code: int) {
    code == 429 || code == 500 || code == 502 || code == 503 || code == 504
  }

  function Earlier(x: Option<int>, y: Option<int>): Option<int> {
    if x.None? then y else if y.None? then x else if x.value <= y.value then x else y
  }

  /** When the context around the whole sequence ends: the caller cancels it or the
      ceiling is reached. Without a positive attempt timeout there is no ceiling. */
  function Stop(a: Adapter, w: World): Option<int> {
    Earlier(
      if w.cancelAt.Some? then Some(w.cancelAt.value) else None,
      if a.PerAttempt() > 0 then Some(a.Ceiling()) else None)
  }

  predicate Passed(stop: Option<int>, t: int) {
    stop.Some? && stop.value <= t
  }

  /** The first of the attempt's deadline and the end of the surrounding context. */
  function CutAt(stop: Option<int>, deadline: int, t: int): int {
    var limit := if deadline < t then t else deadline;
    if stop.Some? && stop.value < limit then (if stop.value < t then t else stop.value) else limit
  }

  function Min(x: int, y: int): int {
    if x <= y then x else y
  }

  /** `doOnce`, begun at `t`. */
  function DoOnce(per: int, stop: Option<int>, x: Exchange, t: int): Attempt {
    var cut := CutAt(stop, t + per, t);
    if cut <= t + x.wait then
      Attempt(t, cut, if Passed(stop, cut) then Cancelled else TimedOut, false)
    else if x.status.None? then
      Attempt(t, t + x.wait, NetworkFailed, true)
    else
      var end := Min(t + x.wait + x.body, cut);
      if x.status.value != OK then Attempt(t, end, BadStatus(x.status.value), RetryableStatus(x.status.value))
      else if cut <= t + x.wait + x.body || !x.decodes then Attempt(t, end, Undecodable, false)
      else Attempt(t, end, Reply, false)
  }

  /** The delay before attempt `n`. */
  function Delay(a: Adapter, w: World, n: nat): (d: int)
    requires n >= 1
    ensures 0 <= d <= MAX_BACKOFF
  {
    var d := CappedDelay(a.retryBase, n - 1);
    d / 2 + w.draw(n) % (d / 2 + 1)
  }

  /** The rest of a run: attempt `n` is next at `now`, behind the attempts `trace`, the
      last of which failed with `last`. */
  function RunFrom(a: Adapter, w: World, n: nat, now: int, last: Outcome, trace: seq<Attempt>): Run
    decreases a.Attempts() - n
  {
    if n >= a.Attempts() then Run(now, last, trace)
    else
      var start := if n == 0 then now else now + Delay(a, w, n);
      if n > 0 && Passed(Stop(a, w), start) then Run(CutAt(Stop(a, w), start, now), Cancelled, trace)
      else
        var it := DoOnce(a.PerAttempt(), Stop(a, w), w.exchange(n), start);
        if it.retryable then RunFrom(a, w, n + 1, it.end, it.outcome, trace + [it])
        else Run(it.end, it.outcome, trace + [it])
  }

  function Execution(a: Adapter, w: World): Run {
    RunFrom(a, w, 0, 0, NoResult, [])
  }

  // ------------------------------------------------------------------ the code

  /** The retry loop of `Call`. */
  method Call(a: Adapter, w: World) returns (r: Run)
    ensures r == Execution(a, w)
  {
    hide DoOnce, Stop;
    var attempts := a.Attempts();
    var perAttempt := a.PerAttempt();
    var overall := Stop(a, w);
    var lastErr := NoResult;
    var now := 0;
    var trace: seq<Attempt> := [];
    var attempt := 0;
    while attempt < attempts
      invariant 0 <= attempt
      invariant RunFrom(a, w, attempt, now, lastErr, trace) == Execution(a, w)
    {
      if attempt > 0 {
        var delay := BackoffDelay(a.retryBase, attempt, w.draw(attempt));
        if Passed(overall, now + delay) {
          return Run(CutAt(overall, now + delay, now), Cancelled, trace);
        }
        now := now + delay;
      }
      var it := DoOnce(perAttempt, overall, w.exchange(attempt), now);
      SuccessIsFinal(perAttempt, overall, w.exchange(attempt), now);
      now, trace := it.end, trace + [it];
      if it.outcome == Reply {
        return Run(now, Reply, trace);
      }
      lastErr := it.outcome;
      if !it.retryable {
        return Run(now, it.outcome, trace);
      }
      attempt := attempt + 1;
    }
    r := Run(now, lastErr, trace);
  }

  lemma SuccessIsFinal(per: int, stop: Option<int>, x: Exchange, t: int)
    ensures var it := DoOnce(per, stop, x, t); it.outcome == Reply ==> !it.retryable
  {
  }

  /** For every configured base up to about 137 s (none meaning 200 ms), the wait before
      retry `n` lies between half of min(base * 2^(n-1), 5 s), rounded down, and that. */
  lemma ConfiguredBackoff(timeoutSecs: int, maxRetries: int, retryBaseMs: int, w: World, n: nat)
    requires -INT64_LIMIT <= timeoutSecs < INT64_LIMIT && maxRetries < INT64_LIMIT
    requires retryBaseMs * 15_625 < 0x8000_0000 && n >= 1
    ensures var doubled := (if retryBaseMs <= 0 then 200 else retryBaseMs) * 1_000_000 * Pow2(n - 1);
            var full := if doubled > 5_000_000_000 then 5_000_000_000 else doubled;
            full / 2 <= Delay(NewAdapter(timeoutSecs, maxRetries, retryBaseMs), w, n) <= full
  {
    WholeMillisecondsSaturate(if retryBaseMs <= 0 then 200 else retryBaseMs, n);
  }

  /** The deadlines of a call whose settings fit: each attempt has the configured seconds, and
      the whole call the worst case of all attempts and waits and one attempt more. */
  lemma DeadlinesInSeconds(timeoutSecs: int, maxRetries: nat, retryBaseMs: int, w: World)
    requires timeoutSecs > 0
    requires (maxRetries + 2) * timeoutSecs * 1_000_000_000 + maxRetries * 5_000_000_000 < INT64_LIMIT
    ensures maxRetries < INT64_LIMIT - 1 && timeoutSecs < INT64_LIMIT
    ensures var a := NewAdapter(timeoutSecs, maxRetries, retryBaseMs);
            var ceiling := (maxRetries + 2) * timeoutSecs * 1_000_000_000 + maxRetries * 5_000_000_000;
            && a.Attempts() == maxRetries + 1 && a.PerAttempt() == timeoutSecs * 1_000_000_000
            && Stop(a, w) == Some(if w.cancelAt.Some? && w.cancelAt.value < ceiling then w.cancelAt.value else ceiling)
  {
    var seconds := (maxRetries + 2) * timeoutSecs;
    assert seconds >= maxRetries + 2 && seconds >= 2 * timeoutSecs;
    var a := NewAdapter(timeoutSecs, maxRetries, retryBaseMs);
    var per := timeoutSecs * SECOND;
    assert a.PerAttempt() == per && a.Attempts() == maxRetries + 1;
    assert (maxRetries + 2) * per == seconds * SECOND;
    hide Adapter.PerAttempt, Adapter.Attempts, Wrap;
    assert a.WorstCase() == seconds * SECOND + maxRetries * MAX_BACKOFF;
    assert a.Ceiling() == a.WorstCase();
  }

  // ------------------------------------------------------------ stopping rule

  /** The errors worth another attempt. */
  predicate Transient(o: Outcome) {
    o.NetworkFailed? || (o.BadStatus? && RetryableStatus(o.code) && o.code != OK)
  }

  /** How a run that stands at `trace`, with `last` for its latest error, may end. */
  ghost predicate Disciplined(a: Adapter, r: Run) {
    && (forall k :: 0 <= k < |r.attempts| ==> (r.attempts[k].retryable <==> Transient(r.attempts[k].outcome)))
    && (forall k :: 0 <= k < |r.attempts| - 1 ==> Transient(r.attempts[k].outcome))
    && (r.attempts == [] ==> r.outcome == NoResult)
    && (r.attempts != [] ==>
          var last := r.attempts[|r.attempts| - 1];
          || (r.outcome == last.outcome && (Transient(last.outcome) ==> |r.attempts| == a.Attempts()))
          || (r.outcome == Cancelled && Transient(last.outcome) && |r.attempts| < a.Attempts()))
  }

  ghost predicate Underway(n: nat, last: Outcome, trace: seq<Attempt>) {
    && |trace| == n
    && (forall k :: 0 <= k < n ==> trace[k].retryable && Transient(trace[k].outcome))
    && last == if n == 0 then NoResult else trace[n - 1].outcome
  }

  lemma DoOnceClassifies(per: int, stop: Option<int>, x: Exchange, t: int)
    ensures var it := DoOnce(per, stop, x, t); it.retryable <==> Transient(it.outcome)
  {
  }

  lemma {:induction false} RunDisciplined(a: Adapter, w: World, n: nat, now: int, last: Outcome, trace: seq<Attempt>)
    requires Underway(n, last, trace) && (n <= a.Attempts() || n == 0)
    ensures var r := RunFrom(a, w, n, now, last, trace);
            && Disciplined(a, r) && |r.attempts| <= (if a.Attempts() < 0 then 0 else a.Attempts())
            && n <= |r.attempts| && (a.Attempts() > 0 ==> r.attempts != [])
    decreases a.Attempts() - n
  {
    hide DoOnce, Stop, Passed, CutAt;
    if n < a.Attempts() {
      var start := if n == 0 then now else now + Delay(a, w, n);
      var it := DoOnce(a.PerAttempt(), Stop(a, w), w.exchange(n), start);
      DoOnceClassifies(a.PerAttempt(), Stop(a, w), w.exchange(n), start);
      if !(n > 0 && Passed(Stop(a, w), start)) && it.retryable {
        RunDisciplined(a, w, n + 1, it.end, it.outcome, trace + [it]);
      }
    }
  }

  /** There are at most `maxRetries` + 1 attempts; every attempt but the last failed
      transiently; the run reports its last attempt, which failed for good, replied or
      used the attempts up, unless it was cut short while waiting to retry. */
  lemma StopsAtTheFirstFinalAnswer(a: Adapter, w: World)
    requires a.Valid()
    ensures var r := Execution(a, w);
            && Disciplined(a, r) && |r.attempts| <= a.maxRetries + 1
            && (a.maxRetries < INT64_LIMIT - 1 ==> r.attempts != [])
  {
    hide RunFrom, Disciplined;
    RunDisciplined(a, w, 0, 0, NoResult, []);
  }

  // --------------------------------------------------------------- the ceiling

  /** The longest that `n` attempts and the waits between them can take. */
  function Longest(per: int, n: nat): int {
    if n == 0 then 0 else Longest(per, n - 1) + (if n == 1 then 0 else MAX_BACKOFF) + per
  }

  lemma {:induction false} LongestIs(per: int, n: nat)
    requires n >= 1
    ensures Longest(per, n) == n * per + (n - 1) * MAX_BACKOFF
  {
    if n > 1 {
      LongestIs(per, n - 1);
    }
  }

  lemma {:induction false} LongestGrows(per: int, m: nat, n: nat)
    requires per > 0 && m <= n
    ensures Longest(per, m) <= Longest(per, n)
  {
    if m < n {
      LongestGrows(per, m, n - 1);
    }
  }

  lemma DoOnceTakes(per: int, stop: Option<int>, x: Exchange, t: int)
    requires per > 0
    ensures var it := DoOnce(per, stop, x, t);
            && t <= it.end <= t + per
            && (it.outcome == Cancelled ==> Passed(stop, it.end))
  {
  }

  lemma {:induction false} RunTakes(a: Adapter, w: World, n: nat, now: int, last: Outcome, trace: seq<Attempt>)
    requires a.PerAttempt() > 0 && n <= a.Attempts() && last != Cancelled
    requires 0 <= now && (n == 0 ==> now == 0) && (n > 0 ==> now <= Longest(a.PerAttempt(), n))
    ensures var r := RunFrom(a, w, n, now, last, trace);
            && 0 <= r.end <= Longest(a.PerAttempt(), a.Attempts())
            && (r.outcome == Cancelled ==> Passed(Stop(a, w), r.end))
    decreases a.Attempts() - n
  {
    hide DoOnce, Stop, Adapter.Attempts, Adapter.PerAttempt;
    var per := a.PerAttempt();
    LongestGrows(per, n, a.Attempts());
    if n < a.Attempts() {
      LongestGrows(per, n + 1, a.Attempts());
      var start := if n == 0 then now else now + Delay(a, w, n);
      var it := DoOnce(per, Stop(a, w), w.exchange(n), start);
      DoOnceTakes(per, Stop(a, w), w.exchange(n), start);
      DoOnceClassifies(per, Stop(a, w), w.exchange(n), start);
      if !(n > 0 && Passed(Stop(a, w), start)) && it.retryable {
        RunTakes(a, w, n + 1, it.end, it.outcome, trace + [it]);
      }
    }
  }

  lemma CeilingFits(a: Adapter)
    requires a.Valid() && a.Attempts() > 0 && a.PerAttempt() > 0 && a.WorstCase() < INT64_LIMIT
    ensures Longest(a.PerAttempt(), a.Attempts()) < a.Ceiling()
  {
    hide Wrap, Longest, Adapter.WorstCase, Adapter.PerAttempt, Adapter.Attempts;
    var per, n := a.PerAttempt(), a.Attempts();
    AttemptsAre(a);
    WorstCaseIs(a, n);
    LongestIs(per, n);
  }

  lemma AttemptsAre(a: Adapter)
    requires a.Valid() && a.Attempts() > 0
    ensures a.Attempts() == a.maxRetries + 1
  {
  }

  lemma WorstCaseIs(a: Adapter, n: int)
    requires n == a.maxRetries + 1
    ensures a.WorstCase() == n * a.PerAttempt() + a.PerAttempt() + (n - 1) * MAX_BACKOFF
  {
    hide Adapter.PerAttempt;
    var per := a.PerAttempt();
    assert (n + 1) * per == n * per + per;
  }

  /** With a ceiling that fits in 64 bits, every run ends strictly before it, so the run
      reports a cancellation only once the caller has cancelled. */
  lemma EndsBeforeTheCeiling(a: Adapter, w: World)
    requires a.Valid() && a.Attempts() > 0 && a.PerAttempt() > 0 && a.WorstCase() < INT64_LIMIT
    ensures var r := Execution(a, w);
            && 0 <= r.end < a.Ceiling()
            && (r.outcome == Cancelled ==> w.cancelAt.Some? && w.cancelAt.value <= r.end)
  {
    hide RunFrom, Adapter.WorstCase, Adapter.Ceiling, Adapter.PerAttempt, Adapter.Attempts, Longest;
    RunTakes(a, w, 0, 0, NoResult, []);
    CeilingFits(a);
  }

  /** A run without ceiling cannot be cut short by one: the first attempt times out at
      once, or fails for good. */
  lemma NoCeiling(a: Adapter, w: World)
    requires a.PerAttempt() <= 0 && w.cancelAt.None?
    ensures Execution(a, w).outcome != Cancelled
  {
  }

  // ------------------------------------------------- a ceiling that overflows

  /** The slowest world: nobody cancels, every attempt loses its connection a tick before
      it would time out, and every wait is drawn as long as it can be. */
  function Slowest(a: Adapter): World {
    World(
      None,
      (n: nat) => Exchange(if a.PerAttempt() > 0 then a.PerAttempt() - 1 else 0, None, 0, false),
      (n: nat) => if n == 0 then 0 else CappedDelay(a.retryBase, n - 1) / 2)
  }

  /** The least time at which attempt `n` is over in the slowest world. */
  function SlowTime(per: int, n: nat): int {
    if n == 0 then 0 else SlowTime(per, n - 1) + (per - 1) + (if n - 1 > 64 then MAX_BACKOFF else 0)
  }

  lemma {:induction false} SlowTimeIs(per: int, n: nat)
    requires per > 0
    ensures SlowTime(per, n) >= n * (per - 1) + (if n > 65 then (n - 65) * MAX_BACKOFF else 0)
  {
    if n > 0 {
      SlowTimeIs(per, n - 1);
      assert n * (per - 1) == (n - 1) * (per - 1) + (per - 1);
    }
  }

  lemma {:induction false} SlowTimePositive(per: int, n: nat)
    requires per > 0
    ensures SlowTime(per, n) >= 0
  {
    if n > 0 {
      SlowTimePositive(per, n - 1);
    }
  }

  lemma SlowDelay(a: Adapter, n: nat)
    requires n >= 1
    ensures Delay(a, Slowest(a), n) >= if n > 64 then MAX_BACKOFF else 0
  {
    LateDelay(a.retryBase, n - 1);
    hide CappedDelay;
    ModuloNext(CappedDelay(a.retryBase, n - 1) / 2);
  }

  lemma LateDelay(base: int, k: nat)
    ensures k >= 64 ==> CappedDelay(base, k) == MAX_BACKOFF
  {
  }

  lemma ModuloNext(x: nat)
    ensures x % (x + 1) == x
  {
  }

  lemma SlowAttempt(a: Adapter, t: int)
    requires a.PerAttempt() > 0 && t >= 0
    ensures var per := a.PerAttempt();
            var it := DoOnce(per, Stop(a, Slowest(a)), Slowest(a).exchange(0), t);
            if a.Ceiling() <= t + per - 1 then it.outcome == Cancelled && !it.retryable
            else it == Attempt(t, t + per - 1, NetworkFailed, true)
  {
    hide Adapter.PerAttempt, Adapter.Ceiling;
  }

  /** Attempt `n` is cut short by the ceiling, or over before it and no earlier than planned. */
  lemma SlowStep(a: Adapter, n: nat, start: int)
    requires a.PerAttempt() > 0
    requires start >= SlowTime(a.PerAttempt(), n) + (if n > 64 then MAX_BACKOFF else 0)
    ensures var it := DoOnce(a.PerAttempt(), Stop(a, Slowest(a)), Slowest(a).exchange(n), start);
            if it.retryable then SlowTime(a.PerAttempt(), n + 1) <= it.end < a.Ceiling() else it.outcome == Cancelled
  {
    hide DoOnce, Stop, Adapter.PerAttempt, Adapter.Ceiling;
    SlowTimePositive(a.PerAttempt(), n);
    SlowAttempt(a, start);
    assert Slowest(a).exchange(n) == Slowest(a).exchange(0);
  }

  lemma {:induction false} SlowRun(a: Adapter, n: nat, now: int, last: Outcome, trace: seq<Attempt>)
    requires a.PerAttempt() > 0 && n <= a.Attempts() && (n > 0 ==> now < a.Ceiling())
    requires now >= SlowTime(a.PerAttempt(), n)
    ensures var r := RunFrom(a, Slowest(a), n, now, last, trace);
            r.outcome == Cancelled || a.Attempts() == 0 || SlowTime(a.PerAttempt(), a.Attempts()) < a.Ceiling()
    decreases a.Attempts() - n
  {
    hide SlowTime, Delay, Stop, Passed, CutAt, DoOnce, Adapter.Attempts, Adapter.PerAttempt, Adapter.Ceiling, Slowest;
    if n < a.Attempts() {
      var w := Slowest(a);
      var start := if n == 0 then now else now + Delay(a, w, n);
      if n > 0 {
        SlowDelay(a, n);
      }
      SlowStep(a, n, start);
      var it := DoOnce(a.PerAttempt(), Stop(a, w), w.exchange(n), start);
      if !(n > 0 && Passed(Stop(a, w), start)) && it.retryable {
        SlowRun(a, n + 1, it.end, it.outcome, trace + [it]);
      }
    }
  }

  /** A ceiling cut to 64 bits lies below the time the slowest run takes. */
  lemma OverflowedCeiling(a: Adapter)
    requires a.Valid() && a.Attempts() > 0 && a.PerAttempt() > 0 && a.WorstCase() >= INT64_LIMIT
    ensures a.Ceiling() <= SlowTime(a.PerAttempt(), a.Attempts())
  {
    var per, n := a.PerAttempt(), a.Attempts();
    assert n == a.maxRetries + 1 && per < INT64_LIMIT;
    WrapBelow(a.WorstCase());
    hide SlowTime, Wrap, Adapter.PerAttempt, Adapter.Attempts;
    SlowTimeIs(per, n);
    WorstCaseIs(a, n);
    OneLess(n, per);
    hide Adapter.WorstCase;
    Overflowed(n, per, n * per, a.WorstCase(), a.Ceiling(), SlowTime(per, n));
  }

  lemma OneLess(n: int, per: int)
    requires n >= 1 && per >= 1
    ensures n * (per - 1) == n * per - n && n * per >= n
  {
  }

  lemma WrapBelow(x: int)
    requires x >= INT64_LIMIT
    ensures Wrap(x) <= x - UINT64_LIMIT
  {
  }

  lemma Overflowed(n: int, per: int, product: int, worst: int, ceiling: int, slow: int)
    requires n >= 1 && 0 < per < INT64_LIMIT
    requires worst == product + per + (n - 1) * MAX_BACKOFF
    requires ceiling <= worst - UINT64_LIMIT && ceiling < INT64_LIMIT
    requires product >= n
    requires slow >= product - n + (if n > 65 then (n - 65) * MAX_BACKOFF else 0)
    ensures ceiling <= slow
  {
  }

  /** The law in full: no run of the loop reports a cancellation that the caller did not
      ask for, if and only if the ceiling fits in 64 bits (or there is no ceiling, or the
      number of attempts itself wraps and none is made). */
  lemma CancelsOnlyOnRequest(a: Adapter)
    requires a.Valid()
    ensures (forall w: World :: w.cancelAt.None? ==> Execution(a, w).outcome != Cancelled)
            <==> a.PerAttempt() <= 0 || a.Attempts() <= 0 || a.WorstCase() < INT64_LIMIT
  {
    if a.PerAttempt() <= 0 {
      forall w: World | w.cancelAt.None? ensures Execution(a, w).outcome != Cancelled {
        NoCeiling(a, w);
      }
    } else if a.Attempts() > 0 && a.WorstCase() < INT64_LIMIT {
      forall w: World | w.cancelAt.None? ensures Execution(a, w).outcome != Cancelled {
        EndsBeforeTheCeiling(a, w);
      }
    } else if a.Attempts() > 0 {
      OverflowedCeiling(a);
      SlowRun(a, 0, 0, NoResult, []);
      var w := Slowest(a);
      assert w.cancelAt.None? && Execution(a, w).outcome == Cancelled;
    }
  }

  /** A configuration for which the law fails: one attempt of about 146 years, whose
      doubled length no longer fits. */
  lemma LongTimeoutCancels()
    ensures exists w: World ::
              w.cancelAt.None? && Execution(NewAdapter(4_611_686_019, 0, 200), w).outcome == Cancelled
  {
    var a := NewAdapter(4_611_686_019, 0, 200);
    assert a.PerAttempt() == 4_611_686_019_000_000_000 && a.Attempts() == 1;
    assert a.WorstCase() >= INT64_LIMIT;
    hide Execution, Adapter.PerAttempt, Adapter.Attempts, Adapter.WorstCase;
    CancelsOnlyOnRequest(a);
  }

  // ----------------------------------------------------------------- promptness

  lemma {:induction false} RunEndsBy(a: Adapter, w: World, n: nat, now: int, last: Outcome, trace: seq<Attempt>)
    requires w.cancelAt.Some? && 0 <= now <= w.cancelAt.value
    ensures RunFrom(a, w, n, now, last, trace).end <= w.cancelAt.value
    decreases a.Attempts() - n
  {
    hide DoOnce, Adapter.PerAttempt, Adapter.Ceiling, Adapter.Attempts;
    StopBy(a, w);
    hide Stop;
    if n < a.Attempts() {
      var start := if n == 0 then now else now + Delay(a, w, n);
      if !(n > 0 && Passed(Stop(a, w), start)) {
        var it := DoOnce(a.PerAttempt(), Stop(a, w), w.exchange(n), start);
        DoOnceEndsBy(a, w, w.exchange(n), start);
        if it.retryable {
          RunEndsBy(a, w, n + 1, it.end, it.outcome, trace + [it]);
        }
      }
    }
  }

  lemma StopBy(a: Adapter, w: World)
    requires w.cancelAt.Some?
    ensures Stop(a, w).Some? && Stop(a, w).value <= w.cancelAt.value
  {
  }

  lemma DoOnceEndsBy(a: Adapter, w: World, x: Exchange, t: int)
    requires w.cancelAt.Some? && 0 <= t <= w.cancelAt.value
    ensures t <= DoOnce(a.PerAttempt(), Stop(a, w), x, t).end <= w.cancelAt.value
  {
    hide Adapter.PerAttempt, Adapter.Ceiling;
  }

  /** A cancellation ends the call at once, at whatever point of the loop it arrives. */
  lemma CancellationIsPrompt(a: Adapter, w: World)
    requires w.cancelAt.Some?
    ensures Execution(a, w).end <= w.cancelAt.value
  {
    RunEndsBy(a, w, 0, 0, NoResult, []);
  }

  // ------------------------------------------------- what a cancelled call reports

  function Uncancelled(w: World): World {
    w.(cancelAt := None)
  }

  /** The cancellation meets the last attempt after its status has arrived and while its
      body is read, and that attempt is final: a status that is not retried, or the last
      attempt there is. */
  predicate CutWhileReading(a: Adapter, w: World, r: Run)
    requires w.cancelAt.Some?
  {
    && r.attempts != []
    && var n := |r.attempts|;
       var last, x := r.attempts[n - 1], w.exchange(n - 1);
       && x.status.Some? && last.start + x.wait < w.cancelAt.value == last.end
       && (RetryableStatus(x.status.value) ==> n == a.Attempts())
  }

  predicate CancelEffect(a: Adapter, w: World, r: Run, r0: Run)
    requires w.cancelAt.Some?
  {
    var c := w.cancelAt.value;
    if r0.end < c then r == r0
    else
      && r.end == c
      && (r.outcome == Cancelled <==> !CutWhileReading(a, w, r))
      && (CutWhileReading(a, w, r) ==>
            var code := w.exchange(|r.attempts| - 1).status.value;
            r.outcome == if code == OK then Undecodable else BadStatus(code))
  }

  lemma DoOnceCancelled(per: int, stop0: Option<int>, c: int, x: Exchange, t: int)
    requires 0 <= t <= c
    ensures var it0, it := DoOnce(per, stop0, x, t), DoOnce(per, Earlier(Some(c), stop0), x, t);
            && t <= it0.end && it.start == t
            && if it0.end < c then it == it0
               else
                 && it.end == c
                 && (it.outcome == Cancelled <==> !(x.status.Some? && t + x.wait < c))
                 && (it.outcome != Cancelled ==>
                       && it.outcome == (if x.status.value == OK then Undecodable else BadStatus(x.status.value))
                       && it.retryable == (x.status.value != OK && RetryableStatus(x.status.value)))
                 && (it.outcome == Cancelled ==> !it.retryable)
  {
  }

  lemma StopCancelled(a: Adapter, w: World)
    requires w.cancelAt.Some?
    ensures Stop(a, w) == Earlier(Some(w.cancelAt.value), Stop(a, Uncancelled(w)))
  {
    hide Adapter.PerAttempt, Adapter.Ceiling;
  }

  lemma {:induction false} RunGoesOn(a: Adapter, w: World, n: nat, now: int, last: Outcome, trace: seq<Attempt>)
    requires now >= 0
    ensures RunFrom(a, w, n, now, last, trace).end >= now
    decreases a.Attempts() - n
  {
    hide DoOnce, Adapter.PerAttempt, Adapter.Ceiling, Adapter.Attempts, Stop;
    if n < a.Attempts() {
      var start := if n == 0 then now else now + Delay(a, w, n);
      var it := DoOnce(a.PerAttempt(), Stop(a, w), w.exchange(n), start);
      DoOnceCancelled(a.PerAttempt(), Stop(a, w), start, w.exchange(n), start);
      if !(n > 0 && Passed(Stop(a, w), start)) && it.retryable {
        RunGoesOn(a, w, n + 1, it.end, it.outcome, trace + [it]);
      }
    }
  }

  /** The cancellation comes while attempt `n` is under way or before it begins. */
  lemma CutDuring(a: Adapter, w: World, n: nat, start: int, last: Outcome, trace: seq<Attempt>)
    requires w.cancelAt.Some? && |trace| == n < a.Attempts() && 0 <= start <= w.cancelAt.value
    requires var it0 := DoOnce(a.PerAttempt(), Stop(a, Uncancelled(w)), w.exchange(n), start);
             it0.end >= w.cancelAt.value
    ensures var it := DoOnce(a.PerAttempt(), Stop(a, w), w.exchange(n), start);
            var r := if it.retryable then RunFrom(a, w, n + 1, it.end, it.outcome, trace + [it])
                     else Run(it.end, it.outcome, trace + [it]);
            && r.end == w.cancelAt.value
            && (r.outcome == Cancelled <==> !CutWhileReading(a, w, r))
            && (CutWhileReading(a, w, r) ==>
                  var code := w.exchange(|r.attempts| - 1).status.value;
                  r.outcome == if code == OK then Undecodable else BadStatus(code))
  {
    hide DoOnce, Adapter.PerAttempt, Adapter.Ceiling, Adapter.Attempts;
    var c := w.cancelAt.value;
    StopCancelled(a, w);
    DoOnceCancelled(a.PerAttempt(), Stop(a, Uncancelled(w)), c, w.exchange(n), start);
    StopBy(a, w);
    hide Stop;
    var it := DoOnce(a.PerAttempt(), Stop(a, w), w.exchange(n), start);
    assert (trace + [it])[n] == it;
  }

  lemma UncutRun(a: Adapter, w: World, r: Run)
    requires w.cancelAt.Some? && r.end < w.cancelAt.value
    ensures CancelEffect(a, w, r, r)
  {
  }

  lemma CutRun(a: Adapter, w: World, r: Run, r0: Run)
    requires w.cancelAt.Some? && r0.end >= w.cancelAt.value == r.end
    requires r.outcome == Cancelled <==> !CutWhileReading(a, w, r)
    requires CutWhileReading(a, w, r) ==>
               var code := w.exchange(|r.attempts| - 1).status.value;
               r.outcome == if code == OK then Undecodable else BadStatus(code)
    ensures CancelEffect(a, w, r, r0)
  {
    hide CutWhileReading;
  }

  lemma SameDelay(a: Adapter, w: World, n: nat)
    ensures n > 0 ==> Delay(a, Uncancelled(w), n) == Delay(a, w, n)
  {
  }

  lemma {:induction false} RunCancelled(a: Adapter, w: World, n: nat, now: int, last: Outcome, trace: seq<Attempt>)
    requires w.cancelAt.Some? && 0 <= now <= w.cancelAt.value && (n > 0 ==> now < w.cancelAt.value)
    requires Underway(n, last, trace) && n <= a.Attempts() && a.Attempts() > 0
    requires n > 0 ==> trace[n - 1].end == now
    ensures CancelEffect(a, w, RunFrom(a, w, n, now, last, trace), RunFrom(a, Uncancelled(w), n, now, last, trace))
    decreases a.Attempts() - n
  {
    hide DoOnce, Adapter.PerAttempt, Adapter.Ceiling, Adapter.Attempts, Stop;
    hide CancelEffect, CutWhileReading, CutAt, Delay;
    if n == a.Attempts() {
      UncutRun(a, w, Run(now, last, trace));
    } else {
      var w0, c := Uncancelled(w), w.cancelAt.value;
      var start := if n == 0 then now else now + Delay(a, w, n);
      var stop0, stop := Stop(a, w0), Stop(a, w);
      StopCancelled(a, w);
      StopBy(a, w);
      var it0 := DoOnce(a.PerAttempt(), stop0, w.exchange(n), start);
      if n > 0 && Passed(stop, start) {
        CutWaiting(a, w, n, now, last, trace);
      } else {
        DoOnceCancelled(a.PerAttempt(), stop0, c, w.exchange(n), start);
        DoOnceClassifies(a.PerAttempt(), stop0, w.exchange(n), start);
        if it0.retryable {
          RunGoesOn(a, w0, n + 1, it0.end, it0.outcome, trace + [it0]);
        }
        SameDelay(a, w, n);
        if it0.end >= c {
          CutDuring(a, w, n, start, last, trace);
          CutRun(a, w, RunFrom(a, w, n, now, last, trace), RunFrom(a, w0, n, now, last, trace));
        } else if !it0.retryable {
          UncutRun(a, w, Run(it0.end, it0.outcome, trace + [it0]));
        } else {
          RunCancelled(a, w, n + 1, it0.end, it0.outcome, trace + [it0]);
        }
      }
    }
  }

  /** The cancellation comes while the loop waits to retry. */
  lemma CutWaiting(a: Adapter, w: World, n: nat, now: int, last: Outcome, trace: seq<Attempt>)
    requires w.cancelAt.Some? && 0 <= now < w.cancelAt.value && 0 < n < a.Attempts()
    requires Underway(n, last, trace) && trace[n - 1].end == now && Passed(Stop(a, w), now + Delay(a, w, n))
    ensures CancelEffect(a, w, RunFrom(a, w, n, now, last, trace), RunFrom(a, Uncancelled(w), n, now, last, trace))
  {
    hide DoOnce, Adapter.PerAttempt, Adapter.Ceiling, Adapter.Attempts;
    var w0, start := Uncancelled(w), now + Delay(a, w, n);
    assert Delay(a, w0, n) == Delay(a, w, n);
    StopCancelled(a, w);
    hide Stop;
    if !Passed(Stop(a, w0), start) {
      var it0 := DoOnce(a.PerAttempt(), Stop(a, w0), w.exchange(n), start);
      DoOnceCancelled(a.PerAttempt(), Stop(a, w0), start, w.exchange(n), start);
      if it0.retryable {
        RunGoesOn(a, w0, n + 1, it0.end, it0.outcome, trace + [it0]);
      }
    }
  }

  /** What a cancelled call reports, for every moment of the cancellation: if the call is
      over before, nothing changes; otherwise it ends then, and reports the cancellation
      unless it was reading the body of a final answer, which it reports as a failure. */
  lemma CancelledOutcome(a: Adapter, w: World)
    requires w.cancelAt.Some? && a.Attempts() > 0
    ensures CancelEffect(a, w, Execution(a, w), Execution(a, Uncancelled(w)))
  {
    RunCancelled(a, w, 0, 0, NoResult, []);
  }

  /** A cancellation that is reported as something else: the answer's status is there, its
      body is being read, and the call fails as if the body were malformed. */
  lemma CancelledWhileReading(a: Adapter, wait: nat, body: nat, at: nat)
    requires a.Attempts() > 0 && a.Ceiling() > at && a.PerAttempt() > at && wait < at <= wait + body
    ensures var x := Exchange(wait, Some(OK), body, true);
            var w := World(Some(at), (n: nat) => x, (n: nat) => 0);
            Execution(a, w) == Run(at, Undecodable, [Attempt(0, at, Undecodable, false)])
  {
    hide Adapter.Attempts, Adapter.PerAttempt, Adapter.Ceiling;
    var x := Exchange(wait, Some(OK), body, true);
    var w := World(Some(at), (n: nat) => x, (n: nat) => 0);
    assert DoOnce(a.PerAttempt(), Stop(a, w), w.exchange(0), 0) == Attempt(0, at, Undecodable, false);
  }
}
