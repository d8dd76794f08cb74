/** What a call of the AI adapter reports, exactly: when it succeeds, when it times out, and
    when it gives up on an answer. */
module RetryOutcome {
  import opened Model
  import opened Backoff
  import opened Retry

  // ---------------------------------------------------- one attempt, in words

  /** Something that takes `d` from `t` on is over before the attempt's own deadline and
      before the surrounding context ends. */
  predicate InTime(per: int, stop: Option<int>, t: int, d: int) {
    d < per && (stop == None || t + d < stop.value)
  }

  /** A complete good answer in time. */
  predicate Answers(per: int, stop: Option<int>, x: Exchange, t: int) {
    x.status == Some(200) && x.decodes && InTime(per, stop, t, x.wait + x.body)
  }

  /** The network fails, or one of the five transient statuses comes, in time. */
  predicate Stumbles(per: int, stop: Option<int>, x: Exchange, t: int) {
    && InTime(per, stop, t, x.wait)
    && (x.status == None || x.status.value in {429, 500, 502, 503, 504})
  }

  /** The attempt's deadline passes before any status, while the context still lives. */
  predicate Overruns(per: int, stop: Option<int>, x: Exchange, t: int) {
    var deadline := if per > 0 then t + per else t;
    t + x.wait >= deadline && (stop == None || deadline < stop.value)
  }

  /** Another status comes in time. */
  predicate Refuses(per: int, stop: Option<int>, x: Exchange, t: int) {
    InTime(per, stop, t, x.wait) && x.status.Some? && x.status.value !in {200, 429, 500, 502, 503, 504}
  }

  /** A 200 comes in time, but its body is malformed or is not complete in time. */
  predicate Garbles(per: int, stop: Option<int>, x: Exchange, t: int) {
    && InTime(per, stop, t, x.wait) && x.status == Some(200)
    && !(x.decodes && InTime(per, stop, t, x.wait + x.body))
  }

  /** When a stumbling attempt is over; the rest of a bad answer is still read. */
  function StumbleEnd(per: int, stop: Option<int>, x: Exchange, t: int): int {
    if x.status == None then t + x.wait
    else
      var end := Min(t + x.wait + x.body, t + per);
      if stop.Some? then Min(end, stop.value) else end
  }

  lemma AttemptByExchange(per: int, stop: Option<int>, x: Exchange, t: int)
    ensures var it := DoOnce(per, stop, x, t);
            && (it.retryable <==> Stumbles(per, stop, x, t))
            && (it.retryable ==> it.end == StumbleEnd(per, stop, x, t))
            && (it.outcome == Reply <==> Answers(per, stop, x, t))
            && (it.outcome == TimedOut <==> Overruns(per, stop, x, t))
            && (it.outcome == Undecodable <==> Garbles(per, stop, x, t))
            && (it.outcome.BadStatus? && !it.retryable <==> Refuses(per, stop, x, t))
            && (it.outcome.BadStatus? ==> x.status == Some(it.outcome.code))
            && (it.retryable ==> it.outcome == if x.status == None then NetworkFailed else BadStatus(x.status.value))
  {
  }

  // -------------------------------------------------------------- the schedule

  /** When attempt `n` begins if all before it stumble. */
  function Start(a: Adapter, w: World, n: nat): int {
    if n == 0 then 0
    else StumbleEnd(a.PerAttempt(), Stop(a, w), w.exchange(n - 1), Start(a, w, n - 1)) + Delay(a, w, n)
  }

  predicate StumblesAt(a: Adapter, w: World, n: nat) {
    Stumbles(a.PerAttempt(), Stop(a, w), w.exchange(n), Start(a, w, n))
  }

  /** Attempt `n` is made: every one before it stumbles, and no wait outlasts the context. */
  ghost predicate Reached(a: Adapter, w: World, n: nat) {
    && n < a.Attempts()
    && (forall k: nat :: k < n ==> StumblesAt(a, w, k))
    && (forall k: nat :: 0 < k <= n ==> !Passed(Stop(a, w), Start(a, w, k)))
  }

  /** A run that has made `n` attempts, all of them stumbling. */
  ghost predicate Standing(a: Adapter, w: World, n: nat, now: int, last: Outcome) {
    && n <= a.Attempts()
    && (forall k: nat :: k < n ==> StumblesAt(a, w, k))
    && (forall k: nat :: 0 < k < n ==> !Passed(Stop(a, w), Start(a, w, k)))
    && (n == 0 ==> now == 0 && last == NoResult)
    && (n > 0 ==>
          && now == StumbleEnd(a.PerAttempt(), Stop(a, w), w.exchange(n - 1), Start(a, w, n - 1))
          && last == var s := w.exchange(n - 1).status; if s == None then NetworkFailed else BadStatus(s.value))
  }

  /** The run ends at attempt `n`, or behind it while waiting, or with all attempts used up. */
  ghost predicate Verdict(a: Adapter, w: World, o: Outcome, n: nat) {
    var per, stop, x := a.PerAttempt(), Stop(a, w), w.exchange(n);
    var t := Start(a, w, n);
    && Reached(a, w, n)
    && if Stumbles(per, stop, x, t) then
         if n + 1 == a.Attempts() then o == if x.status == None then NetworkFailed else BadStatus(x.status.value)
         else Passed(stop, Start(a, w, n + 1)) && o == Cancelled
       else if Answers(per, stop, x, t) then o == Reply
       else if Overruns(per, stop, x, t) then o == TimedOut
       else if Refuses(per, stop, x, t) then o == BadStatus(x.status.value)
       else if Garbles(per, stop, x, t) then o == Undecodable
       else o == Cancelled
  }

  lemma {:induction false} RunVerdict(a: Adapter, w: World, n: nat, now: int, last: Outcome, trace: seq<Attempt>)
      returns (m: nat)
    ensures a.Attempts() > 0 && Standing(a, w, n, now, last) ==>
              Verdict(a, w, RunFrom(a, w, n, now, last, trace).outcome, m)
    decreases a.Attempts() - n
  {
    hide DoOnce, Stumbles, Answers, Overruns, Refuses, Garbles, StumbleEnd, Delay, Stop, Passed;
    hide Adapter.Attempts, Adapter.PerAttempt;
    var per, stop := a.PerAttempt(), Stop(a, w);
    m := 0;
    if a.Attempts() <= 0 || !Standing(a, w, n, now, last) {
      return;
    }
    if n == a.Attempts() {
      m := n - 1;
      assert StumblesAt(a, w, m);
      assert Verdict(a, w, last, m);
    } else {
      var start := if n == 0 then now else now + Delay(a, w, n);
      assert start == Start(a, w, n);
      if n > 0 && Passed(stop, start) {
        m := n - 1;
        assert StumblesAt(a, w, m);
        assert Verdict(a, w, Cancelled, m);
      } else {
        AttemptByExchange(per, stop, w.exchange(n), start);
        Exclusive(per, stop, w.exchange(n), start);
        var it := DoOnce(per, stop, w.exchange(n), start);
        if it.retryable {
          m := RunVerdict(a, w, n + 1, it.end, it.outcome, trace + [it]);
        } else {
          m := n;
          assert Verdict(a, w, it.outcome, n);
        }
      }
    }
  }

  /** An attempt goes one way only, and what is left is a cancellation. */
  lemma Exclusive(per: int, stop: Option<int>, x: Exchange, t: int)
    ensures var it := DoOnce(per, stop, x, t);
            || it.retryable || it.outcome in {Reply, TimedOut, Undecodable, Cancelled} || it.outcome.BadStatus?
  {
  }

  /** The end of every run, from the schedule of its exchanges alone. */
  lemma EveryRunEnds(a: Adapter, w: World) returns (m: nat)
    requires a.Attempts() > 0
    ensures Verdict(a, w, Execution(a, w).outcome, m)
  {
    m := RunVerdict(a, w, 0, 0, NoResult, []);
  }

  // ------------------------------------------------------------------ the laws

  ghost predicate SucceedsAt(a: Adapter, w: World, n: nat) {
    Reached(a, w, n) && Answers(a.PerAttempt(), Stop(a, w), w.exchange(n), Start(a, w, n))
  }

  ghost predicate OverrunsAt(a: Adapter, w: World, n: nat) {
    Reached(a, w, n) && Overruns(a.PerAttempt(), Stop(a, w), w.exchange(n), Start(a, w, n))
  }

  ghost predicate RefusedAt(a: Adapter, w: World, code: int, n: nat) {
    && Reached(a, w, n) && Refuses(a.PerAttempt(), Stop(a, w), w.exchange(n), Start(a, w, n))
    && w.exchange(n).status == Some(code)
  }

  ghost predicate GarbledAt(a: Adapter, w: World, n: nat) {
    Reached(a, w, n) && Garbles(a.PerAttempt(), Stop(a, w), w.exchange(n), Start(a, w, n))
  }

  /** At most one of the ways an attempt can go. */
  lemma Apart(per: int, stop: Option<int>, x: Exchange, t: int)
    ensures !(Stumbles(per, stop, x, t) && Answers(per, stop, x, t))
    ensures !(Stumbles(per, stop, x, t) && Overruns(per, stop, x, t))
    ensures !(Stumbles(per, stop, x, t) && Refuses(per, stop, x, t))
    ensures !(Stumbles(per, stop, x, t) && Garbles(per, stop, x, t))
    ensures !(Answers(per, stop, x, t) && Overruns(per, stop, x, t))
    ensures !(Answers(per, stop, x, t) && Refuses(per, stop, x, t))
    ensures !(Answers(per, stop, x, t) && Garbles(per, stop, x, t))
    ensures !(Overruns(per, stop, x, t) && Refuses(per, stop, x, t))
    ensures !(Overruns(per, stop, x, t) && Garbles(per, stop, x, t))
    ensures !(Refuses(per, stop, x, t) && Garbles(per, stop, x, t))
  {
  }

  /** An attempt that was reached and did not stumble is the one the run ends with. */
  lemma EndsAt(a: Adapter, w: World, n: nat)
    ensures Reached(a, w, n) && !StumblesAt(a, w, n) ==> Verdict(a, w, Execution(a, w).outcome, n)
  {
    hide Execution, Stumbles, Answers, Overruns, Refuses, Garbles, Start, Stop, Passed;
    hide Adapter.Attempts, Adapter.PerAttempt;
    if Reached(a, w, n) && !StumblesAt(a, w, n) {
      var m := EveryRunEnds(a, w);
      assert n > m ==> StumblesAt(a, w, m);
      if m != n {
        assert false;
      }
    }
  }

  /** A call succeeds if and only if some attempt gets a complete, well-formed 200 before its
      own deadline and before the surrounding context ends, while every attempt before it
      failed on the network or got 429, 500, 502, 503 or 504. */
  lemma SucceedsExactly(a: Adapter, w: World)
    requires a.Attempts() > 0
    ensures Execution(a, w).outcome == Reply <==> exists n: nat :: SucceedsAt(a, w, n)
  {
    hide Execution, Stumbles, Answers, Overruns, Refuses, Garbles, Start, Stop, Passed, Reached;
    hide Adapter.Attempts, Adapter.PerAttempt;
    var m := EveryRunEnds(a, w);
    if n: nat :| SucceedsAt(a, w, n) {
      Apart(a.PerAttempt(), Stop(a, w), w.exchange(n), Start(a, w, n));
      EndsAt(a, w, n);
    }
    if Execution(a, w).outcome == Reply {
      assert SucceedsAt(a, w, m);
    }
  }

  /** A call times out if and only if some attempt's own deadline passes before any status,
      while the surrounding context still lives; a timeout is never retried. */
  lemma TimesOutExactly(a: Adapter, w: World)
    requires a.Attempts() > 0
    ensures Execution(a, w).outcome == TimedOut <==> exists n: nat :: OverrunsAt(a, w, n)
  {
    hide Execution, Stumbles, Answers, Overruns, Refuses, Garbles, Start, Stop, Passed, Reached;
    hide Adapter.Attempts, Adapter.PerAttempt;
    var m := EveryRunEnds(a, w);
    if n: nat :| OverrunsAt(a, w, n) {
      Apart(a.PerAttempt(), Stop(a, w), w.exchange(n), Start(a, w, n));
      EndsAt(a, w, n);
    }
    if Execution(a, w).outcome == TimedOut {
      assert OverrunsAt(a, w, m);
    }
  }

  /** Any other status is final: it is reported as it came, without another attempt. */
  lemma RefusedExactly(a: Adapter, w: World, code: int)
    requires a.Attempts() > 0 && code !in {200, 429, 500, 502, 503, 504}
    ensures Execution(a, w).outcome == BadStatus(code) <==> exists n: nat :: RefusedAt(a, w, code, n)
  {
    hide Execution, Answers, Overruns, Garbles, Start, Stop, Passed, Reached;
    hide Adapter.Attempts, Adapter.PerAttempt;
    var m := EveryRunEnds(a, w);
    if n: nat :| RefusedAt(a, w, code, n) {
      Apart(a.PerAttempt(), Stop(a, w), w.exchange(n), Start(a, w, n));
      EndsAt(a, w, n);
    }
    if Execution(a, w).outcome == BadStatus(code) {
      assert RefusedAt(a, w, code, m);
    }
  }

  /** So is a 200 whose body is malformed, or cut off by a deadline. */
  lemma GarbledExactly(a: Adapter, w: World)
    requires a.Attempts() > 0
    ensures Execution(a, w).outcome == Undecodable <==> exists n: nat :: GarbledAt(a, w, n)
  {
    hide Execution, Stumbles, Answers, Overruns, Refuses, Garbles, Start, Stop, Passed, Reached;
    hide Adapter.Attempts, Adapter.PerAttempt;
    var m := EveryRunEnds(a, w);
    if n: nat :| GarbledAt(a, w, n) {
      Apart(a.PerAttempt(), Stop(a, w), w.exchange(n), Start(a, w, n));
      EndsAt(a, w, n);
    }
    if Execution(a, w).outcome == Undecodable {
      assert GarbledAt(a, w, m);
    }
  }
}
