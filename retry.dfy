/** The bounded retry loop that every network helper writes out by hand, as one
    executor parameterised by the differences between the copies. */
module Retry {
  import opened Basics

  /** How a copy of the loop behaves.
      - `maxRetries`: attempts are numbered 0 .. maxRetries;
      - `baseDelayMs`: after failed attempt k the loop sleeps baseDelayMs * (k + 1);
      - `failFastOnClientError`: a 4xx status ends the loop at once (Amadeus helpers);
      - `delayAfterLastFailure`: the final failed attempt still sleeps (Open-Meteo `fetchJson`). */
  datatype Policy = Policy(maxRetries: nat, baseDelayMs: nat,
                           failFastOnClientError: bool, delayAfterLastFailure: bool)

  /** What one call produced: a usable body, an empty body (retried at once, no sleep),
      or a thrown error. */
  datatype Attempt<+T> = Succeeded(value: T) | Empty | Failed(error: Error)

  /** How the loop ended: with a body, by rethrowing a client error at once, or with
      every attempt used up (carrying the last error, if any attempt threw). */
  datatype Outcome<+T> = Got(value: T) | Stopped(error: Error) | Exhausted(lastError: Option<Error>)

  /** The loop's outcome, the number of calls it made and the sleeps it took, in order. */
  datatype Run<+T> = Run(outcome: Outcome<T>, calls: nat, delays: seq<nat>)

  /** One retried request as a caller sees it: what was asked, how many calls it
      took and the sleeps between them. */
  datatype Exchange<+Q> = Exchange(request: Q, calls: nat, delays: seq<nat>)

  /** The sleep after failed attempt k. */
  function Backoff(p: Policy, k: nat): nat {
    p.baseDelayMs * (k + 1)
  }

  /** The attempt ends the loop by itself: a body, or a client error under fail-fast. */
  predicate Halts<T>(p: Policy, a: Attempt<T>) {
    a.Succeeded? || (a.Failed? && p.failFastOnClientError && IsClientError(a.error))
  }

  /** The loop from attempt `k` on, with the last error and the sleeps so far. */
  function RunFrom<T>(p: Policy, respond: nat -> Attempt<T>, k: nat,
                      lastError: Option<Error>, delays: seq<nat>): Run<T>
    requires k <= p.maxRetries + 1
    decreases p.maxRetries + 1 - k
  {
    if k > p.maxRetries then Run(Exhausted(lastError), k, delays)
    else
      match respond(k)
      case Succeeded(v) => Run(Got(v), k + 1, delays)
      case Empty => RunFrom(p, respond, k + 1, lastError, delays)
      case Failed(e) =>
        if p.failFastOnClientError && IsClientError(e) then Run(Stopped(e), k + 1, delays)
        else if k == p.maxRetries && !p.delayAfterLastFailure then Run(Exhausted(Some(e)), k + 1, delays)
        else RunFrom(p, respond, k + 1, Some(e), delays + [Backoff(p, k)])
  }

  /** The whole loop, started at attempt 0. */
  function RunAll<T>(p: Policy, respond: nat -> Attempt<T>): Run<T> {
    RunFrom(p, respond, 0, None, [])
  }

  // ---------------------------------------------------------------- reference definitions

  /** The error of the last attempt before `n` that threw, if any did. */
  function LastErrorBefore<T>(respond: nat -> Attempt<T>, n: nat): Option<Error> {
    if n == 0 then None
    else if respond(n - 1).Failed? then Some(respond(n - 1).error)
    else LastErrorBefore(respond, n - 1)
  }

  /** The attempt sleeps after it runs: it threw, was not a fail-fast error, and is
      not the final attempt of a policy that skips the last sleep. */
  predicate SleepsAfter<T>(p: Policy, respond: nat -> Attempt<T>, j: nat) {
    respond(j).Failed? && !Halts(p, respond(j)) && (j < p.maxRetries || p.delayAfterLastFailure)
  }

  /** The sleeps the attempts before `n` take, in order. */
  function SleepsBefore<T>(p: Policy, respond: nat -> Attempt<T>, n: nat): seq<nat> {
    if n == 0 then []
    else SleepsBefore(p, respond, n - 1) + (if SleepsAfter(p, respond, n - 1) then [Backoff(p, n - 1)] else [])
  }

  predicate NoHaltBefore<T>(p: Policy, respond: nat -> Attempt<T>, n: nat) {
    forall j :: 0 <= j < n ==> !Halts(p, respond(j))
  }

  /** What a run from attempt `k` promises: it makes between k + 1 (k when no attempt
      is left) and maxRetries + 1 calls, only its last attempt may halt it, it returns
      exactly what that attempt produced, and it sleeps exactly the reference sleeps. */
  ghost predicate RunShape<T>(p: Policy, respond: nat -> Attempt<T>, k: nat, r: Run<T>) {
    && k <= r.calls <= p.maxRetries + 1
    && (k <= p.maxRetries ==> k < r.calls)
    && NoHaltBefore(p, respond, r.calls - 1)
    && r.delays == SleepsBefore(p, respond, r.calls)
    && (r.outcome.Got? ==> respond(r.calls - 1) == Succeeded(r.outcome.value))
    && (r.outcome.Stopped? ==> respond(r.calls - 1) == Failed(r.outcome.error) && Halts(p, respond(r.calls - 1)))
    && (r.outcome.Exhausted? ==> r.calls == p.maxRetries + 1 && NoHaltBefore(p, respond, r.calls)
                                 && r.outcome.lastError == LastErrorBefore(respond, r.calls))
  }

  /** Every run, from any state the loop can be in, keeps the promise of `RunShape`. */
  lemma {:induction false} RunFromCharacterized<T>(p: Policy, respond: nat -> Attempt<T>, k: nat,
                                                  lastError: Option<Error>, delays: seq<nat>)
    requires k <= p.maxRetries + 1
    requires NoHaltBefore(p, respond, k)
    requires lastError == LastErrorBefore(respond, k)
    requires delays == SleepsBefore(p, respond, k)
    ensures RunShape(p, respond, k, RunFrom(p, respond, k, lastError, delays))
    decreases p.maxRetries + 1 - k
  {
    if k > p.maxRetries {
      ExhaustedShape(p, respond, k, lastError, delays);
    } else if Halts(p, respond(k)) {
      HaltShape(p, respond, k, lastError, delays);
    } else if respond(k).Empty? {
      RunFromCharacterized(p, respond, k + 1, lastError, delays);
      PassOnShape(p, respond, k, RunFrom(p, respond, k + 1, lastError, delays));
    } else if k == p.maxRetries && !p.delayAfterLastFailure {
      LastFailureShape(p, respond, k, lastError, delays);
    } else {
      var e := respond(k).error;
      assert SleepsAfter(p, respond, k);
      RunFromCharacterized(p, respond, k + 1, Some(e), delays + [Backoff(p, k)]);
      PassOnShape(p, respond, k, RunFrom(p, respond, k + 1, Some(e), delays + [Backoff(p, k)]));
    }
  }

  /** An attempt that does not halt hands the promise of the rest of the run back one step. */
  lemma PassOnShape<T>(p: Policy, respond: nat -> Attempt<T>, k: nat, r: Run<T>)
    requires k <= p.maxRetries && !Halts(p, respond(k))
    requires NoHaltBefore(p, respond, k)
    requires RunShape(p, respond, k + 1, r)
    ensures RunShape(p, respond, k, r)
  {
  }

  /** A halting attempt ends the run with what it produced. */
  lemma HaltShape<T>(p: Policy, respond: nat -> Attempt<T>, k: nat, lastError: Option<Error>, delays: seq<nat>)
    requires k <= p.maxRetries && Halts(p, respond(k))
    requires NoHaltBefore(p, respond, k) && delays == SleepsBefore(p, respond, k)
    ensures RunShape(p, respond, k, RunFrom(p, respond, k, lastError, delays))
  {
    assert !SleepsAfter(p, respond, k);
  }

  /** With no attempt left the run ends with the last error. */
  lemma ExhaustedShape<T>(p: Policy, respond: nat -> Attempt<T>, k: nat, lastError: Option<Error>, delays: seq<nat>)
    requires k == p.maxRetries + 1
    requires NoHaltBefore(p, respond, k)
    requires lastError == LastErrorBefore(respond, k) && delays == SleepsBefore(p, respond, k)
    ensures RunShape(p, respond, k, RunFrom(p, respond, k, lastError, delays))
  {
  }

  /** The final attempt failing under a policy that skips the last sleep ends the run
      with that failure's error and no further sleep. */
  lemma LastFailureShape<T>(p: Policy, respond: nat -> Attempt<T>, k: nat, lastError: Option<Error>, delays: seq<nat>)
    requires k == p.maxRetries && !p.delayAfterLastFailure
    requires respond(k).Failed? && !Halts(p, respond(k))
    requires NoHaltBefore(p, respond, k) && delays == SleepsBefore(p, respond, k)
    ensures RunShape(p, respond, k, RunFrom(p, respond, k, lastError, delays))
  {
    assert !SleepsAfter(p, respond, k);
    assert NoHaltBefore(p, respond, k + 1);
  }

  /** The whole loop: at most maxRetries + 1 calls, the first halting attempt ends it
      with what it produced, and the sleeps are the reference sleeps. */
  lemma RunAllCharacterized<T>(p: Policy, respond: nat -> Attempt<T>)
    ensures var r := RunAll(p, respond);
      && 1 <= r.calls <= p.maxRetries + 1
      && NoHaltBefore(p, respond, r.calls - 1)
      && r.delays == SleepsBefore(p, respond, r.calls)
      && (r.outcome.Got? ==> respond(r.calls - 1) == Succeeded(r.outcome.value))
      && (r.outcome.Stopped? ==> respond(r.calls - 1) == Failed(r.outcome.error) && Halts(p, respond(r.calls - 1)))
      && (r.outcome.Exhausted? ==> r.calls == p.maxRetries + 1 && NoHaltBefore(p, respond, r.calls)
                                   && r.outcome.lastError == LastErrorBefore(respond, r.calls))
  {
    RunFromCharacterized(p, respond, 0, None, []);
  }

  /** The first halting attempt decides the run, and it runs no further attempt. */
  lemma FirstHaltDecides<T>(p: Policy, respond: nat -> Attempt<T>, j: nat)
    requires j <= p.maxRetries
    requires NoHaltBefore(p, respond, j) && Halts(p, respond(j))
    ensures RunAll(p, respond).calls == j + 1
    ensures respond(j).Succeeded? ==> RunAll(p, respond).outcome == Got(respond(j).value)
    ensures respond(j).Failed? ==> RunAll(p, respond).outcome == Stopped(respond(j).error)
  {
    RunAllCharacterized(p, respond);
  }

  /** When no attempt halts the loop, it uses every attempt and ends with the last
      error thrown (if any). */
  lemma NoHaltExhausts<T>(p: Policy, respond: nat -> Attempt<T>)
    requires NoHaltBefore(p, respond, p.maxRetries + 1)
    ensures RunAll(p, respond).calls == p.maxRetries + 1
    ensures RunAll(p, respond).outcome == Exhausted(LastErrorBefore(respond, p.maxRetries + 1))
  {
    RunAllCharacterized(p, respond);
    var r := RunAll(p, respond);
    assert !Halts(p, respond(r.calls - 1));
  }

  /** A run whose attempts all throw retryable errors sleeps base * 1, base * 2, ...
      one sleep per attempt (the last one only when the policy sleeps after it). */
  lemma {:induction false} SleepsWhenAllFail<T>(p: Policy, respond: nat -> Attempt<T>, n: nat)
    requires n <= p.maxRetries + 1
    requires forall j :: 0 <= j < n ==> respond(j).Failed? && !Halts(p, respond(j))
    ensures |SleepsBefore(p, respond, n)| == (if n == p.maxRetries + 1 && !p.delayAfterLastFailure then n - 1 else n)
    ensures forall j :: 0 <= j < |SleepsBefore(p, respond, n)| ==> SleepsBefore(p, respond, n)[j] == p.baseDelayMs * (j + 1)
  {
    if n > 0 {
      SleepsWhenAllFail(p, respond, n - 1);
    }
  }

  /** The sleeps base * 1, base * 2, ... of the first `n` attempts. */
  function LinearDelays(base: nat, n: nat): (d: seq<nat>)
    ensures |d| == n && forall j :: 0 <= j < n ==> d[j] == base * (j + 1)
  {
    seq(n, j requires 0 <= j < n => base * (j + 1))
  }

  // ---------------------------------------------------------------- the loop itself

  /** Runs the attempts `respond(0)`, `respond(1)`, ... as the helpers' `for` loops do. */
  method Execute<T>(p: Policy, respond: nat -> Attempt<T>) returns (outcome: Outcome<T>, calls: nat, delays: seq<nat>)
    ensures Run(outcome, calls, delays) == RunAll(p, respond)
  {
    var attempt: nat := 0;
    var lastError: Option<Error> := None;
    delays := [];
    while attempt <= p.maxRetries
      invariant attempt <= p.maxRetries + 1
      invariant RunFrom(p, respond, attempt, lastError, delays) == RunAll(p, respond)
      decreases p.maxRetries + 1 - attempt
    {
      var a := respond(attempt);
      if a.Succeeded? {
        return Got(a.value), attempt + 1, delays;
      }
      if a.Failed? {
        lastError := Some(a.error);
        if p.failFastOnClientError && IsClientError(a.error) {
          return Stopped(a.error), attempt + 1, delays;
        }
        if attempt == p.maxRetries && !p.delayAfterLastFailure {
          return Exhausted(lastError), attempt + 1, delays;
        }
        delays := delays + [Backoff(p, attempt)];
      }
      attempt := attempt + 1;
    }
    return Exhausted(lastError), attempt, delays;
  }
}
