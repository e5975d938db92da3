/** The retried Amadeus SDK call that the hotel and flight helpers both write out:
    two retries, 500 ms per attempt number, a 4xx status rethrown at once and no
    sleep after the last attempt. Each SDK call is a parameter mapping the attempt
    number to what that call did. */
module Amadeus {
  import opened Basics
  import opened Retry

  const AmadeusPolicy: Policy := Policy(2, 500, true, false)

  function AsAttempt<T>(c: Call<T>): (a: Attempt<T>)
    ensures !a.Empty?
    ensures a.Succeeded? <==> c.Returned?
    ensures a.Succeeded? ==> a.value == c.value
    ensures a.Failed? ==> a.error == c.error
  {
    match c
    case Returned(v) => Succeeded(v)
    case Threw(e) => Failed(e)
  }

  function Attempts<T>(call: nat -> Call<T>): nat -> Attempt<T> {
    (k: nat) => AsAttempt(call(k))
  }

  /** The retried call as its caller sees it: the response or the error rethrown,
      the number of calls and the sleeps. */
  datatype Called<+T> = Called(result: Completion<T>, calls: nat, delays: seq<nat>)

  /** The loop never runs out of attempts without an error in hand. */
  lemma ExhaustedHasError<T>(call: nat -> Call<T>)
    ensures var run := RunAll(AmadeusPolicy, Attempts(call));
      run.outcome.Exhausted? ==> run.outcome.lastError == Some(call(2).error)
  {
    RunAllCharacterized(AmadeusPolicy, Attempts(call));
    assert !Halts(AmadeusPolicy, Attempts(call)(2)) ==> AsAttempt(call(2)).Failed?;
  }

  /** The `for (attempt = 0; attempt <= MAX_RETRIES; ...)` loop around one SDK call. */
  function CallRun<T>(call: nat -> Call<T>): Called<T> {
    var run := RunAll(AmadeusPolicy, Attempts(call));
    ExhaustedHasError(call);
    match run.outcome
    case Got(v) => Called(Normal(v), run.calls, run.delays)
    case Stopped(e) => Called(Abrupt(e), run.calls, run.delays)
    case Exhausted(last) => Called(Abrupt(last.value), run.calls, run.delays)
  }

  method CallWithRetries<T>(call: nat -> Call<T>) returns (c: Called<T>)
    ensures c == CallRun(call)
  {
    ExhaustedHasError(call);
    var outcome, calls, delays := Execute(AmadeusPolicy, Attempts(call));
    match outcome
    case Got(v) => c := Called(Normal(v), calls, delays);
    case Stopped(e) => c := Called(Abrupt(e), calls, delays);
    case Exhausted(last) => c := Called(Abrupt(last.value), calls, delays);
  }

  /** At most three calls; every call before the last threw an error that is not a
      client error; the loop sleeps 500 * (k + 1) ms after each of those and not after
      the last call; it returns the last call's response, or rethrows its error,
      which is a client error unless all three calls were made. */
  lemma CallRunContract<T>(call: nat -> Call<T>)
    ensures var c := CallRun(call);
      && 1 <= c.calls <= 3
      && (forall j :: 0 <= j < c.calls - 1 ==> call(j).Threw? && !IsClientError(call(j).error))
      && c.delays == LinearDelays(500, c.calls - 1)
      && (c.result.Normal? ==> call(c.calls - 1) == Returned(c.result.value))
      && (c.result.Abrupt? ==> call(c.calls - 1) == Threw(c.result.error)
                               && (IsClientError(c.result.error) || c.calls == 3))
  {
    var p := AmadeusPolicy;
    var respond := Attempts(call);
    RunAllCharacterized(p, respond);
    ExhaustedHasError(call);
    var run := RunAll(p, respond);
    forall j | 0 <= j < run.calls - 1
      ensures respond(j).Failed? && !Halts(p, respond(j))
    {
      assert respond(j) == AsAttempt(call(j));
      assert !Halts(p, respond(j));
    }
    SleepsWhenAllFail(p, respond, run.calls - 1);
    assert !SleepsAfter(p, respond, run.calls - 1);
    assert run.delays == SleepsBefore(p, respond, run.calls - 1);
    assert respond(run.calls - 1) == AsAttempt(call(run.calls - 1));
  }

  /** A client error on the first call ends the loop after that one call, with no sleep. */
  lemma ClientErrorFailsFast<T>(call: nat -> Call<T>)
    requires call(0).Threw? && IsClientError(call(0).error)
    ensures CallRun(call) == Called(Abrupt(call(0).error), 1, [])
  {
    CallRunContract(call);
  }
}
