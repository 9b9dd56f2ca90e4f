/** The `retry` decorator of src/helper.py: a loop that calls a wrapped
    function until it returns, raises an error that is not retryable, or
    exhausts a budget of attempts, sleeping a fixed delay after each
    retryable failure.

    The wrapped function is a script: the outcome of its first call, of its
    second call, and so on. A sleep is counted rather than performed, so the
    time spent sleeping is `sleeps * delay`. */
module Retry {
  import opened Common
  import Text

  /** The decorator's parameters. An empty `errorCodes` stands for the
      default `error_code=None` and an empty `errorMessage` for
      `error_message=None`: both are falsy in the source, as `None` is. */
  datatype Policy = Policy(maxAttempts: int, delay: int, errorCodes: seq<string>, errorMessage: string)

  /** The codes used when the decorator is given none. */
  const DefaultErrorCodes: seq<string> := ["TooManyRequestsException"]

  /** `if not error_code: error_code = ['TooManyRequestsException']`. */
  function EffectiveCodes(p: Policy): (codes: seq<string>)
    ensures codes != []
    ensures p.errorCodes != [] ==> codes == p.errorCodes
    ensures p.errorCodes == [] ==> codes == DefaultErrorCodes
  {
    if p.errorCodes == [] then DefaultErrorCodes else p.errorCodes
  }

  /** How the loop treats one failure: sleep and lose an attempt, call again
      at no cost, or re-raise at once. */
  datatype Verdict = Retryable | Ignored | Fatal

  /** `error_message and re.search(error_message, str(err))`; the only
      pattern in use is plain text, so the search is substring containment. */
  predicate MessageMatches(p: Policy, e: Error)
  {
    p.errorMessage != "" && Text.Contains(e.text, p.errorMessage)
  }

  /** The `except` branch of the loop: the message is tried first, then the
      structured code of an error that has a response; an unlisted code
      falls out of the `elif` without any action, and an error with neither
      is re-raised. */
  function Classify(p: Policy, e: Error): Verdict
  {
    if MessageMatches(p, e) then Retryable
    else if e.code.Some? then (if e.code.value in EffectiveCodes(p) then Retryable else Ignored)
    else Fatal
  }

  /** The message is checked before the code, and the three verdicts
      partition the errors. */
  lemma ClassificationOrder(p: Policy, e: Error)
    ensures MessageMatches(p, e) ==> Classify(p, e) == Retryable
    ensures Classify(p, e) == Retryable <==>
            MessageMatches(p, e) || (e.code.Some? && e.code.value in EffectiveCodes(p))
    ensures Classify(p, e) == Ignored <==>
            !MessageMatches(p, e) && e.code.Some? && e.code.value !in EffectiveCodes(p)
    ensures Classify(p, e) == Fatal <==> !MessageMatches(p, e) && e.code.None?
  {
  }

  /** Without a code list of its own the wrapper retries, among the errors
      whose text does not match, only TooManyRequestsException; any other
      code is swallowed. */
  lemma DefaultCodesWhenNoneGiven(p: Policy, e: Error)
    requires p.errorCodes == [] && !MessageMatches(p, e) && e.code.Some?
    ensures Classify(p, e) == Retryable <==> e.code.value == "TooManyRequestsException"
    ensures Classify(p, e) == Ignored <==> e.code.value != "TooManyRequestsException"
  {
  }

  /** What one call of the wrapped function does. */
  datatype Outcome<T> = Value(value: T) | Raise(error: Error)

  /** How the wrapper ends: it returns, it raises, or it would call the
      function again after the script has run out (the source would go on
      calling; `Unfinished` is where the model stops following it). */
  datatype CallResult<T> = Returned(value: T) | Raised(error: Error) | Unfinished

  /** The end of the loop with the number of calls made and sleeps taken. */
  datatype RetryRun<T> = RetryRun(result: CallResult<T>, calls: nat, sleeps: nat)

  /** `raise last_exception` while it still holds the string
      "default exception": Python 3 raises a TypeError instead. */
  const StringRaiseError: Error := Error(TypeError, "exceptions must derive from BaseException", None)

  /** `raise last_exception` after the loop. */
  function Exhausted<T>(last: Option<Error>): CallResult<T>
  {
    match last
    case Some(e) => Raised(e)
    case None => Raised(StringRaiseError)
  }

  /** The loop from a point where `attempts` is `m_attempts`, `last` is
      `last_exception`, `rest` is the part of the script not yet used,
      `calls` calls were made and `sleeps` sleeps taken. */
  function Loop<T>(p: Policy, rest: seq<Outcome<T>>, attempts: int, last: Option<Error>,
                   calls: nat, sleeps: nat): RetryRun<T>
    decreases |rest|
  {
    if attempts <= 1 then RetryRun(Exhausted(last), calls, sleeps)
    else if rest == [] then RetryRun(Unfinished, calls, sleeps)
    else
      match rest[0]
      case Value(v) => RetryRun(Returned(v), calls + 1, sleeps)
      case Raise(e) =>
        match Classify(p, e)
        case Retryable => Loop(p, rest[1..], attempts - 1, Some(e), calls + 1, sleeps + 1)
        case Ignored => Loop(p, rest[1..], attempts, last, calls + 1, sleeps)
        case Fatal => RetryRun(Raised(e), calls + 1, sleeps)
  }

  /** The decorated function called once, with the script as its behaviour. */
  function RetryOutcome<T>(p: Policy, script: seq<Outcome<T>>): RetryRun<T>
  {
    Loop(p, script, p.maxAttempts, None, 0, 0)
  }

  /** The `wrapper` of the decorator, as the loop the source runs. */
  method CallWithRetry<T>(p: Policy, script: seq<Outcome<T>>) returns (run: RetryRun<T>)
    ensures run == RetryOutcome(p, script)
  {
    var codes := EffectiveCodes(p);
    var lastException: Option<Error> := None;
    var attempts := p.maxAttempts;
    var calls, sleeps := 0, 0;
    assert script[calls..] == script;
    while attempts > 1
      invariant 0 <= calls <= |script|
      invariant Loop(p, script[calls..], attempts, lastException, calls, sleeps) == RetryOutcome(p, script)
      decreases |script| - calls
    {
      if calls == |script| {
        return RetryRun(Unfinished, calls, sleeps);
      }
      var outcome := script[calls];
      assert script[calls..][1..] == script[calls + 1..];
      calls := calls + 1;
      match outcome {
        case Value(v) =>
          return RetryRun(Returned(v), calls, sleeps);
        case Raise(err) =>
          if p.errorMessage != "" && Text.Contains(err.text, p.errorMessage) {
            sleeps := sleeps + 1;
            attempts := attempts - 1;
            lastException := Some(err);
          } else if err.code.Some? {
            if err.code.value in codes {
              sleeps := sleeps + 1;
              attempts := attempts - 1;
              lastException := Some(err);
            }
          } else {
            return RetryRun(Raised(err), calls, sleeps);
          }
      }
    }
    run := RetryRun(Exhausted(lastException), calls, sleeps);
  }

  /** A run with `dc` more calls and `ds` more sleeps. */
  function Shifted<T>(run: RetryRun<T>, dc: nat, ds: nat): RetryRun<T>
  {
    run.(calls := run.calls + dc, sleeps := run.sleeps + ds)
  }

  /** The counters only accumulate: starting them higher shifts the end. */
  lemma {:induction false} LoopShift<T>(p: Policy, rest: seq<Outcome<T>>, a: int, last: Option<Error>,
                                        c: nat, s: nat, dc: nat, ds: nat)
    ensures Loop(p, rest, a, last, c + dc, s + ds) == Shifted(Loop(p, rest, a, last, c, s), dc, ds)
    decreases |rest|
  {
    if a > 1 && rest != [] && rest[0].Raise? {
      match Classify(p, rest[0].error)
      case Retryable => LoopShift(p, rest[1..], a - 1, Some(rest[0].error), c + 1, s + 1, dc, ds);
      case Ignored => LoopShift(p, rest[1..], a, last, c + 1, s, dc, ds);
      case Fatal =>
    }
  }

  /** While more than one attempt is left, `last_exception` cannot reach
      the end: the loop only stops on the budget right after a retryable
      failure has replaced it. */
  lemma {:induction false} LoopLastIrrelevant<T>(p: Policy, rest: seq<Outcome<T>>, a: int,
                                                 l1: Option<Error>, l2: Option<Error>, c: nat, s: nat)
    requires a > 1
    ensures Loop(p, rest, a, l1, c, s) == Loop(p, rest, a, l2, c, s)
    decreases |rest|
  {
    if rest != [] && rest[0].Raise? && Classify(p, rest[0].error) == Ignored {
      LoopLastIrrelevant(p, rest[1..], a, l1, l2, c + 1, s);
    }
  }

  /** The loop reads the policy only through `Classify`, never its budget. */
  lemma {:induction false} LoopIgnoresMaxAttempts<T>(p: Policy, m: int, rest: seq<Outcome<T>>, a: int,
                                                     last: Option<Error>, c: nat, s: nat)
    ensures Loop(p, rest, a, last, c, s) == Loop(p.(maxAttempts := m), rest, a, last, c, s)
    decreases |rest|
  {
    var q := p.(maxAttempts := m);
    if a > 1 && rest != [] && rest[0].Raise? {
      assert Classify(p, rest[0].error) == Classify(q, rest[0].error);
      match Classify(p, rest[0].error)
      case Retryable => LoopIgnoresMaxAttempts(p, m, rest[1..], a - 1, Some(rest[0].error), c + 1, s + 1);
      case Ignored => LoopIgnoresMaxAttempts(p, m, rest[1..], a, last, c + 1, s);
      case Fatal =>
    }
  }

  /** A call that succeeds returns its result at once, without sleeping. */
  lemma SuccessReturnsAtOnce<T>(p: Policy, v: T, rest: seq<Outcome<T>>)
    requires p.maxAttempts > 1
    ensures RetryOutcome(p, [Value(v)] + rest) == RetryRun(Returned(v), 1, 0)
  {
  }

  /** With a budget of one attempt or less the function is never called,
      and `raise last_exception` raises the TypeError. */
  lemma BudgetOneNeverCalls<T>(p: Policy, script: seq<Outcome<T>>)
    requires p.maxAttempts <= 1
    ensures RetryOutcome(p, script) == RetryRun(Raised(StringRaiseError), 0, 0)
  {
  }

  /** An error that matches neither the message nor a response is
      re-raised on the call that produced it, with no sleep. */
  lemma FatalRaisedAtOnce<T>(p: Policy, e: Error, rest: seq<Outcome<T>>)
    requires p.maxAttempts > 1 && Classify(p, e) == Fatal
    ensures RetryOutcome(p, [Raise(e)] + rest) == RetryRun(Raised(e), 1, 0)
  {
  }

  /** A retryable failure costs exactly one sleep and one attempt: the rest
      of the run is the run of the remaining script with a budget one
      smaller, shifted by one call and one sleep. */
  lemma {:induction false} RetryableCostsOneAttempt<T>(p: Policy, e: Error, rest: seq<Outcome<T>>)
    requires p.maxAttempts > 2 && Classify(p, e) == Retryable
    ensures RetryOutcome(p, [Raise(e)] + rest) ==
            Shifted(RetryOutcome(p.(maxAttempts := p.maxAttempts - 1), rest), 1, 1)
  {
    var m := p.maxAttempts - 1;
    assert ([Raise(e)] + rest)[1..] == rest;
    calc {
      RetryOutcome(p, [Raise(e)] + rest);
      Loop(p, rest, m, Some(e), 1, 1);
      { LoopLastIrrelevant(p, rest, m, Some(e), None, 1, 1); }
      Loop(p, rest, m, None, 0 + 1, 0 + 1);
      { LoopShift(p, rest, m, None, 0, 0, 1, 1); }
      Shifted(Loop(p, rest, m, None, 0, 0), 1, 1);
      { LoopIgnoresMaxAttempts(p, m, rest, m, None, 0, 0); }
      Shifted(RetryOutcome(p.(maxAttempts := m), rest), 1, 1);
    }
  }

  /** An error with a response whose code is not listed is neither raised
      nor counted: the function is called again with the same budget and
      no sleep. */
  lemma {:induction false} IgnoredCallIsFree<T>(p: Policy, e: Error, rest: seq<Outcome<T>>)
    requires p.maxAttempts > 1 && Classify(p, e) == Ignored
    ensures RetryOutcome(p, [Raise(e)] + rest) == Shifted(RetryOutcome(p, rest), 1, 0)
  {
    assert ([Raise(e)] + rest)[1..] == rest;
    LoopShift(p, rest, p.maxAttempts, None, 0, 0, 1, 0);
  }

  /** Each call adds at most one sleep, the script bounds the calls, and
      the sleeps never exceed the attempts left minus one. */
  lemma {:induction false} LoopBounds<T>(p: Policy, rest: seq<Outcome<T>>, a: int, last: Option<Error>,
                                         c: nat, s: nat)
    ensures var run := Loop(p, rest, a, last, c, s);
      c <= run.calls <= c + |rest| &&
      s <= run.sleeps <= s + (if a > 1 then a - 1 else 0) &&
      run.sleeps - s <= run.calls - c &&
      (a > 1 && rest != [] ==> c < run.calls)
    decreases |rest|
  {
    if a > 1 && rest != [] && rest[0].Raise? {
      match Classify(p, rest[0].error)
      case Retryable => LoopBounds(p, rest[1..], a - 1, Some(rest[0].error), c + 1, s + 1);
      case Ignored => LoopBounds(p, rest[1..], a, last, c + 1, s);
      case Fatal =>
    }
  }

  /** The attempt bound: at most `max(max_attempts - 1, 0)` sleeps, at most
      one per call, and no more calls than the script has outcomes. */
  lemma SleepBound<T>(p: Policy, script: seq<Outcome<T>>)
    ensures var run := RetryOutcome(p, script);
      run.sleeps <= (if p.maxAttempts > 1 then p.maxAttempts - 1 else 0) &&
      run.sleeps <= run.calls <= |script|
  {
    LoopBounds(p, script, p.maxAttempts, None, 0, 0);
  }

  /** The number of retryable failures among some outcomes. */
  function CountRetryable<T>(p: Policy, outs: seq<Outcome<T>>): nat
    decreases |outs|
  {
    if outs == [] then 0
    else (if outs[0].Raise? && Classify(p, outs[0].error) == Retryable then 1 else 0) + CountRetryable(p, outs[1..])
  }

  lemma {:induction false} LoopSleepsAreRetryable<T>(p: Policy, rest: seq<Outcome<T>>, a: int,
                                                     last: Option<Error>, c: nat, s: nat)
    ensures var run := Loop(p, rest, a, last, c, s);
      c <= run.calls <= c + |rest| && run.sleeps == s + CountRetryable(p, rest[..run.calls - c])
    decreases |rest|
  {
    var run := Loop(p, rest, a, last, c, s);
    LoopBounds(p, rest, a, last, c, s);
    if a > 1 && rest != [] {
      assert run.calls >= c + 1;
      var k := run.calls - c;
      assert rest[..k][1..] == rest[1..][..k - 1];
      match rest[0]
      case Value(_) =>
      case Raise(e) =>
        match Classify(p, e)
        case Retryable => LoopSleepsAreRetryable(p, rest[1..], a - 1, Some(e), c + 1, s + 1);
        case Ignored => LoopSleepsAreRetryable(p, rest[1..], a, last, c + 1, s);
        case Fatal =>
    }
  }

  /** Every sleep follows a retryable failure and every retryable failure
      before the end is followed by a sleep. */
  lemma SleepsAreRetryableFailures<T>(p: Policy, script: seq<Outcome<T>>)
    ensures var run := RetryOutcome(p, script);
      run.calls <= |script| && run.sleeps == CountRetryable(p, script[..run.calls])
  {
    LoopSleepsAreRetryable(p, script, p.maxAttempts, None, 0, 0);
  }

  lemma {:induction false} LoopEnding<T>(p: Policy, script: seq<Outcome<T>>, c: nat, a: int,
                                         last: Option<Error>, s: nat)
    requires a > 1 && c <= |script|
    ensures var run := Loop(p, script[c..], a, last, c, s);
      (run.result.Returned? ==>
         c < run.calls <= |script| && script[run.calls - 1] == Value(run.result.value)) &&
      (run.result.Raised? ==>
         c < run.calls <= |script| && script[run.calls - 1] == Raise(run.result.error) &&
         (Classify(p, run.result.error) == Fatal ||
          (Classify(p, run.result.error) == Retryable && run.sleeps == s + a - 1))) &&
      (run.result.Unfinished? ==> run.calls == |script| && run.sleeps < s + a - 1)
    decreases |script| - c
  {
    var rest := script[c..];
    if rest != [] {
      assert rest[1..] == script[c + 1..];
      match rest[0]
      case Value(_) =>
      case Raise(e) =>
        match Classify(p, e)
        case Retryable =>
          if a - 1 > 1 {
            LoopEnding(p, script, c + 1, a - 1, Some(e), s + 1);
          }
        case Ignored => LoopEnding(p, script, c + 1, a, last, s);
        case Fatal =>
    }
  }

  /** How the wrapper can end. A returned value is the last call's. A
      raised error is the TypeError of an empty budget, or the last call's
      error, which is then either not retryable or the retryable failure
      that used up the last attempt. An unfinished run used the whole
      script with attempts left. */
  lemma RunEnding<T>(p: Policy, script: seq<Outcome<T>>)
    ensures var run := RetryOutcome(p, script);
      (run.result.Returned? ==>
         1 <= run.calls <= |script| && script[run.calls - 1] == Value(run.result.value)) &&
      (run.result.Raised? ==>
         (p.maxAttempts <= 1 && run.calls == 0 && run.result.error == StringRaiseError) ||
         (p.maxAttempts > 1 && 1 <= run.calls <= |script| &&
          script[run.calls - 1] == Raise(run.result.error) &&
          (Classify(p, run.result.error) == Fatal ||
           (Classify(p, run.result.error) == Retryable && run.sleeps == p.maxAttempts - 1)))) &&
      (run.result.Unfinished? ==> run.calls == |script| && run.sleeps < p.maxAttempts - 1)
  {
    if p.maxAttempts > 1 {
      assert script[0..] == script;
      LoopEnding(p, script, 0, p.maxAttempts, None, 0);
    }
  }

  /** The wrapper never raises an error whose response code is unlisted and
      whose text does not match: those are swallowed. */
  lemma NeverRaisesIgnored<T>(p: Policy, script: seq<Outcome<T>>)
    requires RetryOutcome(p, script).result.Raised?
    ensures Classify(p, RetryOutcome(p, script).result.error) != Ignored
  {
    RunEnding(p, script);
  }

  lemma {:induction false} LoopCallsWithoutIgnored<T>(p: Policy, rest: seq<Outcome<T>>, a: int,
                                                      last: Option<Error>, c: nat, s: nat)
    requires forall k :: 0 <= k < |rest| && rest[k].Raise? ==> Classify(p, rest[k].error) != Ignored
    ensures Loop(p, rest, a, last, c, s).calls <= c + (if a > 1 then a - 1 else 0)
    decreases |rest|
  {
    if a > 1 && rest != [] && rest[0].Raise? && Classify(p, rest[0].error) == Retryable {
      assert forall k :: 0 <= k < |rest[1..]| ==> rest[1..][k] == rest[k + 1];
      LoopCallsWithoutIgnored(p, rest[1..], a - 1, Some(rest[0].error), c + 1, s + 1);
    }
  }

  /** When no call fails with an unlisted code, the function runs at most
      `max(max_attempts - 1, 0)` times. */
  lemma CallBoundWithoutIgnored<T>(p: Policy, script: seq<Outcome<T>>)
    requires forall k :: 0 <= k < |script| && script[k].Raise? ==> Classify(p, script[k].error) != Ignored
    ensures RetryOutcome(p, script).calls <= (if p.maxAttempts > 1 then p.maxAttempts - 1 else 0)
  {
    LoopCallsWithoutIgnored(p, script, p.maxAttempts, None, 0, 0);
  }

  lemma {:induction false} LoopAllRetryable<T>(p: Policy, script: seq<Outcome<T>>, c: nat, a: int,
                                               last: Option<Error>, s: nat)
    requires a > 1 && c + a - 1 <= |script|
    requires forall k :: c <= k < c + a - 1 ==> script[k].Raise? && Classify(p, script[k].error) == Retryable
    ensures Loop(p, script[c..], a, last, c, s) ==
            RetryRun(Raised(script[c + a - 2].error), c + a - 1, s + a - 1)
    decreases a
  {
    assert script[c..][1..] == script[c + 1..];
    if a > 2 {
      LoopAllRetryable(p, script, c + 1, a - 1, Some(script[c].error), s + 1);
    }
  }

  /** A function that keeps failing retryably is called `max_attempts - 1`
      times, sleeps after each call, and the last failure is raised. */
  lemma AllRetryableExhausts<T>(p: Policy, script: seq<Outcome<T>>)
    requires p.maxAttempts > 1 && p.maxAttempts - 1 <= |script|
    requires forall k :: 0 <= k < p.maxAttempts - 1 ==>
               script[k].Raise? && Classify(p, script[k].error) == Retryable
    ensures RetryOutcome(p, script) ==
            RetryRun(Raised(script[p.maxAttempts - 2].error), p.maxAttempts - 1, p.maxAttempts - 1)
  {
    assert script[0..] == script;
    LoopAllRetryable(p, script, 0, p.maxAttempts, None, 0);
  }
}
