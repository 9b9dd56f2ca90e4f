/** `ecs_run_task` of src/helper.py: one call of the scheduler's run-task
    API, where a response that lists failures is turned into an exception,
    wrapped in `retry` with the parameters given at its definition. */
module RunTask {
  import opened Common
  import opened Retry
  import Text

  /** The scheduler's rejection when the account runs too many tasks. */
  const LimitMessage: string := "You've reached the limit on the number of tasks you can run concurrently"

  /** The error codes `ecs_run_task` retries locally
      (InvalidParameterException is commented out in the source). */
  const RunTaskErrorCodes: seq<string> := ["ThrottlingException", "ServerException", "RequestLimitExceeded"]

  const RunTaskMaxAttempts: int := 44

  /** The decorator's parameters; `delay` is the `randint(15, 20)` drawn
      when the module is loaded. */
  function RunTaskPolicy(delay: int): (p: Policy)
    ensures p.maxAttempts == 44 && p.delay == delay
    ensures EffectiveCodes(p) == RunTaskErrorCodes && p.errorMessage == LimitMessage
  {
    Policy(RunTaskMaxAttempts, delay, RunTaskErrorCodes, LimitMessage)
  }

  /** What the run-task API did on one call: it answered, listing the
      reasons of the tasks it could not start, or it raised. */
  datatype RunTaskReply = Response(failures: seq<string>) | CallFailed(error: Error)

  /** One call of the undecorated `ecs_run_task`. */
  function RunTaskStep(reply: RunTaskReply): Outcome<()>
  {
    match reply
    case Response(failures) =>
      if |failures| > 0 then Raise(Error(Exception, failures[0], None)) else Value(())
    case CallFailed(e) => Raise(e)
  }

  /** The script of outcomes that a sequence of replies gives the wrapper. */
  function Steps(replies: seq<RunTaskReply>): (script: seq<Outcome<()>>)
    ensures |script| == |replies|
    ensures forall k :: 0 <= k < |replies| ==> script[k] == RunTaskStep(replies[k])
  {
    seq(|replies|, k requires 0 <= k < |replies| => RunTaskStep(replies[k]))
  }

  /** The decorated `ecs_run_task`, called once by the handler. */
  method EcsRunTask(delay: int, replies: seq<RunTaskReply>) returns (run: RetryRun<()>)
    ensures run == RetryOutcome(RunTaskPolicy(delay), Steps(replies))
    ensures run.sleeps <= RunTaskMaxAttempts - 1 && run.calls <= |replies|
  {
    SleepBound(RunTaskPolicy(delay), Steps(replies));
    run := CallWithRetry(RunTaskPolicy(delay), Steps(replies));
  }

  /** A response with failures raises a plain exception whose text is the
      first failure's reason and which has no response, and so is retried
      exactly when that reason contains the limit message. */
  lemma FailureBecomesException(delay: int, failures: seq<string>)
    requires |failures| > 0
    ensures RunTaskStep(Response(failures)) == Raise(Error(Exception, failures[0], None))
    ensures Classify(RunTaskPolicy(delay), RunTaskStep(Response(failures)).error) ==
            (if Text.Contains(failures[0], LimitMessage) then Retryable else Fatal)
  {
  }

  /** The concurrency-limit rejection is retried by its message. */
  lemma LimitRejectionRetried(delay: int, failures: seq<string>)
    requires |failures| > 0 && failures[0] == LimitMessage
    ensures Classify(RunTaskPolicy(delay), RunTaskStep(Response(failures)).error) == Retryable
  {
    Text.ContainsSelf(LimitMessage);
  }

  /** An InvalidParameterException whose text lacks the limit message is
      not retried locally: it is swallowed and the call repeated. */
  lemma InvalidParameterIgnoredLocally(delay: int, e: Error)
    requires e.code == Some("InvalidParameterException") && !Text.Contains(e.text, LimitMessage)
    ensures Classify(RunTaskPolicy(delay), e) == Ignored
  {
  }

  /** With the delay drawn from [15, 20] the local retries sleep at most
      43 times, at most 43 * 20 = 860 seconds in all. */
  lemma TotalSleepBound(delay: int, replies: seq<RunTaskReply>)
    requires 15 <= delay <= 20
    ensures var run := RetryOutcome(RunTaskPolicy(delay), Steps(replies));
      run.sleeps <= 43 && run.sleeps * delay <= 860
  {
    var run := RetryOutcome(RunTaskPolicy(delay), Steps(replies));
    SleepBound(RunTaskPolicy(delay), Steps(replies));
    assert run.sleeps * delay <= 43 * delay by {
      assert run.sleeps <= 43;
    }
  }

  /** A scheduler that keeps rejecting with the limit message is asked 43
      times, and the wrapper then raises that message as a plain exception. */
  lemma LimitRejectionsExhaust(delay: int, replies: seq<RunTaskReply>)
    requires |replies| >= 43
    requires forall k :: 0 <= k < 43 ==>
               replies[k].Response? && |replies[k].failures| > 0 && replies[k].failures[0] == LimitMessage
    ensures RetryOutcome(RunTaskPolicy(delay), Steps(replies)) ==
            RetryRun(Raised(Error(Exception, LimitMessage, None)), 43, 43)
  {
    var p := RunTaskPolicy(delay);
    var script := Steps(replies);
    forall k | 0 <= k < 43
      ensures script[k].Raise? && Classify(p, script[k].error) == Retryable
    {
      LimitRejectionRetried(delay, replies[k].failures);
    }
    AllRetryableExhausts(p, script);
  }
}
