/** Properties of `lambda_handler`: how a caught failure is routed, what
    the requeued body carries, and what each event shape can lead to. */
module HandlerProperties {
  import opened Common
  import Text
  import opened Retry
  import opened RunTask
  import opened Validation
  import opened Handler

  /** A failure is put back on the queue exactly when it is not a KeyError,
      the counter is below the limit, and either its code is one of the
      handler's retry codes or, having no code, its text is exactly the
      concurrency-limit message. */
  lemma DecideRequeueIff(e: Error, retries: int, limit: int)
    ensures Decide(e, retries, limit) == Requeue <==>
      e.kind != KeyError && retries < limit &&
      ((e.code.Some? && e.code.value in RetryErrorCodes) || (e.code.None? && e.text == LimitMessage))
  {
  }

  /** Lowering the counter never turns a requeue into a notification, and
      at or above the limit every failure is notified. */
  lemma DecideMonotone(e: Error, retries: int, fewer: int, limit: int)
    requires fewer <= retries
    ensures Decide(e, retries, limit) == Requeue ==> Decide(e, fewer, limit) == Requeue
    ensures retries >= limit ==> Decide(e, retries, limit) == Notify
  {
  }

  /** Every invocation sends at most one message: a requeue sends the body
      and no notification, a notification carries the caught error and the
      original event and nothing is requeued, and the other endings send
      nothing; an exception is recorded exactly when the invocation did not
      reach a regular end. */
  lemma EffectsMatchEnding(event: Event, env: Env)
    ensures var rep := HandlerSpec(event, env);
      (rep.ending == Requeued ==> |rep.sent| == 1 && rep.notified == []) &&
      (rep.ending == Notified ==> rep.sent == [] && rep.error.Some? &&
                                  rep.notified == [Notification(rep.error.value, event)]) &&
      (rep.ending != Requeued && rep.ending != Notified ==> rep.sent == [] && rep.notified == []) &&
      (rep.error.Some? <==> rep.ending == Requeued || rep.ending == Notified || rep.ending == Escaped)
  {
  }

  /** A requeued body is the validated request with the primed counter plus
      one, which is at most the limit; the failure behind it is one the
      handler's rule admits. */
  lemma RequeueCounter(event: Event, env: Env)
    ensures var rep := HandlerSpec(event, env);
      rep.ending == Requeued ==>
        Normalize(event, env).Bound? &&
        var b := Normalize(event, env).body;
        var n := PrimedRetries(b.sqsRetries);
        n < env.sqsRetryLimit && rep.validation.Some? && rep.error.Some? &&
        Decide(rep.error.value, n, env.sqsRetryLimit) == Requeue &&
        rep.sent == [BodyValue(rep.validation.value.record, Some(n + 1), b.other)]
  {
  }

  /** The counter the `except` clauses compare with the limit is 0 when
      `SQS_Retries` was missing or 0, and the received value otherwise; the
      routing decision and the requeued counter both use it. */
  lemma CounterPriming(event: Event, env: Env)
    requires Normalize(event, env).Bound?
    ensures var given := Normalize(event, env).body.sqsRetries;
      var n := if given.None? || given == Some(0) then 0 else given.value;
      var rep := HandlerSpec(event, env);
      (rep.ending == Requeued || rep.ending == Notified ==>
         rep.error.Some? &&
         (rep.ending == Requeued <==> Decide(rep.error.value, n, env.sqsRetryLimit) == Requeue)) &&
      (rep.ending == Requeued ==> rep.sent[0].sqsRetries == Some(n + 1))
  {
  }

  /** The task is submitted only for a request that validated, which then
      names no service and carries a primary container name. */
  lemma SubmittedOnlyValidated(event: Event, env: Env)
    ensures var rep := HandlerSpec(event, env);
      rep.run.Some? ==>
        rep.validation.Some? && rep.validation.value.error.None? &&
        rep.validation.value.record.service.None? &&
        PrimaryNameIn(rep.validation.value.record.overrides).Ok? &&
        PrimaryNameIn(rep.validation.value.record.overrides).value.Some?
    ensures var rep := HandlerSpec(event, env);
      rep.ending == Succeeded ==> rep.run.Some? && rep.run.value.result.Returned?
  {
    match Normalize(event, env)
    case Bound(b) =>
      SuccessfulValidation(b.ecs, env.services, env.taskDefinition);
    case Unbound =>
    case Escape(_) =>
  }

  /** An event with neither shape leaves `body` unbound; reading it raises
      a NameError, which the generic clause notifies. */
  lemma UnboundNotifies(event: Event, env: Env)
    requires event.detail.None? && event.records == []
    ensures HandlerSpec(event, env) ==
            Report(Notified, Some(UnboundBodyError), [], [Notification(UnboundBodyError, event)], None, None)
    ensures Decide(UnboundBodyError, 0, env.sqsRetryLimit) == Notify
  {
  }

  /** What the state-change branch builds: the cluster and the task id are
      the second `/`-segments of their ARNs, the task definition is the
      family before `:` of the second `/`-segment of its ARN, the subnets
      are the collected values, the security group comes from the
      environment, and no service, network or overrides are set. */
  lemma StateChangeRecord(d: Detail, env: Env)
    ensures var res := StateChangeEcs(d, env);
      res.Ok? ==>
        var r := res.value;
        var g := Gather(d).value;
        Gather(d).Ok? && d.clusterArn.Some? && d.taskDefinitionArn.Some? &&
        g.container.taskArn.Some? && env.ecsSecurityGroup.Some? &&
        '/' in d.clusterArn.value && '/' in g.container.taskArn.value && '/' in d.taskDefinitionArn.value &&
        r.cluster == Some(Text.Split(d.clusterArn.value, '/')[1]) &&
        r.service.None? && r.taskDefinition.None? && r.networkConfiguration.None? && r.overrides.None? &&
        r.startedBy == Some(StateChangeStartedBy) &&
        r.other.Keys == {"subnets", "cpu", "memory", "command", "environment", "container_name",
                         "reference_id", "task_def", "security_groups"} &&
        r.other["subnets"] == Strings(SubnetValues(g.details)) &&
        r.other["reference_id"] ==
          JStr(Text.Split(g.container.taskArn.value, '/')[1] + "-" + [DigitChar(env.suffix)]) &&
        r.other["task_def"] == JStr(Text.Split(Text.Split(d.taskDefinitionArn.value, '/')[1], ':')[0]) &&
        ':' !in Text.Split(Text.Split(d.taskDefinitionArn.value, '/')[1], ':')[0] &&
        r.other["security_groups"] == Strings([env.ecsSecurityGroup.value])
  {
    var res := StateChangeEcs(d, env);
    if res.Ok? {
      var g := Gather(d).value;
      Text.SplitHasSecond(d.clusterArn.value, '/');
      Text.SplitHasSecond(g.container.taskArn.value, '/');
      Text.SplitHasSecond(d.taskDefinitionArn.value, '/');
    }
  }

  /** A state-change request names no service, network or overrides. */
  lemma StateChangeBare(d: Detail, env: Env)
    ensures var res := StateChangeEcs(d, env);
      res.Ok? ==> res.value.service.None? && res.value.networkConfiguration.None? && res.value.overrides.None?
  {
  }

  /** A cluster ARN without `/` makes the state-change branch raise
      IndexError before the `try`, so the exception leaves the handler. */
  lemma StateChangeClusterWithoutSlash(event: Event, env: Env)
    requires event.detail.Some? && Gather(event.detail.value).Ok?
    requires event.detail.value.clusterArn.Some? && '/' !in event.detail.value.clusterArn.value
    ensures HandlerSpec(event, env) == Report(Escaped, Some(IndexErr), [], [], None, None)
  {
    Text.SplitHasSecond(event.detail.value.clusterArn.value, '/');
  }

  /** A state-change event whose fields cannot be read escapes with that
      error before the `try`. Otherwise the body built from it has no
      service and no network, so validation raises the missing-service
      error before any lookup, and the event is notified: it never starts a
      task and is never requeued. */
  lemma StateChangeAlwaysNotifies(event: Event, env: Env)
    requires event.detail.Some?
    ensures var res := StateChangeEcs(event.detail.value, env);
      var rep := HandlerSpec(event, env);
      (res.Err? ==> rep == Report(Escaped, Some(res.error), [], [], None, None)) &&
      (res.Ok? ==>
         rep.ending == Notified && rep.error == Some(MissingServiceError) && rep.run.None? &&
         rep.sent == [] && rep.validation.Some? && rep.validation.value.serviceQuery.None? &&
         rep.validation.value.taskDefQuery.None?)
  {
    var res := StateChangeEcs(event.detail.value, env);
    if res.Ok? {
      StateChangeBare(event.detail.value, env);
      assert Normalize(event, env) == Bound(BodyValue(res.value, None, map[]));
      MissingServiceRaises(res.value, env.services, env.taskDefinition);
      assert |MissingServiceMessage| != |LimitMessage|;
    }
  }

  /** A queue body keeps its counter and other keys, and its request is
      tagged with the record's event source. A text that does not parse
      once its `'` are replaced by `"` (a string of the body holding `'`,
      say) raises before the `try`, so nothing is sent or notified. */
  lemma QueueBodyTagged(event: Event, env: Env)
    requires event.detail.None? && event.records != []
    ensures var n := Normalize(event, env);
      n.Bound? ==>
        var parsed := env.loads(Text.ReplaceChar(event.records[0].body, '\'', '"'));
        parsed.Ok? && parsed.value.ecs.Some? && event.records[0].eventSourceArn.Some? &&
        n.body == BodyValue(parsed.value.ecs.value.(startedBy := event.records[0].eventSourceArn),
                            parsed.value.sqsRetries, parsed.value.other)
    ensures var parsed := env.loads(Text.ReplaceChar(event.records[0].body, '\'', '"'));
      parsed.Ok? && event.records[0].eventSourceArn.None? ==>
        HandlerSpec(event, env) == Report(Escaped, Some(KeyErr("eventSourceARN")), [], [], None, None)
    ensures var parsed := env.loads(Text.ReplaceChar(event.records[0].body, '\'', '"'));
      parsed.Ok? && parsed.value.ecs.Some? && event.records[0].eventSourceArn.Some? ==>
        Normalize(event, env).Bound?
    ensures var parsed := env.loads(Text.ReplaceChar(event.records[0].body, '\'', '"'));
      parsed.Err? ==> HandlerSpec(event, env) == Report(Escaped, Some(parsed.error), [], [], None, None)
  {
  }

  /** Only the first queue record is read. */
  lemma OnlyFirstRecord(first: QueueRecord, more: seq<QueueRecord>, env: Env)
    ensures HandlerSpec(Event(None, [first] + more), env).ending == HandlerSpec(Event(None, [first]), env).ending
    ensures Normalize(Event(None, [first] + more), env) == Normalize(Event(None, [first]), env)
  {
  }

  /** The run-task wrapper never lets an InvalidParameterException through
      unless its text carries the limit message: without it the error is
      swallowed and the call repeated. */
  lemma RunTaskInvalidParameterCarriesLimit(event: Event, env: Env)
    ensures var rep := HandlerSpec(event, env);
      rep.run.Some? && rep.run.value.result.Raised? &&
      rep.run.value.result.error.code == Some("InvalidParameterException") ==>
        Text.Contains(rep.run.value.result.error.text, LimitMessage)
  {
    var rep := HandlerSpec(event, env);
    if rep.run.Some? && rep.run.value.result.Raised? {
      NeverRaisesIgnored(RunTaskPolicy(env.delay), Steps(env.runTask));
    }
  }

  /** A validated request met with 43 concurrency-limit rejections is put
      back on the queue with its counter raised while below the limit, and
      notified at the limit. */
  lemma LimitRejectionRequeued(event: Event, env: Env)
    requires Normalize(event, env).Bound?
    requires ValidateSpec(Normalize(event, env).body.ecs, env.services, env.taskDefinition).error.None?
    requires |env.runTask| >= 43
    requires forall k :: 0 <= k < 43 ==>
               env.runTask[k].Response? && |env.runTask[k].failures| > 0 &&
               env.runTask[k].failures[0] == LimitMessage
    ensures var b := Normalize(event, env).body;
      var n := PrimedRetries(b.sqsRetries);
      var v := ValidateSpec(b.ecs, env.services, env.taskDefinition);
      var rep := HandlerSpec(event, env);
      var e := Error(Exception, LimitMessage, None);
      rep.run == Some(RetryRun(Raised(e), 43, 43)) &&
      (n < env.sqsRetryLimit ==>
         rep == Report(Requeued, Some(e), [BodyValue(v.record, Some(n + 1), b.other)], [], Some(v), rep.run)) &&
      (n >= env.sqsRetryLimit ==>
         rep == Report(Notified, Some(e), [], [Notification(e, event)], Some(v), rep.run))
  {
    LimitRejectionsExhaust(env.delay, env.runTask);
  }

  /** A body requeued after a successful validation fails on redelivery:
      its request has lost `service`, so validation raises KeyError or the
      missing-service error before any lookup, and the message is notified,
      not requeued again. */
  lemma RedeliveryAfterValidationFails(event: Event, env: Env, event2: Event, env2: Env)
    requires HandlerSpec(event, env).ending == Requeued
    requires HandlerSpec(event, env).validation.value.error.None?
    requires event2.detail.None? && event2.records != [] && event2.records[0].eventSourceArn.Some?
    requires var sent := HandlerSpec(event, env).sent[0];
      env2.loads(Text.ReplaceChar(event2.records[0].body, '\'', '"')) ==
        Ok(ParsedBody(Some(sent.ecs), sent.sqsRetries, sent.other))
    ensures var rep := HandlerSpec(event2, env2);
      rep.ending == Notified && rep.run.None? && rep.sent == [] &&
      (rep.error == Some(KeyErr("service")) || rep.error == Some(MissingServiceError)) &&
      rep.validation.Some? && rep.validation.value.serviceQuery.None? &&
      rep.validation.value.taskDefQuery.None?
  {
    var b := Normalize(event, env).body;
    RequeueCounter(event, env);
    var again := HandlerSpec(event, env).sent[0].ecs.(startedBy := event2.records[0].eventSourceArn);
    assert Normalize(event2, env2).body.ecs == again;
    RevalidationFails(b.ecs, env.services, env.taskDefinition, again, env2.services, env2.taskDefinition);
    assert |MissingServiceMessage| != |LimitMessage|;
  }
}
