/** `lambda_handler` of src/main.py: turns a task state-change event or a
    queue message into one request body, primes its queue-retry counter,
    validates the request and starts the task, and on failure either puts
    the body back on the queue or sends a failure notification.

    The queue send and the notification are recorded in a `Report` rather
    than performed; `json.loads`, the environment and the scheduler's
    replies are inputs gathered in `Env`. */
module Handler {
  import opened Common
  import Text
  import opened Retry
  import opened RunTask
  import opened Validation

  /** The codes for which a failed body is put back on the queue; unlike the
      local list of `ecs_run_task`, it includes InvalidParameterException. */
  const RetryErrorCodes: seq<string> :=
    ["ThrottlingException", "ServerException", "RequestLimitExceeded", "InvalidParameterException"]

  /** The provenance tag of a body built from a state-change event. */
  const StateChangeStartedBy: string := "CloudWatch Rules State Change to STOPPED"

  /** What reading `body` raises when the event had neither shape. */
  const UnboundBodyError: Error := Error(NameError, "local variable 'body' referenced before assignment", None)

  /** The value of `randrange(10)`. */
  type Digit = d: int | 0 <= d < 10

  /** `detail.overrides.containerOverrides[k]` of a state-change event. */
  datatype EventOverride = EventOverride(command: Option<Json>, environment: Option<Json>)

  datatype EventOverrides = EventOverrides(containerOverrides: Option<seq<EventOverride>>)

  /** `detail.containers[k]`. */
  datatype Container = Container(name: Option<Json>, taskArn: Option<string>)

  /** `detail.attachments[k]`; each detail dictionary is given by its
      values in their insertion order. */
  datatype Attachment = Attachment(details: Option<seq<seq<string>>>)

  /** The `detail` of a state-change event; `None` marks an absent key. */
  datatype Detail = Detail(
    clusterArn: Option<string>,
    taskDefinitionArn: Option<string>,
    cpu: Option<Json>,
    memory: Option<Json>,
    overrides: Option<EventOverrides>,
    containers: Option<seq<Container>>,
    attachments: Option<seq<Attachment>>)

  /** One element of `Records` of a queue event. */
  datatype QueueRecord = QueueRecord(body: string, eventSourceArn: Option<string>)

  /** The invoking event: `detail` is `None` when the event has no detail
      or an empty one, and `records` is empty when it has no records. */
  datatype Event = Event(detail: Option<Detail>, records: seq<QueueRecord>)

  /** The handler's `body` dictionary at one moment: the request under
      `ECS`, the counter under `SQS_Retries`, and any other keys. */
  datatype BodyValue = BodyValue(ecs: EcsRecord, sqsRetries: Option<int>, other: map<string, Json>)

  /** What `json.loads` makes of a queue message body. */
  datatype ParsedBody = ParsedBody(ecs: Option<EcsRecord>, sqsRetries: Option<int>, other: map<string, Json>)

  /** Everything outside the handler's own code: configuration read from
      the environment, the drawn random numbers, the JSON parser, and the
      scheduler's replies to the describe calls and to each run-task call. */
  datatype Env = Env(
    sqsRetryLimit: int,
    ecsSecurityGroup: Option<string>,
    delay: int,
    suffix: Digit,
    loads: string -> Result<ParsedBody>,
    services: ServiceReply,
    taskDefinition: TaskDefReply,
    runTask: seq<RunTaskReply>)

  /** The values of one attachment detail that contain "subnet-", in order. */
  function SubnetsOf(values: seq<string>): seq<string>
    decreases |values|
  {
    if values == [] then []
    else
      var last := values[|values| - 1];
      SubnetsOf(values[..|values| - 1]) + (if Text.Contains(last, "subnet-") then [last] else [])
  }

  /** The values of all attachment details that contain "subnet-", in the
      order the nested loops visit them. */
  function SubnetValues(details: seq<seq<string>>): seq<string>
    decreases |details|
  {
    if details == [] then []
    else SubnetValues(details[..|details| - 1]) + SubnetsOf(details[|details| - 1])
  }

  lemma {:induction false} SubnetsOfIff(values: seq<string>, x: string)
    ensures x in SubnetsOf(values) <==> x in values && Text.Contains(x, "subnet-")
    decreases |values|
  {
    if values != [] {
      var init := values[..|values| - 1];
      SubnetsOfIff(init, x);
      assert values == init + [values[|values| - 1]];
    }
  }

  /** `x` is a value of one of the details. */
  predicate InSomeDetail(details: seq<seq<string>>, x: string)
  {
    exists i :: 0 <= i < |details| && x in details[i]
  }

  lemma InSomeDetailLast(details: seq<seq<string>>, x: string)
    requires details != []
    ensures InSomeDetail(details, x) <==>
            InSomeDetail(details[..|details| - 1], x) || x in details[|details| - 1]
  {
    var n := |details| - 1;
    if InSomeDetail(details, x) {
      var i :| 0 <= i < |details| && x in details[i];
      if i < n {
        assert x in details[..n][i];
      }
    }
    if InSomeDetail(details[..n], x) {
      var i :| 0 <= i < n && x in details[..n][i];
      assert x in details[i];
    }
  }

  /** The scan keeps exactly the detail values that contain "subnet-". */
  lemma {:induction false} SubnetValuesIff(details: seq<seq<string>>, x: string)
    ensures x in SubnetValues(details) <==> Text.Contains(x, "subnet-") && InSomeDetail(details, x)
    decreases |details|
  {
    if details != [] {
      var n := |details| - 1;
      SubnetValuesIff(details[..n], x);
      SubnetsOfIff(details[n], x);
      InSomeDetailLast(details, x);
      assert SubnetValues(details) == SubnetValues(details[..n]) + SubnetsOf(details[n]);
    }
  }

  /** The nested loops over the attachment details and their values. */
  method CollectSubnets(details: seq<seq<string>>) returns (subnets: seq<string>)
    ensures subnets == SubnetValues(details)
  {
    subnets := [];
    var i := 0;
    while i < |details|
      invariant 0 <= i <= |details|
      invariant subnets == SubnetValues(details[..i])
    {
      var values := details[i];
      var j := 0;
      while j < |values|
        invariant 0 <= j <= |values|
        invariant subnets == SubnetValues(details[..i]) + SubnetsOf(values[..j])
      {
        if Text.Contains(values[j], "subnet-") {
          subnets := subnets + [values[j]];
        }
        assert values[..j + 1][..j] == values[..j];
        j := j + 1;
      }
      assert values[..j] == values;
      assert details[..i + 1][..i] == details[..i];
      i := i + 1;
    }
    assert details[..i] == details;
  }

  /** The first container override, container and attachment details. */
  datatype Gathered = Gathered(overrides: EventOverride, container: Container, details: seq<seq<string>>)

  /** The three lookups before the loops. */
  function Gather(d: Detail): Result<Gathered>
  {
    var o :- Get(d.overrides, "overrides");
    var ov :- First(o.containerOverrides, "containerOverrides");
    var ci :- First(d.containers, "containers");
    var att :- First(d.attachments, "attachments");
    var details :- Get(att.details, "details");
    Ok(Gathered(ov, ci, details))
  }

  /** A JSON list of strings. */
  function Strings(ss: seq<string>): Json
  {
    JArr(seq(|ss|, k requires 0 <= k < |ss| => JStr(ss[k])))
  }

  function DigitChar(d: Digit): char
  {
    (('0' as int) + d) as char
  }

  /** The `body['ECS']` dictionary literal, its values evaluated in order. */
  function BuildStateChange(d: Detail, g: Gathered, subnets: seq<string>, env: Env): Result<EcsRecord>
  {
    var clusterArn :- Get(d.clusterArn, "clusterArn");
    var cluster :- Text.Piece(clusterArn, '/', 1);
    var cpu :- Get(d.cpu, "cpu");
    var memory :- Get(d.memory, "memory");
    var command :- Get(g.overrides.command, "command");
    var environment :- Get(g.overrides.environment, "environment");
    var name :- Get(g.container.name, "name");
    var taskArn :- Get(g.container.taskArn, "taskArn");
    var taskId :- Text.Piece(taskArn, '/', 1);
    var taskDefArn :- Get(d.taskDefinitionArn, "taskDefinitionArn");
    var revision :- Text.Piece(taskDefArn, '/', 1);
    var family :- Text.Piece(revision, ':', 0);
    var group :- Get(env.ecsSecurityGroup, "ECS_SECURITY_GROUP");
    Ok(EcsRecord(Some(cluster), None, None, Some(StateChangeStartedBy), None, None,
                 map["subnets" := Strings(subnets), "cpu" := cpu, "memory" := memory,
                     "command" := command, "environment" := environment, "container_name" := name,
                     "reference_id" := JStr(taskId + "-" + [DigitChar(env.suffix)]),
                     "task_def" := JStr(family), "security_groups" := Strings([group])]))
  }

  /** The request built from a state-change event. */
  function StateChangeEcs(d: Detail, env: Env): Result<EcsRecord>
  {
    var g :- Gather(d);
    BuildStateChange(d, g, SubnetValues(g.details), env)
  }

  /** The body of the first queue record: parsed after every `'` became
      `"`, with `ECS.startedBy` overwritten by the record's source. The
      right-hand side `record['eventSourceARN']` is read before `body['ECS']`. */
  function QueueBody(rec: QueueRecord, env: Env): Result<BodyValue>
  {
    var parsed :- env.loads(Text.ReplaceChar(rec.body, '\'', '"'));
    var arn :- Get(rec.eventSourceArn, "eventSourceARN");
    var ecs :- Get(parsed.ecs, "ECS");
    Ok(BodyValue(ecs.(startedBy := Some(arn)), parsed.sqsRetries, parsed.other))
  }

  /** The state before the `try`: a body, no body, or an exception that
      leaves the handler uncaught. */
  datatype Normalized = Bound(body: BodyValue) | Unbound | Escape(error: Error)

  function Normalize(event: Event, env: Env): Normalized
  {
    if event.detail.Some? then
      match StateChangeEcs(event.detail.value, env)
      case Err(e) => Escape(e)
      case Ok(r) => Bound(BodyValue(r, None, map[]))
    else if event.records != [] then
      match QueueBody(event.records[0], env)
      case Err(e) => Escape(e)
      case Ok(b) => Bound(b)
    else Unbound
  }

  /** `SQS_Retries` after priming: a missing or zero counter becomes 0. */
  function PrimedRetries(v: Option<int>): (n: int)
    ensures v.None? ==> n == 0
    ensures v.Some? ==> n == v.value
  {
    match v
    case None => 0
    case Some(k) => k
  }

  datatype Decision = Requeue | Notify

  /** The two `except` clauses: requeue or notify. */
  function Decide(e: Error, retries: int, limit: int): Decision
  {
    if e.kind == KeyError then Notify
    else if e.code.Some? then
      if e.code.value in RetryErrorCodes && retries < limit then Requeue else Notify
    else if e.text == LimitMessage && retries < limit then Requeue
    else Notify
  }

  /** How the invocation ends: the task started, the body was put back on
      the queue, a failure was notified, an exception left the handler, or
      the local retries were still running when the replies ran out. */
  datatype Ending = Succeeded | Requeued | Notified | Escaped | StillRetrying

  /** A failure notification: the error and the original event. */
  datatype Notification = Notification(error: Error, event: Event)

  /** What one invocation did: how it ended, the exception it caught or let
      escape, the bodies sent to the queue, the notifications sent, the
      validation and the local retry run. */
  datatype Report = Report(
    ending: Ending,
    error: Option<Error>,
    sent: seq<BodyValue>,
    notified: seq<Notification>,
    validation: Option<ValidationEnd>,
    run: Option<RetryRun<()>>)

  /** The `except` clauses applied to `e` with `body` as it then stands. */
  function Failed(e: Error, retries: int, body: BodyValue, event: Event, env: Env,
                  v: Option<ValidationEnd>, run: Option<RetryRun<()>>): Report
  {
    match Decide(e, retries, env.sqsRetryLimit)
    case Requeue => Report(Requeued, Some(e), [body.(sqsRetries := Some(retries + 1))], [], v, run)
    case Notify => Report(Notified, Some(e), [], [Notification(e, event)], v, run)
  }

  /** `lambda_handler(event, context)` on values. */
  function HandlerSpec(event: Event, env: Env): Report
  {
    match Normalize(event, env)
    case Escape(e) => Report(Escaped, Some(e), [], [], None, None)
    case Unbound => Report(Notified, Some(UnboundBodyError), [], [Notification(UnboundBodyError, event)], None, None)
    case Bound(b) =>
      var retries := PrimedRetries(b.sqsRetries);
      var v := ValidateSpec(b.ecs, env.services, env.taskDefinition);
      var body := BodyValue(v.record, Some(retries), b.other);
      if v.error.Some? then Failed(v.error.value, retries, body, event, env, Some(v), None)
      else
        var run := RetryOutcome(RunTaskPolicy(env.delay), Steps(env.runTask));
        match run.result
        case Returned(_) => Report(Succeeded, None, [], [], Some(v), Some(run))
        case Unfinished => Report(StillRetrying, None, [], [], Some(v), Some(run))
        case Raised(e) => Failed(e, retries, body, event, env, Some(v), Some(run))
  }

  /** The handler's `body` dictionary; `ecs` is the very dictionary that
      validation updates. */
  class Body {
    var ecs: EcsInfo
    var sqsRetries: Option<int>
    var other: map<string, Json>

    constructor (ecs: EcsInfo, sqsRetries: Option<int>, other: map<string, Json>)
      ensures this.ecs == ecs && this.sqsRetries == sqsRetries && this.other == other
    {
      this.ecs := ecs;
      this.sqsRetries := sqsRetries;
      this.other := other;
    }

    function Snapshot(): BodyValue
      reads this, ecs
    {
      BodyValue(ecs.Snapshot(), sqsRetries, other)
    }
  }

  /** The state-change branch before the `try`. */
  method NormalizeStateChange(d: Detail, env: Env) returns (r: Result<EcsRecord>)
    ensures r == StateChangeEcs(d, env)
  {
    var g := Gather(d);
    if g.Err? {
      return Err(g.error);
    }
    var subnets := CollectSubnets(g.value.details);
    r := BuildStateChange(d, g.value, subnets, env);
  }

  /** The statements before the `try`: the body built from the event's
      shape, no body, or the exception that leaves the handler. */
  method BuildBody(event: Event, env: Env) returns (body: Body?, escape: Option<Error>)
    ensures var n := Normalize(event, env);
      (escape.Some? <==> n.Escape?) && (escape.Some? ==> escape.value == n.error) &&
      (escape.None? ==> (body == null <==> n.Unbound?)) &&
      (escape.None? && body != null ==> fresh(body) && fresh(body.ecs) && body.Snapshot() == n.body)
  {
    body := null;
    escape := None;
    if event.detail.Some? {
      var ecs := NormalizeStateChange(event.detail.value, env);
      if ecs.Err? {
        return null, Some(ecs.error);
      }
      var info := new EcsInfo(ecs.value);
      body := new Body(info, None, map[]);
    } else if event.records != [] {
      var record := event.records[0];
      var parsed := env.loads(Text.ReplaceChar(record.body, '\'', '"'));
      if parsed.Err? {
        return null, Some(parsed.error);
      }
      if record.eventSourceArn.None? {
        return null, Some(KeyErr("eventSourceARN"));
      }
      if parsed.value.ecs.None? {
        return null, Some(KeyErr("ECS"));
      }
      var info := new EcsInfo(parsed.value.ecs.value);
      info.startedBy := record.eventSourceArn;
      body := new Body(info, parsed.value.sqsRetries, parsed.value.other);
    }
  }

  /** The two `except` clauses: the body is put back on the queue with its
      counter raised, or the failure is notified. */
  method HandleFailure(body: Body, err: Error, event: Event, env: Env,
                       validation: Option<ValidationEnd>, run: Option<RetryRun<()>>) returns (report: Report)
    requires body.sqsRetries.Some?
    modifies body
    ensures report == Failed(err, old(body.sqsRetries.value), old(body.Snapshot()), event, env, validation, run)
    ensures body.ecs == old(body.ecs) && body.other == old(body.other)
    ensures body.sqsRetries ==
            if report.ending == Requeued then Some(old(body.sqsRetries.value) + 1) else old(body.sqsRetries)
  {
    var sqsRetries := body.sqsRetries.value;
    if err.kind != KeyError {
      if err.code.Some? {
        if err.code.value in RetryErrorCodes && sqsRetries < env.sqsRetryLimit {
          body.sqsRetries := Some(body.sqsRetries.value + 1);
          return Report(Requeued, Some(err), [body.Snapshot()], [], validation, run);
        }
      } else if err.text == LimitMessage && sqsRetries < env.sqsRetryLimit {
        body.sqsRetries := Some(body.sqsRetries.value + 1);
        return Report(Requeued, Some(err), [body.Snapshot()], [], validation, run);
      }
    }
    report := Report(Notified, Some(err), [], [Notification(err, event)], validation, run);
  }

  /** `lambda_handler`: builds the body, then runs the `try` block and its
      `except` clauses on it. */
  method LambdaHandler(event: Event, env: Env) returns (report: Report)
    ensures report == HandlerSpec(event, env)
  {
    var body, escape := BuildBody(event, env);
    if escape.Some? {
      return Report(Escaped, escape, [], [], None, None);
    }
    if body == null {
      return Report(Notified, Some(UnboundBodyError), [], [Notification(UnboundBodyError, event)], None, None);
    }
    ghost var b := body.Snapshot();
    if body.sqsRetries.None? || body.sqsRetries == Some(0) {
      body.sqsRetries := Some(0);
    }
    assert body.sqsRetries == Some(PrimedRetries(b.sqsRetries));

    var error, serviceQuery, taskDefQuery := ValidateRunTaskInfo(body.ecs, env.services, env.taskDefinition);
    var validation := Some(ValidationEnd(body.ecs.Snapshot(), error, serviceQuery, taskDefQuery));
    var run: Option<RetryRun<()>> := None;
    if error.None? {
      var r := EcsRunTask(env.delay, env.runTask);
      run := Some(r);
      match r.result {
        case Returned(_) =>
          return Report(Succeeded, None, [], [], validation, run);
        case Unfinished =>
          return Report(StillRetrying, None, [], [], validation, run);
        case Raised(e) =>
          error := Some(e);
      }
    }
    report := HandleFailure(body, error.value, event, env, validation, run);
  }
}
