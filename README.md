# aws-lambda-ecs-run-task, modelled in Dafny

The system is a Lambda function that starts an ECS task. It is invoked in one of two ways:

- by an EventBridge (CloudWatch Events) rule when a task stops;
- by an SQS queue carrying a run-task request.

Each invocation works through these steps:

1. It builds one request body from the event.
2. It primes the body's `SQS_Retries` counter.
3. It validates the request. Validation may describe the ECS service to fill in missing network settings, and describe the task definition to fill in the primary container's name.
4. It calls `run_task`, wrapped in a retry decorator that sleeps and retries on throttling codes and on the concurrency-limit message.
5. On failure it either requeues the body with the counter raised, or sends a failure notification.

The model is split into modules that follow the program's structure:

- `Common` (`common.dfy`): the shared vocabulary.
  - `Option` stands for a dictionary key that may be absent.
  - `Result` stands for a value or a raised exception.
  - `Error` is a Python exception's class, its `str()` text, and for a `botocore` `ClientError` its `response['Error']['Code']`.
  - It also holds a small JSON value type, and the `d['k']` and `d['k'][0]` lookups with their KeyError and IndexError.
- `Text` (`text.dfy`): the string operations the code uses.
  - Substring containment, which stands for Python's `in` and for `re.search` with the decorator's plain-text pattern.
  - `str.split` on one character.
  - `str.replace` of one character.
- `Retry` (`retry.dfy`): the `retry` decorator.
  - `RetryOutcome` is the decorated call as a function.
  - `CallWithRetry` is the decorator's `while` loop, proved equal to it.
  - The lemmas state what the loop promises: how it is classified, its budget, its sleeps, and how it can end.
- `RunTask` (`run_task.dfy`): `ecs_run_task` with the parameters given at its decoration.
- `Validation` (`validation.dfy`): `validate_ecs_run_task_info`.
  - `ValidateSpec` is a value-level specification.
  - The class `EcsInfo` is the request dictionary that the method `ValidateRunTaskInfo` updates in place, step by step as the source does.
- `Handler` (`handler.dfy`) and `HandlerProperties` (`handler_properties.dfy`): `lambda_handler`.
  - `HandlerSpec` is the specification.
  - The method `LambdaHandler` allocates the `Body` and `EcsInfo` objects. Validation therefore updates the very dictionary that is later requeued.
  - `CollectSubnets` is the nested subnet scan.

## Inputs

No I/O is performed; everything outside the handler's own code is a parameter.

- **Scheduler replies.** The model takes as given:
  - the reply to `describe_services` (`ServiceReply`);
  - the reply to `describe_task_definition` (`TaskDefReply`);
  - the reply to each successive `run_task` call (`seq<RunTaskReply>`). A reply is either a response listing failure reasons or a raised error.
- **Environment.** `SQS_RETRY_LIMIT` and `ECS_SECURITY_GROUP`.
- **Random values.** The decorator's `randint(15, 20)` delay and the `randrange(10)` digit.
- **JSON parser.** `json.loads` is a function from text to a parsed body.
- **Effects.** The queue send and the notification are recorded in a `Report`, together with:
  - how the invocation ended;
  - the exception it caught or let escape;
  - the validation outcome, including which describe calls it made;
  - the retry run, with its number of calls and sleeps.

## Behaviour of the code worth knowing

- **Partial network settings are replaced, not merged.** Suppose one of `subnets` and `securityGroups` is given and the other is absent. The whole `networkConfiguration` is then replaced by a dictionary holding only the fetched key, so the given key and `assignPublicIp` are lost (`Validation.PartialNetworkReplaced`). A validated request can therefore hold security groups without subnets (`Validation.ExampleNoSecurityGroup`).
- **Validation is not idempotent.** A successful validation deletes `service`. Running validation again on its output raises KeyError('service'), or the missing-service error when a network key is still absent (`Validation.RevalidationFails`).
- **A request that fails after validation cannot succeed on redelivery.** For the same reason, such a request, if requeued, fails validation and is notified when it is delivered again, provided its text parses back to the body that was sent (`HandlerProperties.RedeliveryAfterValidationFails`). The text goes through `replace("'", '"')` before `json.loads` (src/main.py:59). If a string in the body holds a `'`, such as an environment value or a quoted shell command, the text may no longer be valid JSON. `json.loads` then raises before the `try`, and the invocation fails with nothing sent or notified (`HandlerProperties.QueueBodyTagged`).
- **A request built from a state-change event never starts a task.** It never names a service or a network, so validation raises the missing-service error, which is notified (`HandlerProperties.StateChangeAlwaysNotifies`).
- **Validation failures are not always terminal.** They go through the same `except` clauses as submission failures. A throttled `describe_services` call, for instance, is requeued.
- **Some errors are swallowed and called again without limit.** In the decorator, an error with a response whose code is not listed is neither retried, counted nor raised: the function is simply called again with the same budget (`Retry.IgnoredCallIsFree`). `CallWithRetry` therefore returns `Unfinished` once the given replies run out.

## Model

| member | source | states |
|---|---|---|
| Text.ContainsIff | src/main.py:34 | the containment scan is true exactly when the pattern occurs at some position of the text |
| Text.ContainsSelf | src/helper.py:94 | a message equal to the decorator's pattern matches it |
| Text.Split | src/main.py:40 | `split` yields at least one piece, and no piece contains the separator |
| Text.JoinSplit | src/main.py:40 | joining the pieces of a split with the separator gives the string back |
| Text.SplitHasSecond | src/main.py:40 | `split(sep)[1]` exists exactly when the separator occurs in the string |
| Text.Piece | src/main.py:47-48 | `s.split(sep)[k]` is the k-th piece when there are enough pieces and raises IndexError otherwise; the piece has no separator |
| Text.ReplaceChar | src/main.py:59 | the replacement keeps the length and replaces exactly the occurrences of the one character |
| Text.ReplaceCharRemoves | src/main.py:59 | after replacing `'` by `"`, no `'` is left and every other character is unchanged |
| Retry.ClassificationOrder | src/helper.py:89-116 | the message is tried before the code; a failure is retried iff the message matches or its response code is listed, swallowed iff it has a response with an unlisted code, and re-raised iff neither |
| Retry.DefaultCodesWhenNoneGiven | src/helper.py:75-113 | without a code list of its own, an error whose text does not match is retried iff its code is TooManyRequestsException, and any other code is swallowed |
| Retry.CallWithRetry | src/helper.py:80-119 | the wrapper's loop yields exactly the run of `RetryOutcome`: result, number of calls and number of sleeps |
| Retry.LoopShift | src/helper.py:83-119 | the loop's end does not depend on the counts at its start other than by shifting them |
| Retry.LoopLastIrrelevant | src/helper.py:81-119 | while more than one attempt is left, the stored last exception has no effect on the outcome |
| Retry.LoopIgnoresMaxAttempts | src/helper.py:82-83 | the loop reads the budget only through its running copy `m_attempts` |
| Retry.SuccessReturnsAtOnce | src/helper.py:87 | a first call that returns ends the wrapper with that value after one call and no sleep |
| Retry.BudgetOneNeverCalls | src/helper.py:81-119 | with `max_attempts <= 1` the function is never called, and raising the string `"default exception"` raises TypeError |
| Retry.FatalRaisedAtOnce | src/helper.py:114-116 | an error that has no response and does not match the message is re-raised at once, without sleeping |
| Retry.RetryableCostsOneAttempt | src/helper.py:94-112 | for a budget `max_attempts > 2`, a retryable failure costs exactly one call, one sleep and one attempt; the run continues as with a budget one smaller |
| Retry.IgnoredCallIsFree | src/helper.py:103-104 | an error with an unlisted code costs one call and neither a sleep nor an attempt |
| Retry.LoopBounds | src/helper.py:83-119 | each call adds at most one sleep, and calls never exceed the outcomes available |
| Retry.SleepBound | src/helper.py:83-112 | a run sleeps at most `max(max_attempts - 1, 0)` times, at most once per call, and calls at most once per available outcome |
| Retry.LoopSleepsAreRetryable | src/helper.py:94-112 | the sleeps from any point are exactly the retryable failures among the calls made from there |
| Retry.SleepsAreRetryableFailures | src/helper.py:94-112 | the number of sleeps equals the number of retryable failures among the calls made |
| Retry.LoopEnding | src/helper.py:83-119 | how the loop ends from any point: the returned value is the last call's, a raised error is a fatal last call or the last of retryable failures, and it is unfinished only at the end of the replies |
| Retry.RunEnding | src/helper.py:83-119 | a returned value is the last call's. A raised error is one of three: the TypeError when `max_attempts <= 1`; the last call's fatal error; or the last retryable failure, after `max_attempts - 1` sleeps. A run is unfinished only when the replies ran out with attempts left |
| Retry.NeverRaisesIgnored | src/helper.py:103-116 | the wrapper never raises an error with an unlisted code whose text does not match |
| Retry.LoopCallsWithoutIgnored | src/helper.py:83-119 | without calls that fail with an unlisted code, the loop calls at most once per remaining attempt beyond the first |
| Retry.CallBoundWithoutIgnored | src/helper.py:83-119 | without calls that fail with an unlisted code, the function runs at most `max(max_attempts - 1, 0)` times |
| Retry.LoopAllRetryable | src/helper.py:83-119 | retryable failures on every remaining attempt exhaust the loop and raise the last of them |
| Retry.AllRetryableExhausts | src/helper.py:83-119 | a function that fails retryably on every attempt is called `max_attempts - 1` times with a sleep after each, and the last failure is raised |
| RunTask.EcsRunTask | src/helper.py:205-229 | the decorated `ecs_run_task` is the retry run over the replies' outcomes, with at most 43 sleeps |
| RunTask.FailureBecomesException | src/helper.py:228-229 | a response with failures raises a plain exception carrying the first reason; it is retried exactly when that reason contains the limit message |
| RunTask.LimitRejectionRetried | src/helper.py:210-229 | the concurrency-limit rejection is retried |
| RunTask.InvalidParameterIgnoredLocally | src/helper.py:209 | InvalidParameterException without the limit message is swallowed by the local retries, not retried or raised |
| RunTask.TotalSleepBound | src/helper.py:205-208 | with the delay in [15, 20] the local retries sleep at most 43 times and at most 860 seconds in all |
| RunTask.LimitRejectionsExhaust | src/helper.py:205-229 | 43 consecutive limit rejections make 43 calls and 43 sleeps, and then raise the limit message |
| Validation.EcsInfo.constructor | src/helper.py:126 | the request dictionary starts as the given request |
| Validation.ValidateRunTaskInfo | src/helper.py:126-202 | the in-place validation leaves the dictionary, the raised error and the describe calls made exactly as `ValidateSpec` gives them |
| Validation.ServiceLookupIff | src/helper.py:136-155 | `describe_services` is called iff the container lookup succeeds, a network key is absent, and both service and cluster are truthy; it names that cluster and service |
| Validation.MissingServiceRaises | src/helper.py:147-177 | a missing network key without a service and cluster raises the missing-service error, before any lookup and without changing the request |
| Validation.WholeNetworkAdopted | src/helper.py:158-160 | when both network keys are falsy, the service's network configuration is adopted whole |
| Validation.PartialNetworkReplaced | src/helper.py:162-171 | a single missing key replaces the network configuration by one holding only the fetched key |
| Validation.ExistingNameKept | src/helper.py:140-183 | a given primary container name leaves the overrides alone and the task definition is not described |
| Validation.ContainerNameBackfilled | src/helper.py:179-195 | a missing name is taken from the task definition's first container. Missing `overrides` and `containerOverrides` are created, and only the first override's name changes; its other keys and the later overrides are kept |
| Validation.DefinitionStageBackfills | src/helper.py:179-195 | with no primary name and a task definition that describes to at least one container, the container-name part succeeds, describes the request's task definition and leaves the first container's name as the primary name; the created `overrides` and `containerOverrides`, and the kept keys, as for `ContainerNameBackfilled` |
| Validation.OtherKeysUntouched | src/helper.py:126-202 | validation never changes cluster, taskDefinition, startedBy or any other key |
| Validation.NetworkStageUntouched | src/helper.py:147-177 | the network part writes only `networkConfiguration`: service, overrides, cluster, taskDefinition, startedBy and the other keys are unchanged |
| Validation.DefinitionStageUntouched | src/helper.py:179-195 | the container-name part writes only `overrides`: service, networkConfiguration, cluster, taskDefinition, startedBy and the other keys are unchanged |
| Validation.SuccessfulValidation | src/helper.py:197-202 | a successful validation required a service, deleted it, and leaves a primary container name. A request without a service never validates, and when both network keys are present and the name part passes, the `del` raises KeyError('service') |
| Validation.RevalidationFails | src/helper.py:147-199 | re-validating a validated request fails without any lookup: KeyError('service') when both network keys are present, the missing-service error otherwise |
| Validation.ExampleNoNetwork | src/helper.py:147-160 | a request with service and cluster and no network gets the service's network configuration |
| Validation.ExampleNoSecurityGroup | src/helper.py:162-171 | a request with subnets but no security groups ends with the service's groups and no subnets |
| Handler.SubnetValuesIff | src/main.py:32-35 | the collected subnets are exactly the detail values containing "subnet-" |
| Handler.CollectSubnets | src/main.py:25-35 | the nested loops collect the values containing "subnet-", in visiting order |
| Handler.Body.constructor | src/main.py:38-60 | the body holds the request dictionary, the counter and the other keys |
| Handler.NormalizeStateChange | src/main.py:25-52 | the state-change branch with its subnet loop builds the request that `StateChangeEcs` specifies |
| Handler.BuildBody | src/main.py:24-60 | the statements before `try` bind a fresh body equal to the normalised one, leave it unbound, or let the exception escape |
| Handler.HandleFailure | src/main.py:76-97 | the `except` clauses requeue the body with the counter raised, or notify, as `Failed` gives; the counter is raised by one exactly on a requeue, and the request and the other keys are left as they were |
| Handler.LambdaHandler | src/main.py:19-97 | the handler's sends, notifications, validation and retry run are exactly those of `HandlerSpec` |
| HandlerProperties.DecideRequeueIff | src/main.py:76-94 | a failure is requeued iff it is not a KeyError, the counter is below the limit, and either its code is in the handler's list or, having no code, its text is the limit message |
| HandlerProperties.DecideMonotone | src/main.py:84-91 | a lower counter never turns a requeue into a notification; at the limit every failure is notified |
| HandlerProperties.EffectsMatchEnding | src/main.py:76-97 | at most one message per invocation. A requeue sends the body only; a notification carries the caught error and the original event. An exception is recorded iff the invocation did not reach a regular end |
| HandlerProperties.RequeueCounter | src/main.py:64-93 | a requeued body is the validated request with the primed counter plus one, at most the limit |
| HandlerProperties.CounterPriming | src/main.py:64-93 | the counter compared with the limit, written out as 0 when `SQS_Retries` was missing or 0 and the received value otherwise, decides requeue against notify, and a requeued body carries it plus one |
| HandlerProperties.SubmittedOnlyValidated | src/main.py:70-74 | the task is submitted only for a request that validated, which has no service and names its container; success means the run returned |
| HandlerProperties.UnboundNotifies | src/main.py:21-97 | an event of neither shape raises NameError on `body`, which is notified |
| HandlerProperties.StateChangeRecord | src/main.py:38-52 | the values the state-change branch builds. The cluster and task id are the second `/`-segments of their ARNs. The family is the part before `:`. The subnets come from the scan. The tag is the state-change marker. No service, network or overrides are set |
| HandlerProperties.StateChangeBare | src/main.py:38-52 | a state-change request names no service, network or overrides |
| HandlerProperties.StateChangeClusterWithoutSlash | src/main.py:40 | a cluster ARN without `/` raises IndexError outside the `try`, so nothing is sent |
| HandlerProperties.StateChangeAlwaysNotifies | src/main.py:24-96 | a state-change event whose fields cannot be read escapes with that error and sends nothing; every other state-change event is notified with the missing-service error, before any lookup and without submission or requeue |
| HandlerProperties.QueueBodyTagged | src/main.py:57-60 | a message that parses after the quote replacement and has `ECS` and `eventSourceARN` is bound, as the parsed message with `ECS.startedBy` set to the record's source; a text that does not parse, or a missing source, raises outside the `try`, and nothing is sent |
| HandlerProperties.OnlyFirstRecord | src/main.py:58 | only the first queue record is read |
| HandlerProperties.RunTaskInvalidParameterCarriesLimit | src/helper.py:103-116 | an InvalidParameterException reaching the handler from submission always carries the limit message |
| HandlerProperties.LimitRejectionRequeued | src/main.py:74-96 | 43 limit rejections after validation are requeued with the counter raised below the limit, and notified at the limit |
| HandlerProperties.RedeliveryAfterValidationFails | src/main.py:57-78 | a body requeued after a successful validation, whose redelivered text parses back to the sent body, fails validation on redelivery with KeyError or the missing-service error, and is notified; a text that does not parse escapes instead (see `QueueBodyTagged`) |

## Left out

- Sending email through SNS and sending a message to SQS (`send_failure_email`, `send_message_to_queue`) are recorded as effects in the `Report`, not modelled, and both are assumed to succeed. In the source, the following exceptions would escape from the `except` clause that makes the send. The invocation would then fail with the body neither requeued nor notified, while the model still reports `Requeued` or `Notified`:
  - from `send_message_to_queue` (src/helper.py:234-250), which has no `try`: a missing `QUEUE_URL` (KeyError), a failure to create the SQS client, a `send_message` ClientError, and a `json.dumps` failure on the body;
  - from `send_failure_email`: a missing `AWS_LAMBDA_LOG_GROUP_NAME` or `AWS_LAMBDA_LOG_STREAM_NAME` (KeyError, src/helper.py:40-41), and a failure to create the SNS client (src/helper.py:48), both outside its `try`. The errors of `publish`, including a missing `FAILURE_SNS_TOPIC_ARN` or `AWS_LAMBDA_FUNCTION_NAME`, are caught and logged there.
- The boto3 clients and the network are left out. Every reply is an input, and a reply's fields are only those the code reads.
- `time.sleep` is counted, not performed, and the time spent is `sleeps * delay`. The Lambda execution timeout that can kill a long retry run is not modelled.
- `randint(15, 20)` and `randrange(10)` are parameters.
- `json.loads` is a parameter applied to the quote-replaced text. `json.dumps`, the `print` of the event, and the serialisation of a requeued body are left out.
- Logging is left out.
- `re.search` is modelled as substring containment. The decorator's pattern contains no regular-expression metacharacters.
- `Validation.ValidateRunTaskInfo` treats a JSON `null` under a key as the key being absent. For `subnets`, `securityGroups`, `name`, `service` without both network keys, and `cluster` the source does the same, since it reads them with `.get`. It differs from the source in these places:
  - with `"service": null` and both network keys present, the source's `del` succeeds (src/helper.py:199) and the task is submitted, while the model raises KeyError('service');
  - with `"networkConfiguration": null` or `"awsvpcConfiguration": null`, the source raises AttributeError when it calls `.get` on `None` (src/helper.py:137-138), while the model reads both network keys as absent and goes on to the service lookup;
  - with `"overrides": null`, the source raises AttributeError (src/helper.py:141), while the model goes on as if the key were absent;
  - with `"containerOverrides": null`, the source raises TypeError on `None[0]` (src/helper.py:141), while the model creates `[{}]` and back-fills the name;
  - with `"taskDefinition": null` and no primary name, the source passes `None` to `describe_task_definition` (src/helper.py:183-185), while the model raises KeyError('taskDefinition').

  Otherwise the fields it reads have the types the scheduler gives them. A value of another type, which would raise AttributeError or TypeError, is not modelled.
- `Handler.PrimedRetries` models the counter as an integer. A present falsy non-integer counter is not modelled.
- `Handler.Normalize` takes the event's `detail` as absent when it is absent or empty. The attachment details are given as their values in insertion order, and JSON values other than those read are kept opaque.
- `Retry.CallWithRetry` follows the script of replies. When the replies run out while the loop would call again, it returns `Unfinished` instead of waiting for another reply. This matters because an endless run of unlisted-code errors makes the source loop without end.
- A queue record is assumed to carry a `body`. A record without one raises KeyError('body') before the `try` (src/main.py:59), and the model cannot represent such a record.
- Passing the validated dictionary as keyword arguments to `run_task` is left out. A request that reaches submission is not checked against the scheduler's parameter names.
- The module-level reading of `SQS_RETRY_LIMIT` with `int(...)` at import is left out, including its failure on a missing or non-numeric value. The limit is an integer parameter.
