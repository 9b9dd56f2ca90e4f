/** `validate_ecs_run_task_info` of src/helper.py: the in-place back-fill
    of a run-task request. Missing network settings are taken from a
    running service, a missing primary container name from the task
    definition, and the `service` key is then deleted.

    The request dictionary is the class `EcsInfo`; `EcsRecord` is its value
    at one moment. The two describe calls are given as their replies. */
module Validation {
  import opened Common

  /** `awsvpcConfiguration`: `None` marks an absent key. */
  datatype AwsVpc = AwsVpc(subnets: Option<seq<string>>, securityGroups: Option<seq<string>>,
                           assignPublicIp: Option<string>)

  datatype NetworkConfiguration = NetworkConfiguration(awsvpcConfiguration: Option<AwsVpc>)

  datatype KeyValue = KeyValue(name: string, value: string)

  /** One element of `overrides.containerOverrides`, with any other keys
      it holds (`cpu`, `memory`, ...) in `other`. */
  datatype ContainerOverride = ContainerOverride(name: Option<string>, command: Option<seq<string>>,
                                                 environment: Option<seq<KeyValue>>, other: map<string, Json>)

  /** `overrides`: the container overrides and any other keys it holds. */
  datatype Overrides = Overrides(containerOverrides: Option<seq<ContainerOverride>>, other: map<string, Json>)

  /** The request dictionary at one moment. The keys validation reads or
      writes have fields of their own; every other key is in `other`. */
  datatype EcsRecord = EcsRecord(
    cluster: Option<string>,
    service: Option<string>,
    taskDefinition: Option<string>,
    startedBy: Option<string>,
    networkConfiguration: Option<NetworkConfiguration>,
    overrides: Option<Overrides>,
    other: map<string, Json>)

  /** The one `describe_services` call: it raised, or it listed the
      services with each one's `networkConfiguration` if it has one. */
  datatype ServiceReply = ServiceCallFailed(error: Error) | ServicesDescribed(services: seq<Option<NetworkConfiguration>>)

  /** The one `describe_task_definition` call: it raised, or it gave the
      names of the definition's containers in order. */
  datatype TaskDefReply = TaskDefCallFailed(error: Error) | TaskDefDescribed(containerNames: seq<string>)

  /** The arguments of a `describe_services` call. */
  datatype ServiceQuery = ServiceQuery(cluster: string, service: string)

  /** The end of a validation: the request as it is left (also when it
      raised), the exception if any, and the describe calls it made. */
  datatype ValidationEnd = ValidationEnd(
    record: EcsRecord,
    error: Option<Error>,
    serviceQuery: Option<ServiceQuery>,
    taskDefQuery: Option<string>)

  const MissingServiceMessage: string :=
    "ECS Service and/or Cluster Names did not get passed into ECS Information for validate_ecs_run_task_info"

  /** Raised when network settings are missing and no service and cluster
      are named to take them from. */
  const MissingServiceError: Error := Error(Exception, MissingServiceMessage, None)

  /** A container override with no keys, `{}`. */
  const EmptyOverride: ContainerOverride := ContainerOverride(None, None, None, map[])

  /** Python truthiness of an optional list and of an optional string. */
  predicate TruthyList(o: Option<seq<string>>) { o.Some? && o.value != [] }
  predicate TruthyText(o: Option<string>) { o.Some? && o.value != "" }

  /** `.get('networkConfiguration', {}).get('awsvpcConfiguration', {})`. */
  function AwsVpcIn(nc: Option<NetworkConfiguration>): Option<AwsVpc>
  {
    match nc
    case None => None
    case Some(n) => n.awsvpcConfiguration
  }

  /** `required_net_keys['subnets']`. */
  function SubnetsIn(nc: Option<NetworkConfiguration>): Option<seq<string>>
  {
    match AwsVpcIn(nc)
    case None => None
    case Some(a) => a.subnets
  }

  /** `required_net_keys['securityGroups']`. */
  function SecurityGroupsIn(nc: Option<NetworkConfiguration>): Option<seq<string>>
  {
    match AwsVpcIn(nc)
    case None => None
    case Some(a) => a.securityGroups
  }

  /** `required_definition_keys['container_name']`: the first override's
      name, reading `[{}]` when there are no overrides; an empty list of
      container overrides raises IndexError. */
  function PrimaryNameIn(o: Option<Overrides>): Result<Option<string>>
  {
    match o
    case None => Ok(None)
    case Some(ov) =>
      match ov.containerOverrides
      case None => Ok(None)
      case Some(cs) => if cs == [] then Err(IndexErr) else Ok(cs[0].name)
  }

  /** `response['services'][0]['networkConfiguration']`. */
  function FirstServiceNetwork(reply: ServiceReply): Result<NetworkConfiguration>
  {
    match reply
    case ServiceCallFailed(e) => Err(e)
    case ServicesDescribed(services) =>
      var first :- First(Some(services), "services");
      Get(first, "networkConfiguration")
  }

  /** `...['networkConfiguration']['awsvpcConfiguration']['subnets']`. */
  function FetchSubnets(nc: NetworkConfiguration): Result<seq<string>>
  {
    var a :- Get(nc.awsvpcConfiguration, "awsvpcConfiguration");
    Get(a.subnets, "subnets")
  }

  /** `...['networkConfiguration']['awsvpcConfiguration']['securityGroups']`. */
  function FetchSecurityGroups(nc: NetworkConfiguration): Result<seq<string>>
  {
    var a :- Get(nc.awsvpcConfiguration, "awsvpcConfiguration");
    Get(a.securityGroups, "securityGroups")
  }

  /** `{"awsvpcConfiguration": {"subnets": subnets}}`. */
  function OnlySubnets(subnets: seq<string>): NetworkConfiguration
  {
    NetworkConfiguration(Some(AwsVpc(Some(subnets), None, None)))
  }

  /** `{"awsvpcConfiguration": {"securityGroups": groups}}`. */
  function OnlySecurityGroups(groups: seq<string>): NetworkConfiguration
  {
    NetworkConfiguration(Some(AwsVpc(None, Some(groups), None)))
  }

  /** The request after the network part, with its exception and query. */
  datatype NetStep = NetStep(record: EcsRecord, error: Option<Error>, query: Option<ServiceQuery>)

  /** The partial branch, lines run in order: replace the whole network
      configuration by the subnets alone, then by the groups alone. */
  function PartialNetwork(r: EcsRecord, nc: NetworkConfiguration, q: Option<ServiceQuery>): NetStep
  {
    var subnets := SubnetsIn(r.networkConfiguration);
    var groups := SecurityGroupsIn(r.networkConfiguration);
    var afterSubnets: Result<EcsRecord> :=
      if TruthyList(subnets) then Ok(r)
      else match FetchSubnets(nc)
        case Err(e) => Err(e)
        case Ok(s) => Ok(r.(networkConfiguration := Some(OnlySubnets(s))));
    match afterSubnets
    case Err(e) => NetStep(r, Some(e), q)
    case Ok(r1) =>
      if TruthyList(groups) then NetStep(r1, None, q)
      else match FetchSecurityGroups(nc)
        case Err(e) => NetStep(r1, Some(e), q)
        case Ok(g) => NetStep(r1.(networkConfiguration := Some(OnlySecurityGroups(g))), None, q)
  }

  /** The network part of validation. */
  function NetworkStage(r: EcsRecord, reply: ServiceReply): NetStep
  {
    var subnets := SubnetsIn(r.networkConfiguration);
    var groups := SecurityGroupsIn(r.networkConfiguration);
    if subnets.Some? && groups.Some? then NetStep(r, None, None)
    else if !(TruthyText(r.service) && TruthyText(r.cluster)) then NetStep(r, Some(MissingServiceError), None)
    else
      var q := Some(ServiceQuery(r.cluster.value, r.service.value));
      match FirstServiceNetwork(reply)
      case Err(e) => NetStep(r, Some(e), q)
      case Ok(nc) =>
        if !TruthyList(subnets) && !TruthyList(groups) then NetStep(r.(networkConfiguration := Some(nc)), None, q)
        else PartialNetwork(r, nc, q)
  }

  /** `overrides` once the missing levels are created as `{}` and `[{}]`. */
  function WithContainerSlot(o: Option<Overrides>): Overrides
  {
    match o
    case None => Overrides(Some([EmptyOverride]), map[])
    case Some(ov) => if ov.containerOverrides.None? then ov.(containerOverrides := Some([EmptyOverride])) else ov
  }

  /** `overrides['containerOverrides'][0]['name'] = name`. */
  function SetPrimaryName(ov: Overrides, name: string): Overrides
    requires ov.containerOverrides.Some? && |ov.containerOverrides.value| > 0
  {
    var cs := ov.containerOverrides.value;
    ov.(containerOverrides := Some(cs[0 := cs[0].(name := Some(name))]))
  }

  /** The request after the container-name part, with its exception and query. */
  datatype DefStep = DefStep(record: EcsRecord, error: Option<Error>, query: Option<string>)

  /** The container-name part of validation; `name` is the value read at
      the start. */
  function DefinitionStage(r: EcsRecord, name: Option<string>, reply: TaskDefReply): DefStep
    requires PrimaryNameIn(r.overrides).Ok?
  {
    if name.Some? then DefStep(r, None, None)
    else
      match r.taskDefinition
      case None => DefStep(r, Some(KeyErr("taskDefinition")), None)
      case Some(td) =>
        match reply
        case TaskDefCallFailed(e) => DefStep(r, Some(e), Some(td))
        case TaskDefDescribed(names) =>
          var slot := WithContainerSlot(r.overrides);
          if names == [] then DefStep(r.(overrides := Some(slot)), Some(IndexErr), Some(td))
          else DefStep(r.(overrides := Some(SetPrimaryName(slot, names[0]))), None, Some(td))
  }

  /** `validate_ecs_run_task_info` on a request value. */
  function ValidateSpec(r: EcsRecord, services: ServiceReply, taskDef: TaskDefReply): ValidationEnd
  {
    match PrimaryNameIn(r.overrides)
    case Err(e) => ValidationEnd(r, Some(e), None, None)
    case Ok(name) =>
      var net := NetworkStage(r, services);
      if net.error.Some? then ValidationEnd(net.record, net.error, net.query, None)
      else
        assert net.record.overrides == r.overrides;
        var def := DefinitionStage(net.record, name, taskDef);
        if def.error.Some? then ValidationEnd(def.record, def.error, net.query, def.query)
        else if def.record.service.None? then ValidationEnd(def.record, Some(KeyErr("service")), net.query, def.query)
        else ValidationEnd(def.record.(service := None), None, net.query, def.query)
  }

  /** The request dictionary, updated in place. */
  class EcsInfo {
    var cluster: Option<string>
    var service: Option<string>
    var taskDefinition: Option<string>
    var startedBy: Option<string>
    var networkConfiguration: Option<NetworkConfiguration>
    var overrides: Option<Overrides>
    var other: map<string, Json>

    function Snapshot(): EcsRecord
      reads this
    {
      EcsRecord(cluster, service, taskDefinition, startedBy, networkConfiguration, overrides, other)
    }

    constructor (r: EcsRecord)
      ensures Snapshot() == r
    {
      cluster, service, taskDefinition, startedBy := r.cluster, r.service, r.taskDefinition, r.startedBy;
      networkConfiguration, overrides, other := r.networkConfiguration, r.overrides, r.other;
    }
  }

  /** `validate_ecs_run_task_info(ecs_info)`: mutates `info` step by step
      and reports the exception and the describe calls it made. */
  method ValidateRunTaskInfo(info: EcsInfo, services: ServiceReply, taskDef: TaskDefReply)
    returns (error: Option<Error>, serviceQuery: Option<ServiceQuery>, taskDefQuery: Option<string>)
    modifies info
    ensures ValidationEnd(info.Snapshot(), error, serviceQuery, taskDefQuery) ==
            ValidateSpec(old(info.Snapshot()), services, taskDef)
  {
    ghost var r0 := info.Snapshot();
    serviceQuery, taskDefQuery := None, None;
    var subnets := SubnetsIn(info.networkConfiguration);
    var groups := SecurityGroupsIn(info.networkConfiguration);
    var name := PrimaryNameIn(info.overrides);
    if name.Err? {
      return Some(name.error), None, None;
    }

    if subnets.None? || groups.None? {
      if TruthyText(info.service) && TruthyText(info.cluster) {
        serviceQuery := Some(ServiceQuery(info.cluster.value, info.service.value));
        var nc := FirstServiceNetwork(services);
        if nc.Err? {
          return Some(nc.error), serviceQuery, None;
        }
        if !TruthyList(subnets) && !TruthyList(groups) {
          info.networkConfiguration := Some(nc.value);
        } else {
          if !TruthyList(subnets) {
            var fetched := FetchSubnets(nc.value);
            if fetched.Err? {
              return Some(fetched.error), serviceQuery, None;
            }
            info.networkConfiguration := Some(OnlySubnets(fetched.value));
          }
          if !TruthyList(groups) {
            var fetched := FetchSecurityGroups(nc.value);
            if fetched.Err? {
              return Some(fetched.error), serviceQuery, None;
            }
            info.networkConfiguration := Some(OnlySecurityGroups(fetched.value));
          }
        }
      } else {
        return Some(MissingServiceError), None, None;
      }
    }
    assert info.Snapshot() == NetworkStage(r0, services).record;
    assert info.overrides == r0.overrides;

    if name.value.None? {
      if info.taskDefinition.None? {
        return Some(KeyErr("taskDefinition")), serviceQuery, None;
      }
      taskDefQuery := Some(info.taskDefinition.value);
      match taskDef {
        case TaskDefCallFailed(e) =>
          return Some(e), serviceQuery, taskDefQuery;
        case TaskDefDescribed(names) =>
          if info.overrides.None? {
            info.overrides := Some(Overrides(None, map[]));
          }
          if info.overrides.value.containerOverrides.None? {
            info.overrides := Some(info.overrides.value.(containerOverrides := Some([EmptyOverride])));
          }
          assert info.overrides == Some(WithContainerSlot(r0.overrides));
          if names == [] {
            return Some(IndexErr), serviceQuery, taskDefQuery;
          }
          info.overrides := Some(SetPrimaryName(info.overrides.value, names[0]));
      }
    }

    if info.service.None? {
      return Some(KeyErr("service")), serviceQuery, taskDefQuery;
    }
    info.service := None;
    error := None;
  }

  /** The service is described exactly when the container overrides could
      be read, a network key is absent, and both service and cluster are
      given; the call names that cluster and service. */
  lemma ServiceLookupIff(r: EcsRecord, services: ServiceReply, taskDef: TaskDefReply)
    ensures var v := ValidateSpec(r, services, taskDef);
      v.serviceQuery.Some? <==>
        PrimaryNameIn(r.overrides).Ok? &&
        (SubnetsIn(r.networkConfiguration).None? || SecurityGroupsIn(r.networkConfiguration).None?) &&
        TruthyText(r.service) && TruthyText(r.cluster)
    ensures var v := ValidateSpec(r, services, taskDef);
      v.serviceQuery.Some? ==> v.serviceQuery == Some(ServiceQuery(r.cluster.value, r.service.value))
  {
  }

  /** Network keys absent without a service and cluster to take them from:
      the error is raised before any lookup, and nothing is changed. */
  lemma MissingServiceRaises(r: EcsRecord, services: ServiceReply, taskDef: TaskDefReply)
    requires PrimaryNameIn(r.overrides).Ok?
    requires SubnetsIn(r.networkConfiguration).None? || SecurityGroupsIn(r.networkConfiguration).None?
    requires !(TruthyText(r.service) && TruthyText(r.cluster))
    ensures ValidateSpec(r, services, taskDef) == ValidationEnd(r, Some(MissingServiceError), None, None)
  {
  }

  /** Both keys falsy and one absent: the service's network configuration
      is adopted verbatim, whatever happens afterwards. */
  lemma WholeNetworkAdopted(r: EcsRecord, services: ServiceReply, taskDef: TaskDefReply, nc: NetworkConfiguration)
    requires PrimaryNameIn(r.overrides).Ok?
    requires SubnetsIn(r.networkConfiguration).None? || SecurityGroupsIn(r.networkConfiguration).None?
    requires !TruthyList(SubnetsIn(r.networkConfiguration)) && !TruthyList(SecurityGroupsIn(r.networkConfiguration))
    requires TruthyText(r.service) && TruthyText(r.cluster)
    requires FirstServiceNetwork(services) == Ok(nc)
    ensures ValidateSpec(r, services, taskDef).record.networkConfiguration == Some(nc)
  {
  }

  /** Exactly one key absent and the other given: the network configuration
      is replaced by one holding only the fetched key, so the caller's other
      key and `assignPublicIp` are lost. */
  lemma PartialNetworkReplaced(r: EcsRecord, services: ServiceReply, taskDef: TaskDefReply, nc: NetworkConfiguration)
    requires PrimaryNameIn(r.overrides).Ok?
    requires TruthyText(r.service) && TruthyText(r.cluster)
    requires FirstServiceNetwork(services) == Ok(nc)
    ensures var subnets := SubnetsIn(r.networkConfiguration);
      var groups := SecurityGroupsIn(r.networkConfiguration);
      var v := ValidateSpec(r, services, taskDef);
      TruthyList(subnets) && groups.None? && FetchSecurityGroups(nc).Ok? ==>
        v.record.networkConfiguration == Some(NetworkConfiguration(Some(AwsVpc(None, Some(FetchSecurityGroups(nc).value), None))))
    ensures var subnets := SubnetsIn(r.networkConfiguration);
      var groups := SecurityGroupsIn(r.networkConfiguration);
      var v := ValidateSpec(r, services, taskDef);
      subnets.None? && TruthyList(groups) && FetchSubnets(nc).Ok? ==>
        v.record.networkConfiguration == Some(NetworkConfiguration(Some(AwsVpc(Some(FetchSubnets(nc).value), None, None))))
  {
  }

  /** A given primary container name is left alone and the task definition
      is not described. */
  lemma ExistingNameKept(r: EcsRecord, services: ServiceReply, taskDef: TaskDefReply)
    requires PrimaryNameIn(r.overrides).Ok? && PrimaryNameIn(r.overrides).value.Some?
    ensures var v := ValidateSpec(r, services, taskDef);
      v.record.overrides == r.overrides && v.taskDefQuery == None
  {
  }

  /** A missing primary container name is taken from the first container of
      the task definition; missing `overrides` and `containerOverrides` are
      created; only the first override's name changes. */
  lemma ContainerNameBackfilled(r: EcsRecord, services: ServiceReply, taskDef: TaskDefReply)
    requires PrimaryNameIn(r.overrides) == Ok(None)
    requires ValidateSpec(r, services, taskDef).error.None?
    ensures taskDef.TaskDefDescribed? && taskDef.containerNames != []
    ensures r.taskDefinition.Some? && ValidateSpec(r, services, taskDef).taskDefQuery == r.taskDefinition
    ensures var name := taskDef.containerNames[0];
      var o := ValidateSpec(r, services, taskDef).record.overrides;
      o.Some? && o.value.containerOverrides.Some? &&
      (r.overrides.None? ==>
         o.value == Overrides(Some([ContainerOverride(Some(name), None, None, map[])]), map[])) &&
      (r.overrides.Some? && r.overrides.value.containerOverrides.None? ==>
         o.value == r.overrides.value.(containerOverrides := Some([ContainerOverride(Some(name), None, None, map[])]))) &&
      (r.overrides.Some? && r.overrides.value.containerOverrides.Some? ==>
         var before := r.overrides.value.containerOverrides.value;
         var after := o.value.containerOverrides.value;
         o.value.other == r.overrides.value.other &&
         |after| == |before| && after[0] == before[0].(name := Some(name)) &&
         forall k :: 1 <= k < |before| ==> after[k] == before[k])
  {
    var net := NetworkStage(r, services);
    assert net.record.overrides == r.overrides;
    var name := taskDef.containerNames[0];
    assert [EmptyOverride][0 := EmptyOverride.(name := Some(name))] == [ContainerOverride(Some(name), None, None, map[])];
  }

  /** The container-name part with no name given and a describable task
      definition succeeds: it asks for the request's task definition and
      leaves the first container's name as the primary name. A missing
      `overrides` becomes `{"containerOverrides": [{"name": name}]}`, a
      missing `containerOverrides` becomes `[{"name": name}]`, and otherwise
      only the first override's name changes. */
  lemma DefinitionStageBackfills(r: EcsRecord, taskDef: TaskDefReply)
    requires PrimaryNameIn(r.overrides) == Ok(None)
    requires r.taskDefinition.Some? && taskDef.TaskDefDescribed? && taskDef.containerNames != []
    ensures var d := DefinitionStage(r, None, taskDef);
      d.error.None? && d.query == r.taskDefinition &&
      PrimaryNameIn(d.record.overrides) == Ok(Some(taskDef.containerNames[0]))
    ensures var name := taskDef.containerNames[0];
      var o := DefinitionStage(r, None, taskDef).record.overrides;
      o.Some? && o.value.containerOverrides.Some? &&
      (r.overrides.None? ==>
         o.value == Overrides(Some([ContainerOverride(Some(name), None, None, map[])]), map[])) &&
      (r.overrides.Some? && r.overrides.value.containerOverrides.None? ==>
         o.value == r.overrides.value.(containerOverrides := Some([ContainerOverride(Some(name), None, None, map[])]))) &&
      (r.overrides.Some? && r.overrides.value.containerOverrides.Some? ==>
         var before := r.overrides.value.containerOverrides.value;
         var after := o.value.containerOverrides.value;
         o.value.other == r.overrides.value.other &&
         |after| == |before| && after[0] == before[0].(name := Some(name)) &&
         forall k :: 1 <= k < |before| ==> after[k] == before[k])
  {
    var name := taskDef.containerNames[0];
    assert [EmptyOverride][0 := EmptyOverride.(name := Some(name))] == [ContainerOverride(Some(name), None, None, map[])];
  }

  /** Validation touches only `service`, the network configuration and the
      overrides, whether it succeeds or raises. */
  lemma OtherKeysUntouched(r: EcsRecord, services: ServiceReply, taskDef: TaskDefReply)
    ensures var v := ValidateSpec(r, services, taskDef);
      v.record.cluster == r.cluster && v.record.taskDefinition == r.taskDefinition &&
      v.record.startedBy == r.startedBy && v.record.other == r.other
  {
    if PrimaryNameIn(r.overrides).Ok? {
      var net := NetworkStage(r, services);
      NetworkStageUntouched(r, services);
      if net.error.None? {
        assert net.record.overrides == r.overrides;
        DefinitionStageUntouched(net.record, PrimaryNameIn(r.overrides).value, taskDef);
      }
    }
  }

  /** The keys that neither part of validation writes. */
  predicate SameUntouched(a: EcsRecord, b: EcsRecord)
  {
    a.cluster == b.cluster && a.taskDefinition == b.taskDefinition &&
    a.startedBy == b.startedBy && a.other == b.other
  }

  /** The network part writes only `networkConfiguration`. */
  lemma NetworkStageUntouched(r: EcsRecord, reply: ServiceReply)
    ensures SameUntouched(NetworkStage(r, reply).record, r)
    ensures NetworkStage(r, reply).record.overrides == r.overrides
    ensures NetworkStage(r, reply).record.service == r.service
  {
  }

  /** The container-name part writes only `overrides`. */
  lemma DefinitionStageUntouched(r: EcsRecord, name: Option<string>, reply: TaskDefReply)
    requires PrimaryNameIn(r.overrides).Ok?
    ensures SameUntouched(DefinitionStage(r, name, reply).record, r)
    ensures DefinitionStage(r, name, reply).record.networkConfiguration == r.networkConfiguration
    ensures DefinitionStage(r, name, reply).record.service == r.service
  {
  }

  /** `del ecs_info['service']` runs on every successful path: a validated
      request has no service and carries a primary container name, and a
      request without a service never validates: once the other parts
      have passed, the `del` itself raises KeyError('service'). */
  lemma SuccessfulValidation(r: EcsRecord, services: ServiceReply, taskDef: TaskDefReply)
    ensures var v := ValidateSpec(r, services, taskDef);
      v.error.None? ==>
        r.service.Some? && v.record.service.None? &&
        PrimaryNameIn(v.record.overrides).Ok? && PrimaryNameIn(v.record.overrides).value.Some?
    ensures r.service.None? ==> ValidateSpec(r, services, taskDef).error.Some?
    ensures r.service.None? && PrimaryNameIn(r.overrides).Ok? &&
            SubnetsIn(r.networkConfiguration).Some? && SecurityGroupsIn(r.networkConfiguration).Some? &&
            DefinitionStage(r, PrimaryNameIn(r.overrides).value, taskDef).error.None? ==>
              ValidateSpec(r, services, taskDef).error == Some(KeyErr("service"))
  {
    var v := ValidateSpec(r, services, taskDef);
    if v.error.None? {
      var net := NetworkStage(r, services);
      assert net.record.overrides == r.overrides;
    }
  }

  /** Validation is not idempotent: the output of a successful validation,
      whatever its `startedBy`, fails a second validation without any
      lookup, with KeyError('service') or, when a network key is still
      absent, with the missing-service error. */
  lemma RevalidationFails(r: EcsRecord, services: ServiceReply, taskDef: TaskDefReply,
                          again: EcsRecord, services2: ServiceReply, taskDef2: TaskDefReply)
    requires ValidateSpec(r, services, taskDef).error.None?
    requires again == ValidateSpec(r, services, taskDef).record.(startedBy := again.startedBy)
    ensures var w := ValidateSpec(again, services2, taskDef2);
      (w.error == Some(KeyErr("service")) || w.error == Some(MissingServiceError)) &&
      w.serviceQuery.None? && w.taskDefQuery.None?
    ensures var w := ValidateSpec(again, services2, taskDef2);
      w.error == Some(KeyErr("service")) <==>
        SubnetsIn(again.networkConfiguration).Some? && SecurityGroupsIn(again.networkConfiguration).Some?
  {
    SuccessfulValidation(r, services, taskDef);
  }

  /** The request names a running service and cluster and no network: it
      gets the service's network configuration exactly. */
  lemma ExampleNoNetwork()
    ensures var r := EcsRecord(Some("c1"), Some("svc1"), Some("family"), None, None,
                               Some(Overrides(Some([ContainerOverride(Some("app"), None, None, map[])]), map[])), map[]);
      var nc := NetworkConfiguration(Some(AwsVpc(Some(["s-1"]), Some(["sg-1"]), None)));
      var v := ValidateSpec(r, ServicesDescribed([Some(nc)]), TaskDefCallFailed(IndexErr));
      v == ValidationEnd(r.(service := None, networkConfiguration := Some(nc)), None, Some(ServiceQuery("c1", "svc1")), None)
  {
  }

  /** The request gives subnets but no security groups: after validation
      it has the service's security groups and no subnets. */
  lemma ExampleNoSecurityGroup()
    ensures var r := EcsRecord(Some("c1"), Some("svc1"), Some("family"), None,
                               Some(NetworkConfiguration(Some(AwsVpc(Some(["subnet-a"]), None, None)))),
                               Some(Overrides(Some([ContainerOverride(Some("app"), None, None, map[])]), map[])), map[]);
      var nc := NetworkConfiguration(Some(AwsVpc(Some(["s-1"]), Some(["sg-1"]), None)));
      var v := ValidateSpec(r, ServicesDescribed([Some(nc)]), TaskDefCallFailed(IndexErr));
      v.error.None? && SubnetsIn(v.record.networkConfiguration).None? &&
      SecurityGroupsIn(v.record.networkConfiguration) == Some(["sg-1"])
  {
  }
}
