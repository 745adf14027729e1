/** Status conditions, their types and reasons, and the library calls that find and set them. */
module Conditions {
  import opened Common

  datatype Status = ConditionTrue | ConditionFalse | ConditionUnknown

  datatype ConditionType =
    | ConfigurationGenerated
    | GatewayHealthy
    | AgentHealthy
    | FlowHealthy
    | LogComponentsHealthy
    | MetricComponentsHealthy
    | TraceComponentsHealthy
    | OtherType(text: string)

  datatype Reason =
    | GatewayConfigured
    | MaxPipelinesExceeded
    | ReferencedSecretMissing
    | EndpointInvalid
    | OTTLSpecInvalid
    | RuntimeAdditionalMetricInvalid
    | ValidationFailed
    | TLSCertificateExpired
    | TLSCertificateAboutToExpire
    | TLSConfigurationInvalid
    | GatewayConfigurationNotGenerated
    | GatewayReady
    | GatewayNotReady
    | AgentReady
    | AgentNotReady
    | MetricAgentNotRequired
    | RolloutInProgress
    | SelfMonConfigNotGenerated
    | SelfMonGatewayProbingFailed
    | SelfMonAgentProbingFailed
    | SelfMonGatewayAllDataDropped
    | SelfMonGatewaySomeDataDropped
    | SelfMonGatewayThrottling
    | SelfMonAgentAllDataDropped
    | SelfMonAgentSomeDataDropped
    | SelfMonFlowHealthy
    | ComponentsRunning
    | NoPipelineDeployed
    | ResourceBlocksDeletion

  datatype Condition = Condition(kind: ConditionType, status: Status, reason: Reason)

  function Find(conditions: seq<Condition>, kind: ConditionType): Option<Condition> {
    if conditions == [] then None
    else if conditions[0].kind == kind then Some(conditions[0])
    else Find(conditions[1..], kind)
  }

  /** Replaces the first condition of the type, or appends. */
  function Set(conditions: seq<Condition>, c: Condition): seq<Condition> {
    if conditions == [] then [c]
    else if conditions[0].kind == c.kind then [c] + conditions[1..]
    else [conditions[0]] + Set(conditions[1..], c)
  }

  lemma {:induction false} SetFind(conditions: seq<Condition>, c: Condition, kind: ConditionType)
    ensures Find(Set(conditions, c), kind) == if kind == c.kind then Some(c) else Find(conditions, kind)
  {
    if conditions != [] && conditions[0].kind != c.kind {
      SetFind(conditions[1..], c, kind);
    }
  }

  predicate KindsDistinct(conditions: seq<Condition>) {
    forall i, j :: 0 <= i < j < |conditions| ==> conditions[i].kind != conditions[j].kind
  }

  lemma {:induction false} SetMembers(conditions: seq<Condition>, c: Condition)
    requires KindsDistinct(conditions)
    ensures forall d :: d in Set(conditions, c) <==> d == c || (d in conditions && d.kind != c.kind)
    ensures KindsDistinct(Set(conditions, c))
  {
    if conditions != [] {
      assert conditions == [conditions[0]] + conditions[1..];
      forall d | d in conditions[1..] ensures d.kind != conditions[0].kind {
        var j :| 1 <= j < |conditions| && conditions[j] == d;
      }
      if conditions[0].kind != c.kind {
        SetMembers(conditions[1..], c);
      }
    }
  }
}
