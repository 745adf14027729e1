/**
 The module state of internal/reconciler/telemetry: one component condition per signal,
 found by a ranked search over all pipelines, and the overall state drawn from them.
 */
module TelemetryState {
  import opened Common
  import opened Conditions

  datatype State = Ready | Warning | Deleting

  datatype Pipeline = Pipeline(name: string, conditions: seq<Condition>)

  /** A List call; a failure may be the one that says the kind is not installed. */
  datatype ListResult = Listed(items: seq<Pipeline>) | ListFailed(noKindMatch: bool)

  /** The order is the priority of negative conditions. */
  const RANKED_KINDS: seq<ConditionType> := [ConfigurationGenerated, GatewayHealthy, AgentHealthy, FlowHealthy]

  predicate HasFalse(p: Pipeline, kind: ConditionType) {
    Find(p.conditions, kind).Some? && Find(p.conditions, kind).value.status == ConditionFalse
  }

  predicate ExpiresSoon(p: Pipeline) {
    && Find(p.conditions, ConfigurationGenerated).Some?
    && Find(p.conditions, ConfigurationGenerated).value.reason == TLSCertificateAboutToExpire
  }

  /** A pipeline with a False condition of a ranked kind, or a certificate about to expire. */
  ghost predicate Troubled(p: Pipeline) {
    (exists kind :: kind in RANKED_KINDS && HasFalse(p, kind)) || ExpiresSoon(p)
  }

  ghost predicate NoneTroubled(pipelines: seq<Pipeline>) {
    forall p :: p in pipelines ==> !Troubled(p)
  }

  /** A condition that keeps the module from being ready. */
  predicate Bad(c: Condition) {
    c.status == ConditionFalse || c.reason == TLSCertificateAboutToExpire
  }

  // ---------------------------------------------------------------- the component checkers

  ghost predicate AnyFalse(pipelines: seq<Pipeline>) {
    exists p, kind :: p in pipelines && kind in RANKED_KINDS && HasFalse(p, kind)
  }

  /** Pipeline `i` is the first one with a False condition of kind `k`, and no earlier kind is False anywhere. */
  ghost predicate IsFirstUnhealthy(c: Condition, pipelines: seq<Pipeline>, k: nat, i: nat) {
    && k < |RANKED_KINDS| && i < |pipelines|
    && HasFalse(pipelines[i], RANKED_KINDS[k]) && Find(pipelines[i].conditions, RANKED_KINDS[k]) == Some(c)
    && (forall l, j :: 0 <= l < k && 0 <= j < |pipelines| ==> !HasFalse(pipelines[j], RANKED_KINDS[l]))
    && (forall j :: 0 <= j < i ==> !HasFalse(pipelines[j], RANKED_KINDS[k]))
  }

  ghost predicate IsFirstExpiring(c: Condition, pipelines: seq<Pipeline>, i: nat) {
    && i < |pipelines| && ExpiresSoon(pipelines[i])
    && Find(pipelines[i].conditions, ConfigurationGenerated) == Some(c)
    && forall j :: 0 <= j < i ==> !ExpiresSoon(pipelines[j])
  }

  method FirstUnhealthy(pipelines: seq<Pipeline>) returns (r: Option<Condition>)
    ensures r.Some? ==> exists k, i :: IsFirstUnhealthy(r.value, pipelines, k, i)
    ensures r.Some? <==> AnyFalse(pipelines)
  {
    for k := 0 to |RANKED_KINDS|
      invariant forall l, j :: 0 <= l < k && 0 <= j < |pipelines| ==> !HasFalse(pipelines[j], RANKED_KINDS[l])
    {
      for i := 0 to |pipelines|
        invariant forall j :: 0 <= j < i ==> !HasFalse(pipelines[j], RANKED_KINDS[k])
      {
        var cond := Find(pipelines[i].conditions, RANKED_KINDS[k]);
        if cond.Some? && cond.value.status == ConditionFalse {
          assert IsFirstUnhealthy(cond.value, pipelines, k, i);
          assert pipelines[i] in pipelines && RANKED_KINDS[k] in RANKED_KINDS;
          assert HasFalse(pipelines[i], RANKED_KINDS[k]);
          return cond;
        }
      }
    }
    r := None;
  }

  method FirstExpiring(pipelines: seq<Pipeline>) returns (r: Option<Condition>)
    ensures r.Some? ==> exists i :: IsFirstExpiring(r.value, pipelines, i)
    ensures r.None? <==> forall p :: p in pipelines ==> !ExpiresSoon(p)
  {
    for i := 0 to |pipelines|
      invariant forall j :: 0 <= j < i ==> !ExpiresSoon(pipelines[j])
    {
      var cond := Find(pipelines[i].conditions, ConfigurationGenerated);
      if cond.Some? && cond.value.reason == TLSCertificateAboutToExpire {
        assert IsFirstExpiring(cond.value, pipelines, i);
        assert pipelines[i] in pipelines;
        return cond;
      }
    }
    r := None;
  }

  /** The ranked search has one answer. */
  lemma FirstUnhealthyUnique(c: Condition, d: Condition, pipelines: seq<Pipeline>, k: nat, i: nat, l: nat, j: nat)
    requires IsFirstUnhealthy(c, pipelines, k, i) && IsFirstUnhealthy(d, pipelines, l, j)
    ensures k == l && i == j && c == d
  {
    assert k <= l && l <= k;
    assert i <= j && j <= i;
  }

  /** What a checker reports for a non-empty list outside deletion: status and reason of the first bad one. */
  ghost predicate Reports(c: Condition, pipelines: seq<Pipeline>) {
    if AnyFalse(pipelines) then
      exists u, k, i :: IsFirstUnhealthy(u, pipelines, k, i) && c.status == u.status && c.reason == u.reason
    else if exists p :: p in pipelines && ExpiresSoon(p) then
      exists u, i :: IsFirstExpiring(u, pipelines, i) && c.status == u.status && c.reason == u.reason
    else
      c.status == ConditionTrue && c.reason == ComponentsRunning
  }

  /** The condition of a component, for the pipelines of its signal. */
  ghost predicate Describes(c: Condition, pipelines: seq<Pipeline>, inDeletion: bool) {
    if pipelines == [] then c.status == ConditionTrue && c.reason == NoPipelineDeployed
    else if inDeletion then c.status == ConditionFalse && c.reason == ResourceBlocksDeletion
    else Reports(c, pipelines)
  }

  ghost predicate Told(conditions: seq<Condition>, kind: ConditionType, pipelines: seq<Pipeline>, inDeletion: bool) {
    Find(conditions, kind).Some? && Describes(Find(conditions, kind).value, pipelines, inDeletion)
  }

  /** Check of the log, metric and trace checkers, on the pipelines it listed. */
  method Check(kind: ConditionType, pipelines: seq<Pipeline>, inDeletion: bool) returns (c: Condition)
    ensures c.kind == kind
    ensures Describes(c, pipelines, inDeletion)
    ensures !inDeletion ==> (Bad(c) <==> !NoneTroubled(pipelines))
  {
    if inDeletion && |pipelines| != 0 {
      return Condition(kind, ConditionFalse, ResourceBlocksDeletion);
    }
    if |pipelines| == 0 {
      return Condition(kind, ConditionTrue, NoPipelineDeployed);
    }
    var unhealthy := FirstUnhealthy(pipelines);
    if unhealthy.Some? {
      ghost var p, k :| p in pipelines && k in RANKED_KINDS && HasFalse(p, k);
      assert Troubled(p);
      return Condition(kind, unhealthy.value.status, unhealthy.value.reason);
    }
    var expiring := FirstExpiring(pipelines);
    if expiring.Some? {
      ghost var i: nat :| IsFirstExpiring(expiring.value, pipelines, i);
      assert Troubled(pipelines[i]);
      return Condition(kind, expiring.value.status, expiring.value.reason);
    }
    c := Condition(kind, ConditionTrue, ComponentsRunning);
  }

  // ---------------------------------------------------------------- the Telemetry resource

  predicate IsComponent(kind: ConditionType) {
    kind == LogComponentsHealthy || kind == MetricComponentsHealthy || kind == TraceComponentsHealthy
  }

  /** resourcesExist: a failed List counts as existing only when it says the kind is unknown. */
  predicate ResourcesExist(r: ListResult) {
    match r
    case Listed(items) => |items| > 0
    case ListFailed(noKindMatch) => noKindMatch
  }

  datatype ServiceGet = ServiceExists | ServiceMissing | ServiceGetFailed

  /** What the Gets of the four services of the gateway return. */
  datatype Services = Services(logs: ServiceGet, traces: ServiceGet, metrics: ServiceGet, otlp: ServiceGet)
  {
    predicate Answered() {
      !logs.ServiceGetFailed? && !traces.ServiceGetFailed? && !metrics.ServiceGetFailed? && !otlp.ServiceGetFailed?
    }
  }

  datatype OtlpEndpoints = OtlpEndpoints(grpc: string, http: string)

  datatype GatewayEndpoints = GatewayEndpoints(
    logs: Option<OtlpEndpoints>, traces: Option<OtlpEndpoints>,
    metrics: Option<OtlpEndpoints>, otlp: Option<OtlpEndpoints>)

  const NO_ENDPOINTS := GatewayEndpoints(None, None, None, None)

  /** The endpoints of a service that exists. */
  function EndpointsOf(service: string, namespace: string, got: ServiceGet): Option<OtlpEndpoints> {
    var host := "http://" + (service + "." + namespace);
    if got.ServiceExists? then Some(OtlpEndpoints(host + ":4317", host + ":4318")) else None
  }

  /** Both endpoints of exactly the services that exist, gRPC at 4317 and HTTP at 4318. */
  ghost predicate Serves(e: Option<OtlpEndpoints>, host: string, got: ServiceGet) {
    && (e.Some? <==> got == ServiceExists)
    && (e.Some? ==> e.value.grpc == "http://" + host + ":4317" && e.value.http == "http://" + host + ":4318")
  }

  /** Everything that exists is published, under its own name, and nothing else. */
  ghost predicate Published(e: GatewayEndpoints, namespace: string, services: Services) {
    && Serves(e.logs, "telemetry-otlp-logs" + "." + namespace, services.logs)
    && Serves(e.traces, "telemetry-otlp-traces" + "." + namespace, services.traces)
    && Serves(e.metrics, "telemetry-otlp-metrics" + "." + namespace, services.metrics)
    && Serves(e.otlp, "telemetry-otlp" + "." + namespace, services.otlp)
  }

  datatype TelemetryStatus = TelemetryStatus(conditions: seq<Condition>, state: State, endpoints: GatewayEndpoints)

  /** Pipelines are left, or their kind could not even be looked up. */
  ghost predicate SomethingLeft(r: ListResult) {
    r == ListFailed(true) || exists p :: r.Listed? && p in r.items
  }

  lemma ResourcesExistExactly(r: ListResult)
    ensures ResourcesExist(r) <==> SomethingLeft(r)
  {
    if r.Listed? && |r.items| > 0 {
      assert r.items[0] in r.items;
    }
  }

  /** The Telemetry resource: the copy that a reconcile works on, and the status in the API server. */
  class Telemetry {
    var conditions: seq<Condition>
    var state: State
    var endpoints: GatewayEndpoints
    var stored: TelemetryStatus

    constructor ()
      ensures conditions == [] && endpoints == NO_ENDPOINTS && stored == TelemetryStatus([], state, NO_ENDPOINTS)
    {
      conditions, state, endpoints := [], Ready, NO_ENDPOINTS;
      stored := TelemetryStatus([], Ready, NO_ENDPOINTS);
    }

    method UpdateGatewayEndpoints(namespace: string, services: Services) returns (ok: bool)
      modifies this`endpoints
      ensures ok <==> ServiceGetFailed !in {services.logs, services.traces, services.metrics, services.otlp}
      ensures ok ==> Published(endpoints, namespace, services)
      ensures !ok ==> endpoints == old(endpoints)
    {
      if !services.Answered() {
        return false;
      }
      endpoints := GatewayEndpoints(
        EndpointsOf("telemetry-otlp-logs", namespace, services.logs),
        EndpointsOf("telemetry-otlp-traces", namespace, services.traces),
        EndpointsOf("telemetry-otlp-metrics", namespace, services.metrics),
        EndpointsOf("telemetry-otlp", namespace, services.otlp));
      ok := true;
    }

    method UpdateOverallState(inDeletion: bool, dependentsFound: bool)
      modifies this`state
      ensures inDeletion ==> state == if dependentsFound then Warning else Deleting
      ensures !inDeletion ==> state == if exists c :: c in conditions && Bad(c) then Warning else Ready
    {
      if inDeletion {
        state := if dependentsFound then Warning else Deleting;
        return;
      }
      for i := 0 to |conditions|
        invariant forall j :: 0 <= j < i ==> !Bad(conditions[j])
      {
        if Bad(conditions[i]) {
          assert conditions[i] in conditions;
          state := Warning;
          return;
        }
      }
      state := Ready;
    }

    /** updateComponentCondition: one checker's condition, upserted. */
    method UpdateComponentCondition(kind: ConditionType, listed: ListResult, inDeletion: bool) returns (ok: bool)
      requires KindsDistinct(conditions)
      modifies this`conditions
      ensures ok <==> listed.Listed?
      ensures !ok ==> conditions == old(conditions)
      ensures KindsDistinct(conditions)
      ensures forall c: Condition :: c.kind != kind ==> (c in conditions <==> c in old(conditions))
      ensures ok ==> Told(conditions, kind, listed.items, inDeletion)
      ensures forall k :: k != kind ==> Find(conditions, k) == Find(old(conditions), k)
      ensures ok && !inDeletion ==>
                ((exists c :: c in conditions && c.kind == kind && Bad(c)) <==> !NoneTroubled(listed.items))
    {
      if listed.ListFailed? {
        return false;
      }
      var c := Check(kind, listed.items, inDeletion);
      SetMembers(conditions, c);
      forall k { SetFind(conditions, c, k); }
      conditions := Set(conditions, c);
      assert c in conditions;
      ok := true;
    }

    /** The loop of updateStatus over the three checkers. */
    method UpdateComponentConditions(log: ListResult, metric: ListResult, trace: ListResult, inDeletion: bool)
      returns (ok: bool)
      requires KindsDistinct(conditions)
      modifies this`conditions
      ensures ok <==> log.Listed? && metric.Listed? && trace.Listed?
      ensures KindsDistinct(conditions)
      ensures forall c: Condition :: !IsComponent(c.kind) ==> (c in conditions <==> c in old(conditions))
      ensures ok ==> && Told(conditions, LogComponentsHealthy, log.items, inDeletion)
                     && Told(conditions, MetricComponentsHealthy, metric.items, inDeletion)
                     && Told(conditions, TraceComponentsHealthy, trace.items, inDeletion)
      ensures ok && !inDeletion ==>
                ((exists c :: c in conditions && Bad(c)) <==>
                 !(&& NoneTroubled(log.items) && NoneTroubled(metric.items) && NoneTroubled(trace.items)
                   && forall c :: c in old(conditions) && !IsComponent(c.kind) ==> !Bad(c)))
    {
      ok := UpdateComponentCondition(LogComponentsHealthy, log, inDeletion);
      if !ok {
        return;
      }
      ok := UpdateComponentCondition(MetricComponentsHealthy, metric, inDeletion);
      if !ok {
        return;
      }
      ok := UpdateComponentCondition(TraceComponentsHealthy, trace, inDeletion);
    }

    /**
     updateStatus. What is stored changes only by a run in which nothing fails, and then, outside
     deletion, the module is ready if and only if no pipeline of any signal is troubled and no
     condition of another type is bad. The lists the deletion branch looks at are read again.
     */
    method UpdateStatus(log: ListResult, metric: ListResult, trace: ListResult, inDeletion: bool,
                        logNow: ListResult, metricNow: ListResult, traceNow: ListResult,
                        namespace: string, services: Services, write: bool) returns (ok: bool)
      requires KindsDistinct(conditions)
      modifies this
      ensures ok <==> && log.Listed? && metric.Listed? && trace.Listed? && write
                      && ServiceGetFailed !in {services.logs, services.traces, services.metrics, services.otlp}
      ensures ok ==> && Told(stored.conditions, LogComponentsHealthy, log.items, inDeletion)
                     && Told(stored.conditions, MetricComponentsHealthy, metric.items, inDeletion)
                     && Told(stored.conditions, TraceComponentsHealthy, trace.items, inDeletion)
      ensures !ok ==> stored == old(stored)
      ensures ok ==> && KindsDistinct(stored.conditions) && Published(stored.endpoints, namespace, services)
                     && forall c: Condition :: !IsComponent(c.kind) ==>
                          (c in stored.conditions <==> c in old(conditions))
      ensures ok && inDeletion ==>
                stored.state == if SomethingLeft(logNow) || SomethingLeft(metricNow) || SomethingLeft(traceNow)
                                then Warning else Deleting
      ensures ok && !inDeletion ==>
                stored.state == if NoneTroubled(log.items) && NoneTroubled(metric.items) && NoneTroubled(trace.items)
                                   && forall c :: c in old(conditions) && !IsComponent(c.kind) ==> !Bad(c)
                                then Ready else Warning
    {
      ok := UpdateComponentConditions(log, metric, trace, inDeletion);
      if !ok {
        return;
      }
      ResourcesExistExactly(logNow);
      ResourcesExistExactly(metricNow);
      ResourcesExistExactly(traceNow);
      UpdateOverallState(inDeletion, ResourcesExist(logNow) || ResourcesExist(metricNow) || ResourcesExist(traceNow));
      ok := UpdateGatewayEndpoints(namespace, services);
      if !ok {
        return;
      }
      if write {
        stored := TelemetryStatus(conditions, state, endpoints);
      }
      ok := write;
    }
  }

  // ---------------------------------------------------------------- order

  /** What decides readiness does not depend on the order in which pipelines are listed. */
  lemma TroubleOrderFree(ps: seq<Pipeline>, qs: seq<Pipeline>)
    requires multiset(ps) == multiset(qs)
    ensures NoneTroubled(ps) <==> NoneTroubled(qs)
  {
    forall p ensures p in ps <==> p in qs {
      assert p in multiset(ps) <==> p in multiset(qs);
    }
  }
}
