/**
 What one undisturbed reconcile of a trace or metric pipeline decides, and what it reports:
 doReconcile, isReconcilable, validate and updateStatus of internal/reconciler/tracepipeline
 and internal/reconciler/metricpipeline. Every read returns the stored version, and the
 validators give the same answer in the decision and in the report.
 */
module ReconcileStatus {
  import opened Common
  import opened ApiStore
  import opened CoordinationConfig
  import opened Validation
  import Lock = ResourceLock
  import C = Conditions
  import State = TelemetryState

  /** evaluateConfigGeneratedCondition, ending in EvaluateTLSCertCondition. */
  function ConfigGenerated(t: SignalType, err: Validation): C.Condition {
    var verdict := match err
      case None => (C.ConditionTrue, C.GatewayConfigured)
      case Some(MaxPipelinesExceeded) => (C.ConditionFalse, C.MaxPipelinesExceeded)
      case Some(SecretMissing) => (C.ConditionFalse, C.ReferencedSecretMissing)
      case Some(EndpointInvalid) => (C.ConditionFalse, C.EndpointInvalid)
      case Some(OTTLInvalid) => (C.ConditionFalse, C.OTTLSpecInvalid)
      case Some(AdditionalMetricInvalid) =>
        (C.ConditionFalse, if t == Metric then C.RuntimeAdditionalMetricInvalid else C.TLSConfigurationInvalid)
      case Some(APIRequestFailed) => (C.ConditionFalse, C.ValidationFailed)
      case Some(CertExpired) => (C.ConditionFalse, C.TLSCertificateExpired)
      case Some(CertAboutToExpire) => (C.ConditionTrue, C.TLSCertificateAboutToExpire)
      case Some(OtherError) => (C.ConditionFalse, C.TLSConfigurationInvalid);
    C.Condition(C.ConfigurationGenerated, verdict.0, verdict.1)
  }

  datatype Probe = WorkloadReady | RollingOut | ProbeFailed

  function WorkloadHealthy(kind: C.ConditionType, probe: Probe, ready: C.Reason, notReady: C.Reason): C.Condition {
    match probe
    case WorkloadReady => C.Condition(kind, C.ConditionTrue, ready)
    case RollingOut => C.Condition(kind, C.ConditionTrue, C.RolloutInProgress)
    case ProbeFailed => C.Condition(kind, C.ConditionFalse, notReady)
  }

  function GatewayHealthy(config: C.Status, probe: Probe): C.Condition {
    if config == C.ConditionFalse
    then C.Condition(C.GatewayHealthy, C.ConditionFalse, C.GatewayConfigurationNotGenerated)
    else WorkloadHealthy(C.GatewayHealthy, probe, C.GatewayReady, C.GatewayNotReady)
  }

  function AgentHealthy(required: bool, probe: Probe): C.Condition {
    if !required
    then C.Condition(C.AgentHealthy, C.ConditionTrue, C.MetricAgentNotRequired)
    else WorkloadHealthy(C.AgentHealthy, probe, C.AgentReady, C.AgentNotReady)
  }

  datatype GatewayFlow = GatewayFlow(healthy: bool, allDropped: bool, someDropped: bool, throttling: bool)
  datatype AgentFlow = AgentFlow(allDropped: bool, someDropped: bool)

  /** What the probers answer during one status update; `None` is a failed flow probe. */
  datatype Probes = Probes(gateway: Probe, agentRequired: bool, agent: Probe,
                           gatewayFlow: Option<GatewayFlow>, agentFlow: Option<AgentFlow>)

  function GatewayFlowReason(g: GatewayFlow): C.Reason {
    if g.allDropped then C.SelfMonGatewayAllDataDropped
    else if g.someDropped then C.SelfMonGatewaySomeDataDropped
    else if g.throttling then C.SelfMonGatewayThrottling
    else C.SelfMonFlowHealthy
  }

  function MetricFlowReason(g: GatewayFlow, a: AgentFlow): C.Reason {
    if GatewayFlowReason(g) != C.SelfMonFlowHealthy then GatewayFlowReason(g)
    else if a.allDropped then C.SelfMonAgentAllDataDropped
    else if a.someDropped then C.SelfMonAgentSomeDataDropped
    else C.SelfMonFlowHealthy
  }

  /** A trace pipeline's flow is judged by the probe's own verdict, a metric pipeline's by the reason. */
  function FlowHealthy(t: SignalType, config: C.Status, p: Probes): C.Condition {
    var verdict :=
      if config == C.ConditionFalse then (C.ConditionFalse, C.SelfMonConfigNotGenerated)
      else if p.gatewayFlow.None? then (C.ConditionUnknown, C.SelfMonGatewayProbingFailed)
      else if t != Metric then
        (if p.gatewayFlow.value.healthy then C.ConditionTrue else C.ConditionFalse,
         GatewayFlowReason(p.gatewayFlow.value))
      else if p.agentFlow.None? then (C.ConditionUnknown, C.SelfMonAgentProbingFailed)
      else
        var reason := MetricFlowReason(p.gatewayFlow.value, p.agentFlow.value);
        (if reason == C.SelfMonFlowHealthy then C.ConditionTrue else C.ConditionFalse, reason);
    C.Condition(C.FlowHealthy, verdict.0, verdict.1)
  }

  /** The conditions a status update leaves, set in the order of the code. */
  function StatusAfter(conditions: seq<C.Condition>, t: SignalType, err: Validation, p: Probes): seq<C.Condition> {
    var config := ConfigGenerated(t, err);
    var agent := if t == Metric then C.Set(conditions, AgentHealthy(p.agentRequired, p.agent)) else conditions;
    var gateway := C.Set(agent, GatewayHealthy(config.status, p.gateway));
    C.Set(C.Set(gateway, config), FlowHealthy(t, config.status, p))
  }

  lemma StatusAfterFind(conditions: seq<C.Condition>, t: SignalType, err: Validation, p: Probes)
    ensures var after := StatusAfter(conditions, t, err, p);
            var config := ConfigGenerated(t, err);
            && C.Find(after, C.ConfigurationGenerated) == Some(config)
            && C.Find(after, C.GatewayHealthy) == Some(GatewayHealthy(config.status, p.gateway))
            && C.Find(after, C.FlowHealthy) == Some(FlowHealthy(t, config.status, p))
            && C.Find(after, C.AgentHealthy) ==
               if t == Metric then Some(AgentHealthy(p.agentRequired, p.agent)) else C.Find(conditions, C.AgentHealthy)
  {
    var config := ConfigGenerated(t, err);
    var agent := if t == Metric then C.Set(conditions, AgentHealthy(p.agentRequired, p.agent)) else conditions;
    var gateway := C.Set(agent, GatewayHealthy(config.status, p.gateway));
    var generated := C.Set(gateway, config);
    var flow := FlowHealthy(t, config.status, p);
    forall kind
      ensures C.Find(C.Set(generated, flow), kind) ==
              if kind == C.FlowHealthy then Some(flow)
              else if kind == C.ConfigurationGenerated then Some(config)
              else if kind == C.GatewayHealthy then Some(GatewayHealthy(config.status, p.gateway))
              else C.Find(agent, kind)
    {
      C.SetFind(generated, flow, kind);
      C.SetFind(gateway, config, kind);
      C.SetFind(agent, GatewayHealthy(config.status, p.gateway), kind);
    }
    C.SetFind(conditions, AgentHealthy(p.agentRequired, p.agent), C.AgentHealthy);
  }

  predicate Reports(conditions: seq<C.Condition>, kind: C.ConditionType, status: C.Status) {
    C.Find(conditions, kind).Some? && C.Find(conditions, kind).value.status == status
  }

  /** True is reported for no error and for an about-to-expire certificate; otherwise three conditions are False. */
  lemma ReportMeans(conditions: seq<C.Condition>, t: SignalType, err: Validation, p: Probes)
    ensures var after := StatusAfter(conditions, t, err, p);
            if err.None? || err == Some(CertAboutToExpire)
            then Reports(after, C.ConfigurationGenerated, C.ConditionTrue)
            else && Reports(after, C.ConfigurationGenerated, C.ConditionFalse)
                 && Reports(after, C.GatewayHealthy, C.ConditionFalse)
                 && Reports(after, C.FlowHealthy, C.ConditionFalse)
  {
    StatusAfterFind(conditions, t, err, p);
  }

  function ReasonOf(conditions: seq<C.Condition>, kind: C.ConditionType): Option<C.Reason> {
    var c := C.Find(conditions, kind);
    if c.None? then None else Some(c.value.reason)
  }

  /** Which objection each reason of ConfigurationGenerated stands for. */
  lemma ConfigReasonTells(conditions: seq<C.Condition>, t: SignalType, err: Validation, p: Probes)
    requires t == Trace || t == Metric
    ensures var reason := ReasonOf(StatusAfter(conditions, t, err, p), C.ConfigurationGenerated);
            && (reason == Some(C.GatewayConfigured) <==> err == None)
            && (reason == Some(C.MaxPipelinesExceeded) <==> err == Some(MaxPipelinesExceeded))
            && (reason == Some(C.ReferencedSecretMissing) <==> err == Some(SecretMissing))
            && (reason == Some(C.EndpointInvalid) <==> err == Some(EndpointInvalid))
            && (reason == Some(C.OTTLSpecInvalid) <==> err == Some(OTTLInvalid))
            && (reason == Some(C.ValidationFailed) <==> err == Some(APIRequestFailed))
            && (reason == Some(C.TLSCertificateExpired) <==> err == Some(CertExpired))
            && (reason == Some(C.TLSCertificateAboutToExpire) <==> err == Some(CertAboutToExpire))
            && (reason == Some(C.RuntimeAdditionalMetricInvalid) <==>
                t == Metric && err == Some(AdditionalMetricInvalid))
            && (reason == Some(C.TLSConfigurationInvalid) <==>
                err == Some(OtherError) || (t == Trace && err == Some(AdditionalMetricInvalid)))
  {
    StatusAfterFind(conditions, t, err, p);
  }

  /** What the workload conditions say of the probes, when the config is generated. */
  lemma WorkloadReasonsTell(conditions: seq<C.Condition>, t: SignalType, err: Validation, p: Probes)
    requires err.None? || err == Some(CertAboutToExpire)
    ensures var after := StatusAfter(conditions, t, err, p);
            && (p.gateway == WorkloadReady <==> ReasonOf(after, C.GatewayHealthy) == Some(C.GatewayReady))
            && (p.gateway == RollingOut <==> ReasonOf(after, C.GatewayHealthy) == Some(C.RolloutInProgress))
            && (p.gateway == ProbeFailed <==> ReasonOf(after, C.GatewayHealthy) == Some(C.GatewayNotReady))
            && (Reports(after, C.GatewayHealthy, C.ConditionTrue) <==> p.gateway != ProbeFailed)
    ensures t == Metric ==>
              var after := StatusAfter(conditions, t, err, p);
              && (ReasonOf(after, C.AgentHealthy) == Some(C.MetricAgentNotRequired) <==> !p.agentRequired)
              && (ReasonOf(after, C.AgentHealthy) == Some(C.AgentReady) <==>
                  p.agentRequired && p.agent == WorkloadReady)
              && (ReasonOf(after, C.AgentHealthy) == Some(C.RolloutInProgress) <==>
                  p.agentRequired && p.agent == RollingOut)
              && (ReasonOf(after, C.AgentHealthy) == Some(C.AgentNotReady) <==>
                  p.agentRequired && p.agent == ProbeFailed)
              && (Reports(after, C.AgentHealthy, C.ConditionTrue) <==> !p.agentRequired || p.agent != ProbeFailed)
  {
    StatusAfterFind(conditions, t, err, p);
  }

  /** The reason of FlowHealthy is the worst that the probes found, the gateway's before the agent's. */
  lemma FlowReasonIsWorst(conditions: seq<C.Condition>, t: SignalType, err: Validation, g: GatewayFlow, a: AgentFlow,
                          p: Probes)
    requires (err.None? || err == Some(CertAboutToExpire)) && p.gatewayFlow == Some(g) && p.agentFlow == Some(a)
    ensures var reason := ReasonOf(StatusAfter(conditions, t, err, p), C.FlowHealthy);
            && (reason == Some(C.SelfMonGatewayAllDataDropped) <==> g.allDropped)
            && (reason == Some(C.SelfMonGatewaySomeDataDropped) <==> g.someDropped && !g.allDropped)
            && (reason == Some(C.SelfMonGatewayThrottling) <==> g.throttling && !g.someDropped && !g.allDropped)
            && (reason == Some(C.SelfMonAgentAllDataDropped) <==>
               t == Metric && a.allDropped && !g.allDropped && !g.someDropped && !g.throttling)
            && (reason == Some(C.SelfMonAgentSomeDataDropped) <==>
               t == Metric && a.someDropped && !a.allDropped && !g.allDropped && !g.someDropped && !g.throttling)
    ensures var after := StatusAfter(conditions, t, err, p);
            Reports(after, C.FlowHealthy, C.ConditionTrue) <==>
            if t == Metric
            then !g.allDropped && !g.someDropped && !g.throttling && !a.allDropped && !a.someDropped
            else g.healthy
  {
    StatusAfterFind(conditions, t, err, p);
  }

  /** Without an answer the flow is unknown, and without a config it is not healthy, each with its reason. */
  lemma FlowUnknownTells(conditions: seq<C.Condition>, t: SignalType, err: Validation, p: Probes)
    ensures var after := StatusAfter(conditions, t, err, p);
            var generated := err.None? || err == Some(CertAboutToExpire);
            && (Reports(after, C.FlowHealthy, C.ConditionUnknown) <==> FlowUnanswered(t, err, p))
            && (ReasonOf(after, C.FlowHealthy) == Some(C.SelfMonConfigNotGenerated) <==> !generated)
            && (ReasonOf(after, C.FlowHealthy) == Some(C.SelfMonGatewayProbingFailed) <==>
                generated && p.gatewayFlow.None?)
            && (ReasonOf(after, C.FlowHealthy) == Some(C.SelfMonAgentProbingFailed) <==>
               generated && t == Metric && p.gatewayFlow.Some? && p.agentFlow.None?)
            && (ReasonOf(after, C.GatewayHealthy) == Some(C.GatewayConfigurationNotGenerated) <==> !generated)
  {
    StatusAfterFind(conditions, t, err, p);
  }

  // ---------------------------------------------------------------- the code

  datatype StatusGet = Found | Missing | GetFailed

  /** How the two API calls of updateStatus end: the Get, and the status write. */
  datatype StatusCalls = StatusCalls(get: StatusGet, write: bool)
  {
    predicate Written() {
      get.Found? && write
    }
  }

  /** A pipeline resource in the API server; its status conditions are what updateStatus changes. */
  class PipelineResource {
    const name: string
    const uid: nat
    const generation: int
    const deleting: bool
    var conditions: seq<C.Condition>

    constructor (name: string, uid: nat, generation: int, deleting: bool)
      ensures this.name == name && this.uid == uid && this.generation == generation && this.deleting == deleting
      ensures conditions == []
    {
      this.name, this.uid, this.generation, this.deleting := name, uid, generation, deleting;
      conditions := [];
    }

    function Owner(): Lock.Owner {
      Lock.Owner(name, uid)
    }

    /**
     updateStatus: nothing for a pipeline that is gone or being deleted, else one
     SetStatusCondition after another on the copy that was read, and then one status write.
     */
    method UpdateStatus(t: SignalType, err: Validation, p: Probes, calls: StatusCalls) returns (ok: bool)
      modifies this
      ensures conditions ==
              if !deleting && calls.get == Found && calls.write then StatusAfter(old(conditions), t, err, p)
              else old(conditions)
      ensures ok <==> match calls.get
                      case Missing => true
                      case GetFailed => false
                      case Found => deleting || (calls.write && !FlowUnanswered(t, err, p))
    {
      if !calls.get.Found? {
        return calls.get.Missing?;
      }
      if deleting {
        return true;
      }
      var updated := conditions;
      if t == Metric {
        updated := C.Set(updated, AgentHealthy(p.agentRequired, p.agent));
      }
      var config := ConfigGenerated(t, err);
      updated := C.Set(updated, GatewayHealthy(config.status, p.gateway));
      updated := C.Set(updated, config);
      var flow := FlowHealthy(t, config.status, p);
      updated := C.Set(updated, flow);
      if calls.write {
        conditions := updated;
      }
      ok := calls.write && flow.status != C.ConditionUnknown;
    }
  }

  /** The flow is probed, because the config is generated, and a probe fails to answer. */
  predicate FlowUnanswered(t: SignalType, err: Validation, p: Probes) {
    && (err.None? || err == Some(CertAboutToExpire))
    && (p.gatewayFlow.None? || (t == Metric && p.agentFlow.None?))
  }

  /** The stored entry of (t, name); an unreadable document has none. */
  function StoredReference(h: History<Data>, t: SignalType, name: string): Option<Reference>
    requires HasSlice(t)
  {
    var config := Parsed(Stored(h));
    if config.None? then None else Lookup(config.value, t, name)
  }

  /** What the metric agent is deployed for, unless a write of its objects broke off. */
  datatype Agents = Serving(pipelines: seq<Peer>) | Unsettled

  /** How the API calls of the agent step end: well, or badly ahead of its first write or after it. */
  datatype AgentWrites = WritesSucceed | FailsBefore | BreaksOff

  /** What the calls of doReconcile return that neither read the lock nor write the config. */
  datatype Calls = Calls(listed: bool, secretVersions: Option<map<string, string>>,
                         peers: seq<Peer>, agentWrites: AgentWrites)

  class Reconciler {
    const lock: Lock.Checker
    const config: CoordinationConfigMap
    const signal: SignalType
    var agents: Agents

    constructor (lock: Lock.Checker, config: CoordinationConfigMap, signal: SignalType)
      ensures this.lock == lock && this.config == config && this.signal == signal && agents == Serving([])
    {
      this.lock, this.config, this.signal, agents := lock, config, signal, Serving([]);
    }

    ghost predicate Holds(p: PipelineResource)
      reads lock.lock
    {
      Lock.Holds(Stored(lock.lock.history), p.Owner())
    }

    function Owners(): seq<Lock.Owner>
      reads lock.lock
    {
      if Stored(lock.lock.history).Some? then Stored(lock.lock.history).value else []
    }

    /** validate, with the lock read at its stored version. */
    method Validated(p: PipelineResource, c: Checks) returns (err: Validation)
      requires Stored(lock.lock.history).Some?
      ensures err == Validate(signal, c, if Holds(p) then Lock.Acquired else Lock.MaxPipelinesExceeded)
    {
      var holder := lock.IsLockHolder(p.Owner(), |lock.lock.history| - 1);
      err := Validate(signal, c, holder);
    }

    /** What an admitted pipeline's reconcile needs to get its decision into the config. */
    predicate CanWrite(p: PipelineResource, c: Checks, calls: Calls)
      reads config
    {
      var decision := IsReconcilable(p.deleting, Validate(signal, c, Lock.Acquired));
      && calls.listed && decision != Requeue && (decision == Reconcilable ==> calls.secretVersions.Some?)
      && Parsed(Stored(config.history)).Some?
    }

    /** The reference that the decision leaves in the config. */
    function Recorded(p: PipelineResource, c: Checks, calls: Calls): Option<Reference> {
      if IsReconcilable(p.deleting, Validate(signal, c, Lock.Acquired)) == Reconcilable && calls.secretVersions.Some?
      then Some(Reference(p.name, p.generation, calls.secretVersions.value))
      else None
    }

    /** The last step, of metric pipelines only, does not fail. */
    predicate AgentStepSucceeds(calls: Calls)
      reads lock.lock
    {
      signal == Metric ==> !AnyRequeues(calls.peers, Owners()) && calls.agentWrites == WritesSucceed
    }

    /** Validates an admitted pipeline and writes the outcome to the coordination config. */
    method RecordDecision(p: PipelineResource, c: Checks, calls: Calls) returns (ok: bool)
      requires (signal == Trace || signal == Metric) && Holds(p)
      modifies config
      ensures ok <==> old(CanWrite(p, c, calls))
      ensures ok <==> config.history != old(config.history)
      ensures ok ==> StoredReference(config.history, signal, p.name) == Recorded(p, c, calls)
      ensures forall t, name :: HasSlice(t) && !(t == signal && name == p.name) ==>
                StoredReference(config.history, t, name) == old(StoredReference(config.history, t, name))
    {
      if !calls.listed {
        return false;
      }
      var err := Validated(p, c);
      var decision := IsReconcilable(p.deleting, err);
      if decision == Requeue {
        return false;
      }
      if decision == Reconcilable {
        if calls.secretVersions.None? {
          return false;
        }
        ok := Write(Add(signal, Reference(p.name, p.generation, calls.secretVersions.value)));
      } else {
        ok := Write(Remove(signal, p.name));
      }
    }

    /** The agent step of doReconcile for metric pipelines. */
    method ReconcileAgents(calls: Calls) returns (ok: bool)
      requires Stored(lock.lock.history).Some? && signal == Metric
      modifies this`agents
      ensures ok <==> AgentStepSucceeds(calls)
      ensures ok ==> agents == Serving(AgentOnes(ReconcilableOnes(calls.peers, Owners())))
      ensures AnyRequeues(calls.peers, Owners()) || calls.agentWrites == FailsBefore ==> agents == old(agents)
    {
      var reconcilable := GetReconcilablePipelines(calls.peers, Owners());
      if reconcilable.None? {
        return false;
      }
      var served := GetPipelinesRequiringAgents(reconcilable.value);
      match calls.agentWrites {
        case WritesSucceed => agents := Serving(served);
        case FailsBefore =>
        case BreaksOff => agents := Unsettled;
      }
      ok := calls.agentWrites == WritesSucceed;
    }

    /**
     doReconcile. The config is changed exactly for an admitted pipeline whose decision can be
     written, and then holds that decision; so a failed reconcile has changed it exactly when
     only the agent step failed. A refused pipeline changes nothing and is no error.
     */
    method DoReconcile(p: PipelineResource, c: Checks, calls: Calls) returns (ok: bool)
      requires signal == Trace || signal == Metric
      modifies lock.lock, config, this`agents
      ensures Stored(lock.lock.history).Some?
      ensures lock.lock.history ==
              Lock.TryAcquire(old(lock.lock.history), |old(lock.lock.history)| - 1, p.Owner(), lock.maxOwners).0
      ensures ok <==> !Holds(p) || (old(CanWrite(p, c, calls)) && AgentStepSucceeds(calls))
      ensures config.history != old(config.history) <==> Holds(p) && old(CanWrite(p, c, calls))
      ensures Holds(p) && old(CanWrite(p, c, calls)) ==>
                StoredReference(config.history, signal, p.name) == Recorded(p, c, calls)
      ensures forall t, name :: HasSlice(t) && !(t == signal && name == p.name) ==>
                StoredReference(config.history, t, name) == old(StoredReference(config.history, t, name))
      ensures ok && Holds(p) && signal == Metric ==>
                agents == Serving(AgentOnes(ReconcilableOnes(calls.peers, Owners())))
      ensures signal != Metric || !Holds(p) ==> agents == old(agents)
    {
      var acquired := lock.TryAcquireLock(p.Owner(), |lock.lock.history| - 1);
      if acquired == Lock.MaxPipelinesExceeded {
        return true;
      }
      assert Holds(p);
      ok := RecordDecision(p, c, calls);
      if ok && signal == Metric {
        ok := ReconcileAgents(calls);
      }
    }

    /** One undisturbed update of the coordination config, read entry by entry. */
    method Write(u: Update) returns (ok: bool)
      requires HasSlice(u.signal)
      modifies config
      ensures ok <==> config.history != old(config.history)
      ensures ok <==> old(Parsed(Stored(config.history))).Some?
      ensures forall t, name :: ok && HasSlice(t) ==>
                StoredReference(config.history, t, name) ==
                if !u.Touches(t, name) then old(StoredReference(config.history, t, name))
                else if u.Add? then Some(u.ref) else None
    {
      ghost var before := Parsed(Stored(config.history));
      ok := config.ApplyConfigUpdate(u, |config.history| - 1);
      if ok {
        forall t, name | HasSlice(t)
          ensures Lookup(Apply(before.value, u), t, name) ==
                  if !u.Touches(t, name) then Lookup(before.value, t, name)
                  else if u.Add? then Some(u.ref) else None
        {
          ApplyLookup(before.value, u, t, name);
        }
      }
    }

    /**
     Reconcile from doReconcile on: decide, then report. Whenever the decision of an admitted
     pipeline was recorded and the report written, the two agree, even if the agent step failed.
     True is reported for an owner exactly if all its checks pass or an about-to-expire
     certificate objects first, for any other pipeline exactly if one does ahead of the lock.
     */
    method Reconcile(p: PipelineResource, c: Checks, calls: Calls, probes: Probes, status: StatusCalls)
      returns (reconciled: bool, reported: bool)
      requires signal == Trace || signal == Metric
      modifies lock.lock, config, this`agents, p
      ensures reconciled <==> !Holds(p) || (old(CanWrite(p, c, calls)) && AgentStepSucceeds(calls))
      ensures config.history != old(config.history) <==> Holds(p) && old(CanWrite(p, c, calls))
      ensures p.deleting || !status.Written() ==> p.conditions == old(p.conditions)
      ensures p.deleting && Holds(p) && old(CanWrite(p, c, calls)) ==>
                StoredReference(config.history, signal, p.name).None?
      ensures !p.deleting && status.Written() && Holds(p) && old(CanWrite(p, c, calls)) ==>
                (StoredReference(config.history, signal, p.name).Some? <==>
                 Reports(p.conditions, C.ConfigurationGenerated, C.ConditionTrue))
      ensures !p.deleting && status.Written() ==>
                (Reports(p.conditions, C.ConfigurationGenerated, C.ConditionTrue) <==>
                 if Holds(p) then AllPass(signal, c) || ExpiringFirst(signal, c)
                 else ExpiringAhead(c))
      ensures !p.deleting && status.Written() && !Reports(p.conditions, C.ConfigurationGenerated, C.ConditionTrue) ==>
                && Reports(p.conditions, C.ConfigurationGenerated, C.ConditionFalse)
                && Reports(p.conditions, C.GatewayHealthy, C.ConditionFalse)
                && Reports(p.conditions, C.FlowHealthy, C.ConditionFalse)
    {
      reconciled := DoReconcile(p, c, calls);
      var err := Validated(p, c);
      ReportMeans(p.conditions, signal, err, probes);
      reported := p.UpdateStatus(signal, err, probes, status);
    }
  }

  // ---------------------------------------------------------------- what the report means

  /** The flow probes answered, and say that data is lost or held back. */
  predicate FlowFails(t: SignalType, p: Probes) {
    && p.gatewayFlow.Some?
    && if t == Metric
       then p.agentFlow.Some? && MetricFlowReason(p.gatewayFlow.value, p.agentFlow.value) != C.SelfMonFlowHealthy
       else !p.gatewayFlow.value.healthy
  }

  /** The agent condition counts against the pipeline; a trace pipeline keeps whatever it had. */
  predicate AgentFails(conditions: seq<C.Condition>, t: SignalType, p: Probes) {
    if t == Metric then p.agentRequired && p.agent == ProbeFailed
    else Reports(conditions, C.AgentHealthy, C.ConditionFalse)
  }

  /**
   From validators and probes to the module state: a reported pipeline keeps the module from
   being ready if and only if a validator objects in any way, or a workload or flow probe
   answers badly. A flow probe that fails to answer does not.
   */
  lemma TroubledExactly(name: string, conditions: seq<C.Condition>, t: SignalType, err: Validation, p: Probes)
    ensures State.Troubled(State.Pipeline(name, StatusAfter(conditions, t, err, p))) <==>
            err.Some? || p.gateway == ProbeFailed || FlowFails(t, p) || AgentFails(conditions, t, p)
  {
    StatusAfterFind(conditions, t, err, p);
    var after := State.Pipeline(name, StatusAfter(conditions, t, err, p));
    assert State.RANKED_KINDS ==
           [C.ConfigurationGenerated, C.GatewayHealthy, C.AgentHealthy, C.FlowHealthy];
    assert State.HasFalse(after, C.ConfigurationGenerated) || State.ExpiresSoon(after) <==> err.Some?;
    assert C.ConfigurationGenerated in State.RANKED_KINDS && C.GatewayHealthy in State.RANKED_KINDS;
    assert C.AgentHealthy in State.RANKED_KINDS && C.FlowHealthy in State.RANKED_KINDS;
    assert State.HasFalse(after, C.AgentHealthy) <==> AgentFails(conditions, t, p);
    if err.None? {
      assert State.HasFalse(after, C.GatewayHealthy) <==> p.gateway == ProbeFailed;
      assert State.HasFalse(after, C.FlowHealthy) <==> FlowFails(t, p);
    }
  }
}
