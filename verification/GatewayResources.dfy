/**
 What the OTLP gateway reconciler writes: doReconcile of internal/reconciler/otlpgateway, with
 ApplyResources and DeleteResources of internal/resources/otelcollector. Every object is a
 write of its own and may fail; applying stops at the first failure, deleting goes on.
 */
module GatewayResources {
  import opened Common
  import opened CoordinationConfig
  import opened Gateway

  datatype Rendering = Rendering(trace: seq<Pipeline>, log: seq<Pipeline>, metric: seq<Pipeline>)

  const NOTHING := Rendering([], [], [])

  /** The objects of the gateway, and the List call ahead of the deletion of its network policies. */
  datatype Part =
    | ServiceAccount
    | ClusterRole
    | ClusterRoleBinding
    | Role
    | RoleBinding
    | MetricsService
    | OldNetworkPolicy
    | EnvSecret
    | CollectorConfigMap
    | NetworkPolicyList
    | MetricsNetworkPolicy
    | GatewayNetworkPolicy
    | DaemonSet
    | VerticalPodAutoscaler
    | Service(name: string)
    | DestinationRule(name: string)
    | PeerAuthentication

  const SERVICES := ["telemetry-otlp", "telemetry-otlp-logs", "telemetry-otlp-traces", "telemetry-otlp-metrics"]
  const ISTIO_SERVICES := ["telemetry-otlp-logs", "telemetry-otlp-traces", "telemetry-otlp-metrics", "telemetry-otlp"]

  /** What each object in the cluster was last written for. */
  type Deployed = map<Part, Rendering>

  function At(d: Deployed, part: Part): Option<Rendering> {
    if part in d then Some(d[part]) else None
  }

  /** One write of ApplyResources. */
  datatype Write = Put(part: Part) | Drop(part: Part)

  function Effect(w: Write, r: Rendering): Option<Rendering> {
    if w.Put? then Some(r) else None
  }

  function Written(d: Deployed, w: Write, r: Rendering): Deployed {
    if w.Put? then d[w.part := r] else d - {w.part}
  }

  function Puts(parts: seq<Part>): seq<Write> {
    seq(|parts|, i requires 0 <= i < |parts| => Put(parts[i]))
  }

  function ServiceParts(): seq<Part> {
    seq(|SERVICES|, i requires 0 <= i < |SERVICES| => Service(SERVICES[i]))
  }

  function IstioParts(istio: bool): seq<Part> {
    if istio
    then seq(|ISTIO_SERVICES|, i requires 0 <= i < |ISTIO_SERVICES| => DestinationRule(ISTIO_SERVICES[i]))
         + [PeerAuthentication]
    else []
  }

  function VpaWrites(vpaCrd: bool, vpaEnabled: bool): seq<Write> {
    if !vpaCrd then [] else if vpaEnabled then [Put(VerticalPodAutoscaler)] else [Drop(VerticalPodAutoscaler)]
  }

  const COMMON: seq<Part> := [ServiceAccount, ClusterRole, ClusterRoleBinding, Role, RoleBinding, MetricsService]
  const WORKLOAD: seq<Part> := [EnvSecret, CollectorConfigMap, MetricsNetworkPolicy, GatewayNetworkPolicy, DaemonSet]

  /** The writes of ApplyResources, in order. */
  function ApplyWrites(istio: bool, vpaCrd: bool, vpaEnabled: bool): seq<Write> {
    Puts(COMMON) + [Drop(OldNetworkPolicy)] + Puts(WORKLOAD)
    + VpaWrites(vpaCrd, vpaEnabled) + Puts(ServiceParts()) + Puts(IstioParts(istio))
  }

  function Singly(parts: seq<Part>): seq<seq<Part>> {
    seq(|parts|, i requires 0 <= i < |parts| => [parts[i]])
  }

  function PolicyGroup(gatewayPolicyFirst: bool): seq<Part> {
    if gatewayPolicyFirst
    then [NetworkPolicyList, GatewayNetworkPolicy, MetricsNetworkPolicy]
    else [NetworkPolicyList, MetricsNetworkPolicy, GatewayNetworkPolicy]
  }

  const DELETED_FIRST: seq<Part> := [ClusterRoleBinding, ClusterRole, RoleBinding, Role, ServiceAccount,
                                     MetricsService, EnvSecret, CollectorConfigMap]

  /**
   The deletions of DeleteResources, in order. The network policies are listed and deleted in
   one call that ends at its first failure; every other object is a call of its own.
   */
  function DeleteGroups(istio: bool, vpaCrd: bool, gatewayPolicyFirst: bool): seq<seq<Part>> {
    Singly(DELETED_FIRST) + [PolicyGroup(gatewayPolicyFirst)] + Singly([DaemonSet])
    + Singly(if vpaCrd then [VerticalPodAutoscaler] else []) + Singly(ServiceParts()) + Singly(IstioParts(istio))
  }

  function PartsOf(writes: seq<Write>): seq<Part> {
    seq(|writes|, i requires 0 <= i < |writes| => writes[i].part)
  }

  /** How many of the calls are made before one fails. */
  function Reach(parts: seq<Part>, failing: set<Part>): (n: nat)
    ensures n <= |parts| && (n < |parts| ==> parts[n] in failing)
    ensures forall i :: 0 <= i < n ==> parts[i] !in failing
  {
    if parts == [] || parts[0] in failing then 0 else 1 + Reach(parts[1..], failing)
  }

  /** No two writes do different things to one part. */
  predicate Agree(writes: seq<Write>) {
    forall i, j :: 0 <= i < |writes| && 0 <= j < |writes| && writes[i].part == writes[j].part ==> writes[i] == writes[j]
  }

  /** Exactly the first `n` writes took effect. */
  ghost predicate Applied(before: Deployed, after: Deployed, writes: seq<Write>, n: nat, r: Rendering)
    requires n <= |writes|
  {
    && (forall i :: 0 <= i < n ==> At(after, writes[i].part) == Effect(writes[i], r))
    && forall part :: (forall i :: 0 <= i < n ==> writes[i].part != part) ==> At(after, part) == At(before, part)
  }

  predicate Gone(groups: seq<seq<Part>>, failing: set<Part>, part: Part) {
    exists g :: g in groups && part in g[..Reach(g, failing)]
  }

  /** Exactly the deletions ahead of the first failure of their call took effect. */
  ghost predicate Deleted(before: Deployed, after: Deployed, groups: seq<seq<Part>>, failing: set<Part>) {
    forall part :: At(after, part) == if Gone(groups, failing, part) then None else At(before, part)
  }

  /**
   What the calls of one reconciliation that do not read pipelines return: the legacy cleanup,
   the Istio and VPA status (None is an error), the config build, the order in which network
   policies are listed, and the writes that fail.
   */
  datatype Environment = Environment(cleanup: bool, istioActive: Option<bool>, vpaCrd: Option<bool>, vpaEnabled: bool,
                                     build: bool, gatewayPolicyFirst: bool, failing: set<Part>)
  {
    predicate Known() {
      istioActive.Some? && vpaCrd.Some?
    }

    function Writes(): seq<Write>
      requires Known()
    {
      ApplyWrites(istioActive.value, vpaCrd.value, vpaEnabled)
    }

    function Groups(): seq<seq<Part>>
      requires Known()
    {
      DeleteGroups(istioActive.value, vpaCrd.value, gatewayPolicyFirst)
    }
  }

  /** What is to be rendered, if every pipeline can be fetched. */
  function Target(config: Option<Config>, get: Reader): Option<Rendering> {
    if config.None? then None
    else
      var trace := Fetched(config.value.trace, Trace, get);
      var log := Fetched(config.value.log, Log, get);
      var metric := Fetched(config.value.metric, Metric, get);
      if trace.None? || log.None? || metric.None? then None
      else Some(Rendering(trace.value, log.value, metric.value))
  }

  /** The pipeline of a reference can be served: it is found, not being deleted, at the recorded generation. */
  predicate Servable(x: Reference, got: GetResult) {
    match got
    case Found(p) => !p.deleting && p.generation == x.generation
    case NotFound => false
    case Failed => false
  }

  /** Some reference of the config, of whatever kind, can be served. */
  ghost predicate AnythingToServe(config: Config, get: Reader) {
    || (exists x :: x in config.trace && Servable(x, get(Trace, x.name)))
    || (exists x :: x in config.log && Servable(x, get(Log, x.name)))
    || (exists x :: x in config.metric && Servable(x, get(Metric, x.name)))
  }

  /** What is to be rendered, list by list: exactly what the references of that kind can serve. */
  lemma TargetMembers(config: Config, get: Reader, p: Pipeline)
    requires Target(Some(config), get).Some?
    ensures var target := Target(Some(config), get).value;
            && (p in target.trace <==>
                exists x :: x in config.trace && get(Trace, x.name) == Found(p) && Servable(x, Found(p)))
            && (p in target.log <==>
                exists x :: x in config.log && get(Log, x.name) == Found(p) && Servable(x, Found(p)))
            && (p in target.metric <==>
                exists x :: x in config.metric && get(Metric, x.name) == Found(p) && Servable(x, Found(p)))
  {
    FetchedMembers(config.trace, Trace, get, p);
    FetchedMembers(config.log, Log, get, p);
    FetchedMembers(config.metric, Metric, get, p);
    assert forall x, got :: Renders(x, got) <==> Servable(x, got);
  }

  /** There is no target exactly if the config cannot be read or a Get of a referenced pipeline fails. */
  lemma TargetFails(config: Option<Config>, get: Reader)
    ensures Target(config, get).None? <==>
            || config.None?
            || (exists x :: x in config.value.trace && get(Trace, x.name) == Failed)
            || (exists x :: x in config.value.log && get(Log, x.name) == Failed)
            || (exists x :: x in config.value.metric && get(Metric, x.name) == Failed)
  {
    if config.Some? {
      FetchedFails(config.value.trace, Trace, get);
      FetchedFails(config.value.log, Log, get);
      FetchedFails(config.value.metric, Metric, get);
    }
  }

  lemma FetchedEmptyIff(refs: seq<Reference>, t: SignalType, get: Reader)
    requires Fetched(refs, t, get).Some?
    ensures Fetched(refs, t, get).value == [] <==> forall x :: x in refs ==> !Servable(x, get(t, x.name))
  {
    var ps := Fetched(refs, t, get).value;
    if ps != [] {
      FetchedMembers(refs, t, get, ps[0]);
    }
    forall x | x in refs && Servable(x, get(t, x.name)) ensures ps != [] {
      FetchedMembers(refs, t, get, get(t, x.name).pipeline);
      assert Renders(x, get(t, x.name));
    }
  }

  lemma NothingIff(config: Config, get: Reader)
    requires Target(Some(config), get).Some?
    ensures Target(Some(config), get).value == NOTHING <==> !AnythingToServe(config, get)
  {
    FetchedEmptyIff(config.trace, Trace, get);
    FetchedEmptyIff(config.log, Log, get);
    FetchedEmptyIff(config.metric, Metric, get);
  }

  /** Nothing fails before the first write. */
  predicate Prepared(config: Option<Config>, get: Reader, env: Environment) {
    env.cleanup && env.Known() && Target(config, get).Some? && (Target(config, get).value != NOTHING ==> env.build)
  }

  // ---------------------------------------------------------------- the code

  class OtlpGateway {
    var deployed: Deployed

    constructor ()
      ensures deployed == map[]
    {
      deployed := map[];
    }

    method ApplyResources(writes: seq<Write>, r: Rendering, failing: set<Part>) returns (ok: bool)
      requires Agree(writes)
      modifies this
      ensures Applied(old(deployed), deployed, writes, Reach(PartsOf(writes), failing), r)
      ensures ok <==> Reach(PartsOf(writes), failing) == |writes|
    {
      ghost var n := Reach(PartsOf(writes), failing);
      for i := 0 to |writes|
        invariant i <= n && Applied(old(deployed), deployed, writes, i, r)
      {
        assert PartsOf(writes)[i] == writes[i].part;
        if writes[i].part in failing {
          return false;
        }
        deployed := Written(deployed, writes[i], r);
      }
      ok := true;
    }

    /** One call that deletes its objects until one fails. */
    method DeleteGroup(group: seq<Part>, failing: set<Part>) returns (ok: bool)
      modifies this
      ensures forall part :: At(deployed, part) ==
                             if part in group[..Reach(group, failing)] then None else old(At(deployed, part))
      ensures ok <==> Reach(group, failing) == |group|
    {
      ghost var n := Reach(group, failing);
      for i := 0 to |group|
        invariant i <= n
        invariant forall part :: At(deployed, part) == if part in group[..i] then None else old(At(deployed, part))
      {
        if group[i] in failing {
          return false;
        }
        assert group[..i + 1] == group[..i] + [group[i]];
        deployed := deployed - {group[i]};
      }
      ok := true;
    }

    /** Every call is made, whatever fails. */
    method DeleteResources(groups: seq<seq<Part>>, failing: set<Part>) returns (ok: bool)
      modifies this
      ensures Deleted(old(deployed), deployed, groups, failing)
      ensures ok <==> forall g :: g in groups ==> Reach(g, failing) == |g|
    {
      ok := true;
      for i := 0 to |groups|
        invariant Deleted(old(deployed), deployed, groups[..i], failing)
        invariant ok <==> forall g :: g in groups[..i] ==> Reach(g, failing) == |g|
      {
        var done := DeleteGroup(groups[i], failing);
        GoneStep(groups[..i], groups[i], failing);
        assert groups[..i + 1] == groups[..i] + [groups[i]];
        ok := ok && done;
      }
      assert groups[..|groups|] == groups;
    }

    /** The fetches of doReconcile. */
    static method FetchTarget(config: Config, get: Reader) returns (r: Option<Rendering>)
      ensures r == Target(Some(config), get)
    {
      var trace := FetchPipelines(config.trace, Trace, get);
      if trace.None? {
        return None;
      }
      var log := FetchPipelines(config.log, Log, get);
      if log.None? {
        return None;
      }
      var metric := FetchPipelines(config.metric, Metric, get);
      if metric.None? {
        return None;
      }
      r := Some(Rendering(trace.value, log.value, metric.value));
    }

    /**
     doReconcile. A failure before the first write changes nothing. A failed apply leaves
     exactly the writes before the failing one, a failed delete exactly the objects that were
     not reached. From whatever an earlier failure left, success leaves every object of the
     gateway written for the fetched pipelines, or none exactly if no reference can be served.
     */
    method DoReconcile(config: Option<Config>, get: Reader, env: Environment) returns (ok: bool)
      modifies this
      ensures !Prepared(config, get, env) ==> !ok && deployed == old(deployed)
      ensures Prepared(config, get, env) ==>
                (Target(config, get).value == NOTHING <==> !AnythingToServe(config.value, get))
      ensures Prepared(config, get, env) ==> Outcome(old(deployed), deployed, Target(config, get).value, env)
      ensures Prepared(config, get, env) ==> (ok <==> NothingFails(Target(config, get).value, env))
      ensures ok ==> forall part :: IsCore(part) ==>
                At(deployed, part) == if AnythingToServe(config.value, get) then Target(config, get) else None
      ensures ok && AnythingToServe(config.value, get) ==>
                forall part :: Required(part, env.istioActive.value, env.vpaCrd.value, env.vpaEnabled) ==>
                  At(deployed, part) == Target(config, get)
      ensures ok && !AnythingToServe(config.value, get) ==>
                forall part :: Required(part, env.istioActive.value, env.vpaCrd.value, true) ==>
                  At(deployed, part) == None
    {
      if !env.cleanup || config.None? {
        return false;
      }
      var target := FetchTarget(config.value, get);
      if target.None? {
        return false;
      }
      NothingIff(config.value, get);
      var r := target.value;
      if |r.trace| == 0 && |r.log| == 0 && |r.metric| == 0 {
        if !env.Known() {
          return false;
        }
        ok := DeleteResources(env.Groups(), env.failing);
      } else {
        if !env.build || !env.Known() {
          return false;
        }
        ApplyWritesAgree(env.istioActive.value, env.vpaCrd.value, env.vpaEnabled);
        ok := ApplyResources(env.Writes(), r, env.failing);
      }
      if ok {
        SuccessSettles(old(deployed), deployed, r, env);
        forall part { SuccessComplete(old(deployed), deployed, r, env, part); }
      }
    }
  }

  lemma GoneStep(groups: seq<seq<Part>>, g: seq<Part>, failing: set<Part>)
    ensures forall part :: Gone(groups + [g], failing, part) <==>
                           Gone(groups, failing, part) || part in g[..Reach(g, failing)]
  {
    forall part ensures Gone(groups + [g], failing, part) <==>
                        Gone(groups, failing, part) || part in g[..Reach(g, failing)]
    {
      if Gone(groups, failing, part) {
        var h :| h in groups && part in h[..Reach(h, failing)];
        assert h in groups + [g];
      }
      if part in g[..Reach(g, failing)] {
        assert g in groups + [g];
      }
    }
  }

  /** A write that is not one of the two deletions of ApplyResources. */
  predicate Plain(w: Write) {
    w.Put? && w.part != OldNetworkPolicy && w.part != VerticalPodAutoscaler
  }

  lemma PutsPlain(parts: seq<Part>)
    requires OldNetworkPolicy !in parts && VerticalPodAutoscaler !in parts
    ensures forall w :: w in Puts(parts) ==> Plain(w)
  {
  }

  lemma ApplyWritesAgree(istio: bool, vpaCrd: bool, vpaEnabled: bool)
    ensures Agree(ApplyWrites(istio, vpaCrd, vpaEnabled))
  {
    var writes, vpa := ApplyWrites(istio, vpaCrd, vpaEnabled), VpaWrites(vpaCrd, vpaEnabled);
    PutsPlain(COMMON);
    PutsPlain(WORKLOAD);
    PutsPlain(ServiceParts());
    PutsPlain(IstioParts(istio));
    forall w | w in writes ensures Plain(w) || w == Drop(OldNetworkPolicy) || (vpa != [] && w == vpa[0]) {
    }
    forall i, j | 0 <= i < |writes| && 0 <= j < |writes| && writes[i].part == writes[j].part
      ensures writes[i] == writes[j]
    {
      assert writes[i] in writes && writes[j] in writes;
    }
  }

  // ---------------------------------------------------------------- what belongs to a gateway

  predicate OtlpServiceName(name: string) {
    || name == "telemetry-otlp" || name == "telemetry-otlp-logs"
    || name == "telemetry-otlp-traces" || name == "telemetry-otlp-metrics"
  }

  /** The objects a deployed gateway has. */
  predicate Required(part: Part, istio: bool, vpaCrd: bool, vpaEnabled: bool) {
    match part
    case OldNetworkPolicy => false
    case NetworkPolicyList => false
    case VerticalPodAutoscaler => vpaCrd && vpaEnabled
    case Service(name) => OtlpServiceName(name)
    case DestinationRule(name) => istio && OtlpServiceName(name)
    case PeerAuthentication => istio
    case _ => true
  }

  lemma PartsListed(part: Part, istio: bool)
    ensures part in ServiceParts() <==> part.Service? && OtlpServiceName(part.name)
    ensures part in IstioParts(istio) <==>
            istio && (part == PeerAuthentication || (part.DestinationRule? && OtlpServiceName(part.name)))
  {
    assert ServiceParts() == [Service("telemetry-otlp"), Service("telemetry-otlp-logs"),
                              Service("telemetry-otlp-traces"), Service("telemetry-otlp-metrics")];
    if istio {
      assert IstioParts(istio) ==
             [DestinationRule("telemetry-otlp-logs"), DestinationRule("telemetry-otlp-traces"),
              DestinationRule("telemetry-otlp-metrics"), DestinationRule("telemetry-otlp"), PeerAuthentication];
    }
  }

  lemma PutsMembers(parts: seq<Part>, w: Write)
    ensures w in Puts(parts) <==> w.Put? && w.part in parts
  {
    if w.Put? && w.part in parts {
      var i :| 0 <= i < |parts| && parts[i] == w.part;
      assert Puts(parts)[i] == w;
    }
  }

  /** Applying writes exactly the objects of a gateway, and removes only the two that are to go. */
  lemma ApplyWritesExactly(istio: bool, vpaCrd: bool, vpaEnabled: bool, w: Write)
    ensures w in ApplyWrites(istio, vpaCrd, vpaEnabled) <==>
            match w
            case Put(part) => Required(part, istio, vpaCrd, vpaEnabled)
            case Drop(part) => part == OldNetworkPolicy || (part == VerticalPodAutoscaler && vpaCrd && !vpaEnabled)
  {
    PutsMembers(COMMON, w);
    PutsMembers(WORKLOAD, w);
    PutsMembers(ServiceParts(), w);
    PutsMembers(IstioParts(istio), w);
    PartsListed(w.part, istio);
  }

  lemma SinglyMembers(parts: seq<Part>, part: Part)
    ensures (exists g :: g in Singly(parts) && part in g) <==> part in parts
  {
    if part in parts {
      var i :| 0 <= i < |parts| && parts[i] == part;
      assert Singly(parts)[i] == [part];
      assert [part] in Singly(parts) && part in [part];
    }
  }

  /** Deleting goes for every object that any gateway may have, as far as its kind is installed. */
  lemma DeleteGroupsExactly(istio: bool, vpaCrd: bool, first: bool, part: Part)
    ensures (exists g :: g in DeleteGroups(istio, vpaCrd, first) && part in g) <==>
            part == NetworkPolicyList || Required(part, istio, vpaCrd, true)
  {
    var vpa: seq<Part> := if vpaCrd then [VerticalPodAutoscaler] else [];
    SinglyMembers(DELETED_FIRST, part);
    SinglyMembers([DaemonSet], part);
    SinglyMembers(vpa, part);
    SinglyMembers(ServiceParts(), part);
    SinglyMembers(IstioParts(istio), part);
    PartsListed(part, istio);
    var groups := DeleteGroups(istio, vpaCrd, first);
    assert PolicyGroup(first) in groups;
    assert forall g :: g in groups <==>
             || g in Singly(DELETED_FIRST) || g == PolicyGroup(first) || g in Singly([DaemonSet]) || g in Singly(vpa)
             || g in Singly(ServiceParts()) || g in Singly(IstioParts(istio));
  }

  /** After success: every object of a gateway was written for what is to be served, or none is left. */
  lemma SuccessComplete(before: Deployed, after: Deployed, r: Rendering, env: Environment, part: Part)
    requires env.Known() && Outcome(before, after, r, env) && NothingFails(r, env)
    ensures r != NOTHING && Required(part, env.istioActive.value, env.vpaCrd.value, env.vpaEnabled) ==>
              At(after, part) == Some(r)
    ensures r != NOTHING && (part == OldNetworkPolicy
                             || (part == VerticalPodAutoscaler && env.vpaCrd.value && !env.vpaEnabled)) ==>
              At(after, part) == None
    ensures r == NOTHING && Required(part, env.istioActive.value, env.vpaCrd.value, true) ==> At(after, part) == None
  {
    if r == NOTHING {
      DeleteGroupsExactly(env.istioActive.value, env.vpaCrd.value, env.gatewayPolicyFirst, part);
      if Required(part, env.istioActive.value, env.vpaCrd.value, true) {
        var g :| g in env.Groups() && part in g;
        GroupGone(env.Groups(), env.failing, part, g);
      }
    } else {
      forall w | w in env.Writes() ensures At(after, w.part) == Effect(w, r) {
        var i :| 0 <= i < |env.Writes()| && env.Writes()[i] == w;
      }
      ApplyWritesExactly(env.istioActive.value, env.vpaCrd.value, env.vpaEnabled, Put(part));
      ApplyWritesExactly(env.istioActive.value, env.vpaCrd.value, env.vpaEnabled, Drop(part));
    }
  }

  // ---------------------------------------------------------------- what a failure leaves

  /** The objects that every gateway has, whatever Istio and the autoscaler do. */
  predicate IsCore(part: Part) {
    part in COMMON || part in WORKLOAD
  }

  /** What the writes of a prepared reconciliation make of the cluster, failing where `env` says. */
  ghost predicate Outcome(before: Deployed, after: Deployed, r: Rendering, env: Environment)
    requires env.Known()
  {
    if r == NOTHING then Deleted(before, after, env.Groups(), env.failing)
    else Applied(before, after, env.Writes(), Reach(PartsOf(env.Writes()), env.failing), r)
  }

  ghost predicate NothingFails(r: Rendering, env: Environment)
    requires env.Known()
  {
    if r == NOTHING then forall g :: g in env.Groups() ==> Reach(g, env.failing) == |g|
    else Reach(PartsOf(env.Writes()), env.failing) == |env.Writes()|
  }

  /** Where the core objects stand among the writes: the config map ahead of the DaemonSet. */
  lemma CoreWrites(env: Environment)
    requires env.Known()
    ensures |env.Writes()| >= 12
    ensures forall i :: 0 <= i < 6 ==> env.Writes()[i] == Put(COMMON[i])
    ensures env.Writes()[6] == Drop(OldNetworkPolicy)
    ensures forall i :: 0 <= i < 5 ==> env.Writes()[7 + i] == Put(WORKLOAD[i])
  {
  }

  /** The call that deletes a core object. */
  function GroupOf(env: Environment, part: Part): seq<Part> {
    if part == MetricsNetworkPolicy || part == GatewayNetworkPolicy then PolicyGroup(env.gatewayPolicyFirst) else [part]
  }

  lemma FirstGroups(env: Environment)
    requires env.Known()
    ensures |env.Groups()| >= 10
    ensures forall i :: 0 <= i < 8 ==> env.Groups()[i] == [DELETED_FIRST[i]]
    ensures env.Groups()[8] == PolicyGroup(env.gatewayPolicyFirst) && env.Groups()[9] == [DaemonSet]
  {
  }

  lemma CoreDeleted(env: Environment, part: Part)
    requires env.Known() && IsCore(part)
    ensures GroupOf(env, part) in env.Groups() && part in GroupOf(env, part)
  {
    FirstGroups(env);
    if part == DaemonSet {
      assert env.Groups()[9] == GroupOf(env, part);
    } else if part == MetricsNetworkPolicy || part == GatewayNetworkPolicy {
      assert env.Groups()[8] == GroupOf(env, part);
    } else {
      assert part in DELETED_FIRST;
      var i :| 0 <= i < |DELETED_FIRST| && DELETED_FIRST[i] == part;
      assert env.Groups()[i] == GroupOf(env, part);
    }
  }

  lemma GroupGone(groups: seq<seq<Part>>, failing: set<Part>, part: Part, g: seq<Part>)
    requires g in groups && part in g && Reach(g, failing) == |g|
    ensures Gone(groups, failing, part)
  {
    assert g[..Reach(g, failing)] == g;
  }

  /** Success does not depend on what was there before. */
  lemma SuccessSettles(before: Deployed, after: Deployed, r: Rendering, env: Environment)
    requires env.Known() && Outcome(before, after, r, env) && NothingFails(r, env)
    ensures forall part :: IsCore(part) ==> At(after, part) == if r == NOTHING then None else Some(r)
  {
    forall part | IsCore(part) ensures At(after, part) == if r == NOTHING then None else Some(r) {
      if r == NOTHING {
        CoreDeleted(env, part);
        GroupGone(env.Groups(), env.failing, part, GroupOf(env, part));
      } else {
        CoreWrites(env);
        if part in COMMON {
          var i :| 0 <= i < 6 && COMMON[i] == part;
          assert env.Writes()[i] == Put(part);
        } else {
          var i :| 0 <= i < 5 && WORKLOAD[i] == part;
          assert env.Writes()[7 + i] == Put(part);
        }
      }
    }
  }

  /** Whatever runs has its config map. */
  predicate Configured(d: Deployed) {
    DaemonSet in d ==> CollectorConfigMap in d
  }

  /** DaemonSet and config map are each deleted by a call of their own, exactly if it does not fail. */
  lemma OwnCalls(env: Environment, part: Part)
    requires env.Known() && (part == DaemonSet || part == CollectorConfigMap)
    ensures Gone(env.Groups(), env.failing, part) <==> part !in env.failing
  {
    assert part in WORKLOAD by { assert WORKLOAD[1] == CollectorConfigMap && WORKLOAD[4] == DaemonSet; }
    CoreDeleted(env, part);
    assert [part][1..] == [];
    if part !in env.failing {
      assert Reach([part], env.failing) == 1 + Reach([part][1..], env.failing);
      GroupGone(env.Groups(), env.failing, part, [part]);
    }
    forall g | g in env.Groups() && part in g[..Reach(g, env.failing)] ensures part !in env.failing {
      var i :| 0 <= i < Reach(g, env.failing) && g[i] == part;
    }
  }

  /**
   The config map is written ahead of the DaemonSet, so a failed apply never leaves a DaemonSet
   without one, and one written for `r` finds the config map written for `r` too. The only way
   to lose the config map of what runs is a delete that fails for the DaemonSet alone.
   */
  lemma StaysConfiguredIff(before: Deployed, after: Deployed, r: Rendering, env: Environment)
    requires env.Known() && Outcome(before, after, r, env) && Configured(before)
    ensures Configured(after) <==>
            !(r == NOTHING && DaemonSet in before && DaemonSet in env.failing && CollectorConfigMap !in env.failing)
    ensures r != NOTHING && At(after, DaemonSet) == Some(r) != At(before, DaemonSet) ==>
              At(after, CollectorConfigMap) == Some(r)
  {
    assert DaemonSet in after <==> At(after, DaemonSet).Some?;
    assert CollectorConfigMap in after <==> At(after, CollectorConfigMap).Some?;
    if r == NOTHING {
      OwnCalls(env, DaemonSet);
      OwnCalls(env, CollectorConfigMap);
    } else {
      ApplyOrder(before, after, r, env);
    }
  }

  /** The order of the writes that others depend on. */
  lemma FirstWrites(istio: bool, vpaCrd: bool, vpaEnabled: bool)
    ensures var writes := ApplyWrites(istio, vpaCrd, vpaEnabled);
            && |writes| >= 12
            && writes[0] == Put(ServiceAccount)
            && writes[1] == Put(ClusterRole) && writes[2] == Put(ClusterRoleBinding)
            && writes[3] == Put(Role) && writes[4] == Put(RoleBinding) && writes[5] == Put(MetricsService)
            && writes[6] == Drop(OldNetworkPolicy) && writes[7] == Put(EnvSecret)
            && writes[8] == Put(CollectorConfigMap) && writes[9] == Put(MetricsNetworkPolicy)
            && writes[10] == Put(GatewayNetworkPolicy) && writes[11] == Put(DaemonSet)
  {
  }

  /** What an object refers to. */
  function Needs(part: Part): set<Part> {
    match part
    case ClusterRoleBinding => {ServiceAccount, ClusterRole}
    case RoleBinding => {ServiceAccount, Role}
    case DaemonSet => {ServiceAccount, EnvSecret, CollectorConfigMap}
    case _ => {}
  }

  lemma NeededEarlier(istio: bool, vpaCrd: bool, vpaEnabled: bool, i: nat, needed: Part)
    requires i < |ApplyWrites(istio, vpaCrd, vpaEnabled)|
    requires needed in Needs(ApplyWrites(istio, vpaCrd, vpaEnabled)[i].part)
    ensures exists j :: 0 <= j < i && ApplyWrites(istio, vpaCrd, vpaEnabled)[j] == Put(needed)
  {
    var writes := ApplyWrites(istio, vpaCrd, vpaEnabled);
    FirstWrites(istio, vpaCrd, vpaEnabled);
    assert needed in {ServiceAccount, ClusterRole, Role, EnvSecret, CollectorConfigMap};
  }

  /** Wherever an apply breaks off, an object that it changed finds what it refers to up to date. */
  lemma NeedsComeFirst(before: Deployed, after: Deployed, r: Rendering, env: Environment, part: Part, needed: Part)
    requires env.Known() && r != NOTHING && Outcome(before, after, r, env)
    requires needed in Needs(part) && At(after, part) != At(before, part)
    ensures At(after, needed) == Some(r)
  {
    var writes := env.Writes();
    var i :| 0 <= i < Reach(PartsOf(writes), env.failing) && writes[i].part == part;
    NeededEarlier(env.istioActive.value, env.vpaCrd.value, env.vpaEnabled, i, needed);
  }

  lemma EarlyWrites(env: Environment, i: nat)
    requires env.Known() && i < 8
    ensures |env.Writes()| >= 12
    ensures env.Writes()[i].part != CollectorConfigMap && env.Writes()[i].part != DaemonSet
  {
    CoreWrites(env);
    if i < 6 {
      assert COMMON[i] in COMMON && env.Writes()[i] == Put(COMMON[i]);
    } else if i == 7 {
      assert env.Writes()[7 + 0] == Put(WORKLOAD[0]);
    }
  }

  lemma ApplyOrder(before: Deployed, after: Deployed, r: Rendering, env: Environment)
    requires env.Known() && r != NOTHING && Outcome(before, after, r, env)
    ensures At(after, CollectorConfigMap) == At(before, CollectorConfigMap) || At(after, CollectorConfigMap) == Some(r)
    ensures At(after, DaemonSet) == At(before, DaemonSet) || At(after, CollectorConfigMap) == Some(r)
  {
    var writes := env.Writes();
    var n := Reach(PartsOf(writes), env.failing);
    CoreWrites(env);
    if n > 8 {
      assert writes[7 + 1] == Put(CollectorConfigMap);
    } else {
      forall i | 0 <= i < n ensures writes[i].part != CollectorConfigMap && writes[i].part != DaemonSet {
        EarlyWrites(env, i);
      }
    }
  }

  /** It happens: the gateway is applied, the last pipeline goes, and only the deletion of the DaemonSet fails. */
  method LosesConfigMap(config: Config, get: Reader) returns (gateway: OtlpGateway, applied: bool, deleted: bool)
    requires Target(Some(config), get).Some? && Target(Some(config), get).value != NOTHING
    ensures fresh(gateway) && applied && !deleted && !Configured(gateway.deployed)
  {
    gateway := new OtlpGateway();
    var env := Environment(true, Some(false), Some(false), false, true, true, {});
    NoneFailing(PartsOf(env.Writes()));
    applied := gateway.DoReconcile(Some(config), get, env);
    assert WORKLOAD[4] == DaemonSet && WORKLOAD[1] == CollectorConfigMap && IsCore(DaemonSet);
    assert IsCore(CollectorConfigMap);
    assert At(gateway.deployed, DaemonSet).Some? && At(gateway.deployed, CollectorConfigMap).Some?;
    var failing := env.(failing := {DaemonSet});
    ghost var before := gateway.deployed;
    deleted := gateway.DoReconcile(Some(EMPTY_CONFIG), get, failing);
    StaysConfiguredIff(before, gateway.deployed, NOTHING, failing);
    CoreDeleted(failing, DaemonSet);
    assert [DaemonSet] in failing.Groups() && Reach([DaemonSet], failing.failing) == 0;
  }

  lemma {:induction false} NoneFailing(parts: seq<Part>)
    ensures Reach(parts, {}) == |parts|
  {
    if parts != [] {
      NoneFailing(parts[1..]);
    }
  }
}
