/**
 Validation of trace and metric pipelines: validate and isReconcilable of
 internal/reconciler/tracepipeline and internal/reconciler/metricpipeline, and the choice of
 the metric pipelines that the metric agent serves.
 */
module Validation {
  import opened Common
  import opened CoordinationConfig
  import Lock = ResourceLock

  /** The classes of validation error that the decision and the report tell apart. */
  datatype ValidationError =
    | MaxPipelinesExceeded
    | SecretMissing
    | EndpointInvalid
    | OTTLInvalid
    | AdditionalMetricInvalid
    | APIRequestFailed
    | CertExpired
    | CertAboutToExpire
    | OtherError

  type Validation = Option<ValidationError>

  /** The answer of each validator but the lock; `None` is no error. Any validator may answer with any class. */
  datatype Checks = Checks(
    secretRefs: Validation,
    otlpOutput: bool, endpoint: Validation,
    tlsConfigured: bool, tlsCert: Validation,
    transforms: Validation, filters: Validation, additionalMetrics: Validation)

  /** The validators that run before the lock is looked at. */
  function BeforeLock(c: Checks): Validation {
    if c.secretRefs.Some? then c.secretRefs
    else if c.otlpOutput && c.endpoint.Some? then c.endpoint
    else if c.otlpOutput && c.tlsConfigured && c.tlsCert.Some? then c.tlsCert
    else None
  }

  function AfterLock(t: SignalType, c: Checks): Validation {
    if c.transforms.Some? then c.transforms
    else if c.filters.Some? then c.filters
    else if t == Metric then c.additionalMetrics
    else None
  }

  /** validate: the first error, in this order. */
  function Validate(t: SignalType, c: Checks, holder: Lock.Outcome): Validation {
    if BeforeLock(c).Some? then BeforeLock(c)
    else match holder
      case MaxPipelinesExceeded => Some(MaxPipelinesExceeded)
      case ApiError => Some(APIRequestFailed)
      case Acquired => AfterLock(t, c)
  }

  datatype Decision = Reconcilable | NotReconcilable | Requeue

  function IsReconcilable(deleting: bool, err: Validation): Decision {
    if deleting then NotReconcilable
    else if err.None? || err == Some(CertAboutToExpire) then Reconcilable
    else if err == Some(APIRequestFailed) then Requeue
    else NotReconcilable
  }

  // ---------------------------------------------------------------- what validation lets through

  /** What the lock check answers. */
  function LockAnswer(holder: Lock.Outcome): Validation {
    match holder
    case Acquired => None
    case MaxPipelinesExceeded => Some(MaxPipelinesExceeded)
    case ApiError => Some(APIRequestFailed)
  }

  /** The answers of all validators that apply, the lock among them, in order. */
  function Answers(t: SignalType, c: Checks, holder: Lock.Outcome): seq<Validation> {
    [c.secretRefs]
    + (if c.otlpOutput then [c.endpoint] else [])
    + (if c.otlpOutput && c.tlsConfigured then [c.tlsCert] else [])
    + [LockAnswer(holder), c.transforms, c.filters]
    + (if t == Metric then [c.additionalMetrics] else [])
  }

  /** Validation answers with the first objection, and with none exactly if there is none. */
  lemma ValidateIsFirst(t: SignalType, c: Checks, holder: Lock.Outcome)
    ensures var answers, err := Answers(t, c, holder), Validate(t, c, holder);
            if err.None? then forall i :: 0 <= i < |answers| ==> answers[i].None?
            else exists i :: && 0 <= i < |answers| && answers[i] == err
                             && forall j :: 0 <= j < i ==> answers[j].None?
  {
    var answers, err := Answers(t, c, holder), Validate(t, c, holder);
    var endpoints := if c.otlpOutput then 1 else 0;
    var lock := 1 + endpoints + if c.otlpOutput && c.tlsConfigured then 1 else 0;
    assert answers[0] == c.secretRefs && answers[lock] == LockAnswer(holder);
    assert answers[lock + 1] == c.transforms && answers[lock + 2] == c.filters;
    assert c.otlpOutput ==> answers[1] == c.endpoint;
    assert c.otlpOutput && c.tlsConfigured ==> answers[2] == c.tlsCert;
    assert t == Metric ==> answers[lock + 3] == c.additionalMetrics;
  }

  /** Every validator that applies is content. */
  predicate AllPass(t: SignalType, c: Checks) {
    && c.secretRefs.None?
    && (c.otlpOutput ==> c.endpoint.None?)
    && (c.otlpOutput && c.tlsConfigured ==> c.tlsCert.None?)
    && c.transforms.None? && c.filters.None?
    && (t == Metric ==> c.additionalMetrics.None?)
  }

  /** Ahead of the lock, the first objection is a certificate about to expire. */
  predicate ExpiringAhead(c: Checks) {
    || c.secretRefs == Some(CertAboutToExpire)
    || (c.secretRefs.None? && c.otlpOutput && c.endpoint == Some(CertAboutToExpire))
    || (&& c.secretRefs.None? && c.otlpOutput && c.endpoint.None?
        && c.tlsConfigured && c.tlsCert == Some(CertAboutToExpire))
  }

  /** The first objection, the lock aside, is a certificate about to expire. */
  predicate ExpiringFirst(t: SignalType, c: Checks) {
    || ExpiringAhead(c)
    || (&& c.secretRefs.None?
        && (c.otlpOutput ==> c.endpoint.None?)
        && (c.otlpOutput && c.tlsConfigured ==> c.tlsCert.None?)
        && (|| c.transforms == Some(CertAboutToExpire)
            || (c.transforms.None? && c.filters == Some(CertAboutToExpire))
            || (&& c.transforms.None? && c.filters.None?
                && t == Metric && c.additionalMetrics == Some(CertAboutToExpire))))
  }

  /**
   Exactly which answers make a pipeline reconcilable: an owner's if all pass or a certificate
   about to expire is the first to object, another pipeline's if that comes ahead of the lock.
   */
  lemma ReconcilableExactly(t: SignalType, c: Checks)
    ensures Validate(t, c, Lock.Acquired).None? <==> AllPass(t, c)
    ensures IsReconcilable(false, Validate(t, c, Lock.Acquired)) == Reconcilable <==>
            AllPass(t, c) || ExpiringFirst(t, c)
    ensures IsReconcilable(false, Validate(t, c, Lock.MaxPipelinesExceeded)) == Reconcilable <==> ExpiringAhead(c)
  {
  }

  /** A certificate about to expire hides the lock and every later validator, whatever they would answer. */
  lemma ExpiringHides(t: SignalType, c: Checks, holder: Lock.Outcome, x: Validation, y: Validation, z: Validation)
    requires ExpiringAhead(c)
    ensures IsReconcilable(false, Validate(t, c.(transforms := x, filters := y, additionalMetrics := z), holder))
            == Reconcilable
  {
  }

  /** A pipeline being deleted is never reconcilable; a requeue is for API failures and nothing else. */
  lemma DecisionExactly(deleting: bool, err: Validation)
    ensures deleting ==> IsReconcilable(deleting, err) == NotReconcilable
    ensures IsReconcilable(deleting, err) == Requeue <==> !deleting && err == Some(APIRequestFailed)
    ensures IsReconcilable(deleting, err) == Reconcilable <==>
            !deleting && (err.None? || err == Some(CertAboutToExpire))
  {
  }

  /** So invalid transforms can reach the coordination config. */
  lemma ExpiringCertMasks(t: SignalType)
    ensures exists c: Checks :: c.transforms == Some(OTTLInvalid) && !AllPass(t, c)
                                && IsReconcilable(false, Validate(t, c, Lock.Acquired)) == Reconcilable
  {
    var c := Checks(None, true, None, true, Some(CertAboutToExpire), Some(OTTLInvalid), None, None);
    assert !AllPass(t, c) && IsReconcilable(false, Validate(t, c, Lock.Acquired)) == Reconcilable;
  }

  // ---------------------------------------------------------------- the pipelines of the metric agent

  /** A metric pipeline of the list that doReconcile reads, with what its validators answer. */
  datatype Peer = Peer(owner: Lock.Owner, deleting: bool, checks: Checks, requiresAgent: bool)

  function PeerObjection(p: Peer, owners: seq<Lock.Owner>): Validation {
    Validate(Metric, p.checks, if p.owner in owners then Lock.Acquired else Lock.MaxPipelinesExceeded)
  }

  /** isReconcilable of a peer, when these are the owners of the lock. */
  function PeerDecision(p: Peer, owners: seq<Lock.Owner>): Decision {
    IsReconcilable(p.deleting, PeerObjection(p, owners))
  }

  /** An API failure during the validation of any pipeline of the list ends the selection. */
  predicate AnyRequeues(peers: seq<Peer>, owners: seq<Lock.Owner>) {
    exists p :: p in peers && !p.deleting && PeerObjection(p, owners) == Some(APIRequestFailed)
  }

  function ReconcilableOnes(peers: seq<Peer>, owners: seq<Lock.Owner>): seq<Peer> {
    if peers == [] then []
    else (if PeerDecision(peers[0], owners) == Reconcilable then [peers[0]] else [])
         + ReconcilableOnes(peers[1..], owners)
  }

  function AgentOnes(peers: seq<Peer>): seq<Peer> {
    if peers == [] then []
    else (if peers[0].requiresAgent then [peers[0]] else []) + AgentOnes(peers[1..])
  }

  lemma RequeuesExactly(peers: seq<Peer>, owners: seq<Lock.Owner>)
    ensures AnyRequeues(peers, owners) <==> exists i :: 0 <= i < |peers| && PeerDecision(peers[i], owners) == Requeue
  {
    forall p: Peer ensures PeerDecision(p, owners) == Requeue <==>
                           !p.deleting && PeerObjection(p, owners) == Some(APIRequestFailed) {
      DecisionExactly(p.deleting, PeerObjection(p, owners));
    }
    if i :| 0 <= i < |peers| && PeerDecision(peers[i], owners) == Requeue {
      assert peers[i] in peers;
    }
  }

  /** The selection works pipeline by pipeline, so it keeps order and repetition. */
  lemma {:induction false} ReconcilableConcat(peers: seq<Peer>, more: seq<Peer>, owners: seq<Lock.Owner>)
    ensures ReconcilableOnes(peers + more, owners) == ReconcilableOnes(peers, owners) + ReconcilableOnes(more, owners)
  {
    if peers == [] {
      assert peers + more == more;
    } else {
      var head := if PeerDecision(peers[0], owners) == Reconcilable then [peers[0]] else [];
      assert (peers + more)[1..] == peers[1..] + more && (peers + more)[0] == peers[0];
      ReconcilableConcat(peers[1..], more, owners);
      assert ReconcilableOnes(peers, owners) == head + ReconcilableOnes(peers[1..], owners);
      assert ReconcilableOnes(peers + more, owners) == head + ReconcilableOnes(peers[1..] + more, owners);
    }
  }

  lemma ReconcilableAppend(peers: seq<Peer>, p: Peer, owners: seq<Lock.Owner>)
    ensures ReconcilableOnes(peers + [p], owners) ==
            if PeerDecision(p, owners) == Reconcilable then ReconcilableOnes(peers, owners) + [p]
            else ReconcilableOnes(peers, owners)
  {
    ReconcilableConcat(peers, [p], owners);
    assert ReconcilableOnes([p][1..], owners) == [];
  }

  method GetReconcilablePipelines(peers: seq<Peer>, owners: seq<Lock.Owner>) returns (r: Option<seq<Peer>>)
    ensures r == if AnyRequeues(peers, owners) then None else Some(ReconcilableOnes(peers, owners))
  {
    RequeuesExactly(peers, owners);
    var reconcilable: seq<Peer> := [];
    for i := 0 to |peers|
      invariant forall j :: 0 <= j < i ==> PeerDecision(peers[j], owners) != Requeue
      invariant reconcilable == ReconcilableOnes(peers[..i], owners)
    {
      assert peers[..i + 1] == peers[..i] + [peers[i]];
      ReconcilableAppend(peers[..i], peers[i], owners);
      var decision := PeerDecision(peers[i], owners);
      if decision == Requeue {
        return None;
      }
      if decision == Reconcilable {
        reconcilable := reconcilable + [peers[i]];
      }
    }
    assert peers[..|peers|] == peers;
    r := Some(reconcilable);
  }

  method GetPipelinesRequiringAgents(peers: seq<Peer>) returns (r: seq<Peer>)
    ensures r == AgentOnes(peers)
  {
    r := [];
    for i := 0 to |peers|
      invariant AgentOnes(peers) == r + AgentOnes(peers[i..])
    {
      assert peers[i..][1..] == peers[i + 1..];
      if peers[i].requiresAgent {
        assert r + ([peers[i]] + AgentOnes(peers[i + 1..])) == r + [peers[i]] + AgentOnes(peers[i + 1..]);
        r := r + [peers[i]];
      }
    }
    assert r + [] == r;
  }

  lemma {:induction false} AgentOnesMembers(peers: seq<Peer>, owners: seq<Lock.Owner>, p: Peer)
    ensures p in AgentOnes(peers) <==> p in peers && p.requiresAgent
    ensures p in ReconcilableOnes(peers, owners) <==> p in peers && PeerDecision(p, owners) == Reconcilable
  {
    if peers != [] {
      assert peers == [peers[0]] + peers[1..];
      AgentOnesMembers(peers[1..], owners, p);
    }
  }

  /** Alike for the agents. */
  lemma {:induction false} AgentConcat(peers: seq<Peer>, more: seq<Peer>)
    ensures AgentOnes(peers + more) == AgentOnes(peers) + AgentOnes(more)
  {
    if peers == [] {
      assert peers + more == more;
    } else {
      var head := if peers[0].requiresAgent then [peers[0]] else [];
      assert (peers + more)[1..] == peers[1..] + more && (peers + more)[0] == peers[0];
      AgentConcat(peers[1..], more);
      assert AgentOnes(peers) == head + AgentOnes(peers[1..]);
      assert AgentOnes(peers + more) == head + AgentOnes(peers[1..] + more);
    }
  }

  /**
   The metric agent serves exactly the pipelines that require one, are not being deleted, and
   are owners with passing checks, or have an about-to-expire certificate as the first
   objection: which lets a pipeline over the limit through when it comes ahead of the lock.
   */
  lemma AgentServesExactly(peers: seq<Peer>, owners: seq<Lock.Owner>, p: Peer)
    ensures p in AgentOnes(ReconcilableOnes(peers, owners)) <==>
            && p in peers && p.requiresAgent && !p.deleting
            && if p.owner in owners then AllPass(Metric, p.checks) || ExpiringFirst(Metric, p.checks)
               else ExpiringAhead(p.checks)
  {
    AgentOnesMembers(ReconcilableOnes(peers, owners), owners, p);
    AgentOnesMembers(peers, owners, p);
  }
}
