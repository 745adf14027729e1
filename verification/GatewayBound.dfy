/**
 End-to-end results of the admission protocol: what the gateway renders in any reachable
 state, from any earlier version of the config and any earlier versions of the pipelines.
 */
module GatewayBound {
  import opened Common
  import opened ApiStore
  import opened ResourceLock
  import opened LockRuns
  import opened CoordinationConfig
  import opened Gateway
  import opened PipelineKind
  import opened Admission

  /** Reads that return some version stored so far, under the name that was asked for. */
  ghost predicate CachedReads(s: System, get: Reader) {
    forall t, name :: get(t, name).Found? ==>
      get(t, name).pipeline.name == name && get(t, name).pipeline in KindOf(s, t).versions
  }

  /** The references of kind `t` in version `i` of the coordination config. */
  ghost function ReferencesAt(s: System, i: nat, t: SignalType): seq<Reference>
    requires i < |s.config| && HasSlice(t)
  {
    var config := Parsed(s.config[i]);
    if config.None? then [] else Refs(config.value, t)
  }

  lemma ReferencesAreFold(s: System, i: nat, t: SignalType)
    requires IsFold(s.config, s.committed) && i < |s.config| && HasSlice(t)
    ensures AllHaveSlice(s.committed[..i])
    ensures ReferencesAt(s, i, t) == Refs(Fold(s.committed[..i]), t)
    ensures NamesDistinct(ReferencesAt(s, i, t))
  {
    FoldIsMap(s.committed[..i]);
  }

  lemma ReferenceVouched(s: System, i: nat, t: SignalType, x: Reference) returns (p: Pipeline)
    requires IsFold(s.config, s.committed) && CommittedInv(s) && i < |s.config| && HasSlice(t)
    requires x in ReferencesAt(s, i, t)
    ensures VouchedBy(s, t, x, p)
  {
    ReferencesAreFold(s, i, t);
    FoldMember(s.committed[..i], t, x);
    var j :| LastTouch(s.committed[..i], j, t, x.name) && s.committed[..i][j] == Update.Add(t, x);
    assert s.committed[j] in s.committed;
    p :| VouchedBy(s, t, x, p);
  }

  // ---------------------------------------------------------------- the bound

  /**
   Every live pipeline that any version of the config ever referenced is an owner of the
   stored lock, provided its own name had one bearer; other names may have been reused, and the
   lockers may have any limits.
   */
  lemma ReferencedLivePipelineIsOwner(actions: seq<Action>, i: nat, t: SignalType, x: Reference)
    requires Execution(actions) && HasSlice(t) && SoleBearer(KindOf(Reached(actions), t), x.name)
    requires i < |Reached(actions).config|
    requires x in ReferencesAt(Reached(actions), i, t) && x.name in KindOf(Reached(actions), t).current
    ensures var k := KindOf(Reached(actions), t); Holds(Stored(k.lock), OwnerOf(k.current[x.name]))
  {
    NoLostUpdates(actions);
    RunInv(actions);
    var s := Reached(actions);
    RunRetainsOwner(actions, t, OwnerOf(KindOf(s, t).current[x.name]));
    var p := ReferenceVouched(s, i, t, x);
    assert p.uid == KindOf(s, t).current[x.name].uid;
  }

  function LiveOnes(k: Kind, ps: seq<Pipeline>): (r: seq<Pipeline>)
    ensures forall p :: p in r <==> p in ps && Live(k, OwnerOf(p))
  {
    if ps == [] then []
    else (if Live(k, OwnerOf(ps[0])) then [ps[0]] else []) + LiveOnes(k, ps[1..])
  }

  /** The pipelines whose name nobody else ever had. */
  ghost function SoleOnes(k: Kind, ps: seq<Pipeline>): (r: seq<Pipeline>)
    ensures forall p :: p in r <==> p in ps && SoleBearer(k, p.name)
  {
    if ps == [] then []
    else (if SoleBearer(k, ps[0].name) then [ps[0]] else []) + SoleOnes(k, ps[1..])
  }

  lemma TailNamesDiffer(ps: seq<Pipeline>, p: Pipeline)
    requires PipelineNamesDistinct(ps) && ps != [] && p in ps[1..]
    ensures p.name != ps[0].name
  {
    var j :| 1 <= j < |ps| && ps[j] == p;
  }

  /** Putting a new name in front keeps names distinct. */
  lemma ConsKeepsDistinct(p: Pipeline, rest: seq<Pipeline>)
    requires PipelineNamesDistinct(rest) && forall q :: q in rest ==> q.name != p.name
    ensures PipelineNamesDistinct([p] + rest)
  {
  }

  lemma {:induction false} LiveOnesDistinct(k: Kind, ps: seq<Pipeline>)
    requires PipelineNamesDistinct(ps)
    ensures PipelineNamesDistinct(LiveOnes(k, ps))
  {
    if ps != [] {
      LiveOnesDistinct(k, ps[1..]);
      if Live(k, OwnerOf(ps[0])) {
        forall q | q in LiveOnes(k, ps[1..]) ensures q.name != ps[0].name { TailNamesDiffer(ps, q); }
        ConsKeepsDistinct(ps[0], LiveOnes(k, ps[1..]));
      } else {
        assert [] + LiveOnes(k, ps[1..]) == LiveOnes(k, ps[1..]);
      }
    }
  }

  lemma {:induction false} SoleOnesDistinct(k: Kind, ps: seq<Pipeline>)
    requires PipelineNamesDistinct(ps)
    ensures PipelineNamesDistinct(SoleOnes(k, ps))
  {
    if ps != [] {
      SoleOnesDistinct(k, ps[1..]);
      if SoleBearer(k, ps[0].name) {
        forall q | q in SoleOnes(k, ps[1..]) ensures q.name != ps[0].name { TailNamesDiffer(ps, q); }
        ConsKeepsDistinct(ps[0], SoleOnes(k, ps[1..]));
      } else {
        assert [] + SoleOnes(k, ps[1..]) == SoleOnes(k, ps[1..]);
      }
    }
  }

  lemma {:induction false} AllSole(k: Kind, ps: seq<Pipeline>)
    requires forall p :: p in ps ==> SoleBearer(k, p.name)
    ensures SoleOnes(k, ps) == ps
  {
    if ps != [] {
      AllSole(k, ps[1..]);
    }
  }

  /** A list of owners with pairwise different names is no longer than any list that holds them all. */
  lemma {:induction false} DistinctFit(ps: seq<Pipeline>, owners: seq<Owner>)
    requires PipelineNamesDistinct(ps)
    requires forall p :: p in ps ==> OwnerOf(p) in owners
    ensures |ps| <= |owners|
  {
    if ps != [] {
      var j :| 0 <= j < |owners| && owners[j] == OwnerOf(ps[0]);
      var others := owners[..j] + owners[j + 1..];
      forall p | p in ps[1..] ensures OwnerOf(p) in others {
        var i :| 1 <= i < |ps| && ps[i] == p;
        var m :| 0 <= m < |owners| && owners[m] == OwnerOf(p);
        assert m != j && owners[m] == if m < j then others[m] else others[m - 1];
      }
      DistinctFit(ps[1..], others);
    }
  }

  /** Every locker of the kind is limited by at most `limit`. */
  ghost predicate LimitedBy(actions: seq<Action>, t: SignalType, limit: int) {
    forall i :: 0 <= i < |actions| && actions[i].TakeLock? && actions[i].t == t ==>
      1 <= actions[i].maxOwners <= limit
  }

  lemma {:induction false} RunWithinLimit(actions: seq<Action>, t: SignalType, limit: int)
    requires Execution(actions) && LimitedBy(actions, t, limit)
    ensures WithinLimit(KindOf(Reached(actions), t).lock, limit)
  {
    if actions != [] {
      var before, a := actions[..|actions| - 1], actions[|actions| - 1];
      RunWithinLimit(before, t, limit);
      var s := Reached(before);
      if a.TakeLock? && a.t == t {
        assert 1 <= actions[|actions| - 1].maxOwners <= limit;
        AcquireWithinLimit(KindOf(s, t).lock, a.at, OwnerOf(s.workers[a.w].p), a.maxOwners, limit);
      }
    }
  }

  /**
   The end-to-end bound. If every locker of the kind is limited by `limit`, then however stale
   the gateway's reads are, at most `limit` of the live pipelines it renders have a name of
   their own; so it exceeds the limit only by live pipelines with a reused name.
   */
  lemma RenderedLiveBounded(actions: seq<Action>, i: nat, t: SignalType, get: Reader, limit: int)
    requires Execution(actions) && HasSlice(t) && limit >= 0
    requires LimitedBy(actions, t, limit)
    requires i < |Reached(actions).config| && CachedReads(Reached(actions), get)
    ensures var s := Reached(actions);
            var rendered := Fetched(ReferencesAt(s, i, t), t, get);
            rendered.Some? ==> |SoleOnes(KindOf(s, t), LiveOnes(KindOf(s, t), rendered.value))| <= limit
  {
    NoLostUpdates(actions);
    RunInv(actions);
    RunWithinLimit(actions, t, limit);
    var s := Reached(actions);
    var k := KindOf(s, t);
    var refs := ReferencesAt(s, i, t);
    ReferencesAreFold(s, i, t);
    if Fetched(refs, t, get).Some? {
      var rendered := Fetched(refs, t, get).value;
      FetchedOnce(refs, t, get);
      var live := LiveOnes(k, rendered);
      var counted := SoleOnes(k, live);
      LiveOnesDistinct(k, rendered);
      SoleOnesDistinct(k, live);
      forall p | p in counted ensures Holds(Stored(k.lock), OwnerOf(p)) {
        FetchedMembers(refs, t, get, p);
        var x :| x in refs && get(t, x.name) == Found(p) && Renders(x, get(t, x.name));
        ReferencedLivePipelineIsOwner(actions, i, t, x);
      }
      if counted != [] {
        assert Holds(Stored(k.lock), OwnerOf(counted[0]));
        DistinctFit(counted, Stored(k.lock).value);
      }
    }
  }

  /** In particular, with no rendered live name reused, at most `limit` live pipelines are rendered. */
  lemma RenderedLiveBoundedWithoutReuse(actions: seq<Action>, i: nat, t: SignalType, get: Reader, limit: int)
    requires Execution(actions) && HasSlice(t) && limit >= 0
    requires LimitedBy(actions, t, limit)
    requires i < |Reached(actions).config| && CachedReads(Reached(actions), get)
    requires var s := Reached(actions);
             var rendered := Fetched(ReferencesAt(s, i, t), t, get);
             && rendered.Some?
             && forall p :: p in LiveOnes(KindOf(s, t), rendered.value) ==> SoleBearer(KindOf(s, t), p.name)
    ensures var s := Reached(actions);
            |LiveOnes(KindOf(s, t), Fetched(ReferencesAt(s, i, t), t, get).value)| <= limit
  {
    RenderedLiveBounded(actions, i, t, get, limit);
    var s := Reached(actions);
    AllSole(KindOf(s, t), LiveOnes(KindOf(s, t), Fetched(ReferencesAt(s, i, t), t, get).value));
  }

  /** With the limit that the trace and metric controllers are built with, at most five. */
  lemma RenderedLiveAtMostFive(actions: seq<Action>, i: nat, t: SignalType, get: Reader)
    requires Execution(actions) && HasSlice(t) && LimitedBy(actions, t, MAX_PIPELINE_COUNT)
    requires i < |Reached(actions).config| && CachedReads(Reached(actions), get)
    ensures var s := Reached(actions);
            var rendered := Fetched(ReferencesAt(s, i, t), t, get);
            rendered.Some? ==> |SoleOnes(KindOf(s, t), LiveOnes(KindOf(s, t), rendered.value))| <= 5
  {
    RenderedLiveBounded(actions, i, t, get, MAX_PIPELINE_COUNT);
  }

  // ---------------------------------------------------------------- only validated work

  /**
   The gateway renders exactly the current work: a pipeline is rendered if and only if the
   read returned it, it is not being deleted, and the last committed update of its name in
   the config version read added a reference with its generation.
   */
  lemma RendersExactlyCommitted(actions: seq<Action>, i: nat, t: SignalType, get: Reader, p: Pipeline)
    requires Execution(actions) && HasSlice(t)
    requires i < |Reached(actions).config| && CachedReads(Reached(actions), get)
    requires Fetched(ReferencesAt(Reached(actions), i, t), t, get).Some?
    ensures |Reached(actions).config| == |Reached(actions).committed| + 1
    ensures var s := Reached(actions);
            p in Fetched(ReferencesAt(s, i, t), t, get).value <==>
            && get(t, p.name) == Found(p) && !p.deleting
            && exists j, x: Reference :: LastTouch(s.committed[..i], j, t, p.name) && s.committed[j] == Update.Add(t, x)
                                         && x.generation == p.generation
  {
    NoLostUpdates(actions);
    var s := Reached(actions);
    var log := s.committed[..i];
    var refs := ReferencesAt(s, i, t);
    ReferencesAreFold(s, i, t);
    FetchedMembers(refs, t, get, p);
    if p in Fetched(refs, t, get).value {
      var x :| x in refs && get(t, x.name) == Found(p) && Renders(x, get(t, x.name));
      FoldMember(log, t, x);
      var j :| LastTouch(log, j, t, x.name) && log[j] == Update.Add(t, x);
      assert LastTouch(log, j, t, p.name) && s.committed[j] == Update.Add(t, x);
    }
    if get(t, p.name) == Found(p) && !p.deleting {
      forall j, x: Reference | LastTouch(log, j, t, p.name)
        && s.committed[j] == Update.Add(t, x) && x.generation == p.generation
        ensures p in Fetched(refs, t, get).value
      {
        assert log[j] == s.committed[j] && x.name == p.name;
        FoldMember(log, t, x);
        assert x in refs && Renders(x, get(t, x.name));
      }
    }
  }

  /** What the gateway renders is, spec included, a version that the validators approved for a lock owner. */
  lemma RenderedIsValidated(actions: seq<Action>, i: nat, t: SignalType, get: Reader, p: Pipeline)
    returns (x: Reference)
    requires Execution(actions) && HasSlice(t) && SoleBearer(KindOf(Reached(actions), t), p.name)
    requires i < |Reached(actions).config| && CachedReads(Reached(actions), get)
    requires Fetched(ReferencesAt(Reached(actions), i, t), t, get).Some?
    requires p in Fetched(ReferencesAt(Reached(actions), i, t), t, get).value
    ensures x in ReferencesAt(Reached(actions), i, t)
    ensures VouchedBy(Reached(actions), t, x, p) && (t, p) in Reached(actions).approved
  {
    var s := Reached(actions);
    NoLostUpdates(actions);
    RunInv(actions);
    FetchedMembers(ReferencesAt(s, i, t), t, get, p);
    x :| x in ReferencesAt(s, i, t) && get(t, x.name) == Found(p) && Renders(x, get(t, x.name));
    var validated := ReferenceVouched(s, i, t, x);
    assert p in KindOf(s, t).versions && OwnerOf(p) == OwnerOf(validated);
  }

  // ---------------------------------------------------------------- why names must not be reused

  lemma OneMore(actions: seq<Action>, a: Action)
    requires Execution(actions) && Possible(Reached(actions), a)
    ensures Execution(actions + [a]) && Reached(actions + [a]) == Perform(Reached(actions), a)
  {
    var longer := actions + [a];
    assert longer[..|longer| - 1] == actions && longer[|longer| - 1] == a;
    assert Execution(longer);
  }

  ghost predicate AllLimitedToOne(actions: seq<Action>) {
    forall j :: 0 <= j < |actions| && actions[j].TakeLock? ==> actions[j].maxOwners == 1
  }

  /** Loading a pipeline and taking a lock that nobody holds. */
  lemma TakeFree(actions: seq<Action>, t: SignalType, p: Pipeline) returns (r: seq<Action>)
    requires Execution(actions) && HasSlice(t) && AllLimitedToOne(actions)
    requires var s := Reached(actions);
             0 !in s.workers && p in KindOf(s, t).versions && Stored(KindOf(s, t).lock).None?
    ensures Execution(r) && AllLimitedToOne(r)
    ensures var s, s' := Reached(actions), Reached(r);
            && KindOf(s', t) == KindOf(s, t).(lock := KindOf(s, t).lock + [Some([OwnerOf(p)])])
            && s'.workers == s.workers[0 := Admitted(t, p)] && s'.config == s.config
  {
    var s := Reached(actions);
    OneMore(actions, Load(0, t, p));
    var a1 := actions + [Load(0, t, p)];
    var take := TakeLock(0, t, |KindOf(s, t).lock| - 1, 1);
    OneMore(a1, take);
    r := a1 + [take];
  }

  lemma Approve(actions: seq<Action>, t: SignalType, p: Pipeline) returns (r: seq<Action>)
    requires Execution(actions) && AllLimitedToOne(actions) && !p.deleting
    requires 0 in Reached(actions).workers && Reached(actions).workers[0] == Admitted(t, p)
    ensures Execution(r) && AllLimitedToOne(r)
    ensures var s, s' := Reached(actions), Reached(r);
            s'.kinds == s.kinds && s'.config == s.config && s'.workers == s.workers[0 := Writing(t, p, map[])]
  {
    OneMore(actions, Validate(0, true, map[]));
    r := actions + [Validate(0, true, map[])];
  }

  /** One undisturbed reconcile of a valid pipeline, from fresh reads, with nobody holding the lock. */
  lemma Admit(actions: seq<Action>, t: SignalType, p: Pipeline) returns (r: seq<Action>)
    requires Execution(actions) && HasSlice(t) && AllLimitedToOne(actions)
    requires var s := Reached(actions);
             && 0 !in s.workers && p in KindOf(s, t).versions && !p.deleting
             && Stored(KindOf(s, t).lock).None? && Parsed(Stored(s.config)).Some?
    ensures Execution(r) && AllLimitedToOne(r)
    ensures var s, s' := Reached(actions), Reached(r);
            && KindOf(s', t) == KindOf(s, t).(lock := KindOf(s, t).lock + [Some([OwnerOf(p)])])
            && 0 !in s'.workers
            && s'.config == s.config + [Some(Document(Apply(Parsed(Stored(s.config)).value,
                                                            Update.Add(t, Reference(p.name, p.generation, map[])))))]
  {
    var a2 := TakeFree(actions, t, p);
    var a3 := Approve(a2, t, p);
    var write := WriteConfig(0, |Reached(actions).config| - 1);
    OneMore(a3, write);
    r := a3 + [write];
  }

  lemma AdmitFirst(p: Pipeline) returns (actions: seq<Action>)
    requires p.generation == 1 && !p.deleting
    ensures Execution(actions) && AllLimitedToOne(actions)
    ensures var s := Reached(actions);
            && 0 !in s.workers && Stored(s.config) == Some(Document(Config([Reference(p.name, 1, map[])], [], [])))
            && KindOf(s, Trace) == Kind([None, Some([OwnerOf(p)])], {p}, map[p.name := p], {})
  {
    var create := Create(Trace, p.name, p.uid, p.spec);
    OneMore([], create);
    assert KindOf(Reached([] + [create]), Trace) == Kind([None], {p}, map[p.name := p], {});
    actions := Admit([] + [create], Trace, p);
  }

  /** Pipeline p is admitted and deleted, q takes its slot, and p is created again. */
  lemma FirstHalf(p: Pipeline) returns (actions: seq<Action>)
    requires p.generation == 1 && !p.deleting
    ensures Execution(actions) && AllLimitedToOne(actions)
    ensures var s := Reached(actions);
            && 0 !in s.workers && Stored(s.config) == Some(Document(Config([Reference(p.name, 1, map[])], [], [])))
            && KindOf(s, Trace).current == map[] && KindOf(s, Trace).versions == {p}
            && Stored(KindOf(s, Trace).lock).None?
  {
    var a1 := AdmitFirst(p);
    OneMore(a1, Delete(Trace, p.name));
    var a2 := a1 + [Delete(Trace, p.name)];
    assert Stored(KindOf(Reached(a2), Trace).lock) == Some([OwnerOf(p)]);
    OneMore(a2, DropLock(Trace));
    actions := a2 + [DropLock(Trace)];
  }

  lemma TwoReferences(x: Reference, y: Reference)
    requires x.name != y.name
    ensures Apply(Config([x], [], []), Update.Add(Trace, y)) == Config([x, y], [], [])
  {
    assert Upserted([x][1..], y) == [y];
  }

  /** Another pipeline takes the freed slot. */
  lemma Successor(p: Pipeline, q: Pipeline) returns (actions: seq<Action>)
    requires p.generation == q.generation == 1 && !p.deleting && !q.deleting && p.name != q.name && p.uid != q.uid
    ensures Execution(actions) && AllLimitedToOne(actions)
    ensures var s, refs := Reached(actions), [Reference(p.name, 1, map[]), Reference(q.name, 1, map[])];
            && KindOf(s, Trace).current == map[q.name := q] && KindOf(s, Trace).versions == {p, q}
            && Stored(s.config) == Some(Document(Config(refs, [], [])))
  {
    var a1 := FirstHalf(p);
    var create := Create(Trace, q.name, q.uid, q.spec);
    OneMore(a1, create);
    actions := Admit(a1 + [create], Trace, q);
    TwoReferences(Reference(p.name, 1, map[]), Reference(q.name, 1, map[]));
  }

  lemma SecondHalf(p: Pipeline, q: Pipeline, again: Pipeline) returns (actions: seq<Action>)
    requires p.generation == q.generation == again.generation == 1 && !p.deleting && !q.deleting && !again.deleting
    requires again.name == p.name != q.name && p.uid != q.uid && again.uid != p.uid && again.uid != q.uid
    ensures Execution(actions) && AllLimitedToOne(actions)
    ensures var s := Reached(actions);
            && {q, again} <= KindOf(s, Trace).versions && KindOf(s, Trace).current == map[q.name := q, p.name := again]
            && ReferencesAt(s, |s.config| - 1, Trace) == [Reference(p.name, 1, map[]), Reference(q.name, 1, map[])]
  {
    var a2 := Successor(p, q);
    OneMore(a2, Create(Trace, again.name, again.uid, again.spec));
    actions := a2 + [Create(Trace, again.name, again.uid, again.spec)];
  }

  lemma BothRendered(k: Kind, p: Pipeline, q: Pipeline, get: Reader)
    requires get(Trace, p.name) == Found(p) && get(Trace, q.name) == Found(q)
    requires p.generation == q.generation == 1 && !p.deleting && !q.deleting
    requires Live(k, OwnerOf(p)) && Live(k, OwnerOf(q))
    ensures Fetched([Reference(p.name, 1, map[]), Reference(q.name, 1, map[])], Trace, get) == Some([p, q])
    ensures LiveOnes(k, [p, q]) == [p, q]
  {
    var refs := [Reference(p.name, 1, map[]), Reference(q.name, 1, map[])];
    assert refs[1..][1..] == [];
    assert Fetched(refs[1..], Trace, get) == Some([q] + []);
    assert Fetched(refs, Trace, get) == Some([p] + ([q] + [])) && [p] + ([q] + []) == [p, q];
    assert [p, q][1..] == [q] && LiveOnes(k, [q][1..]) == [];
    assert LiveOnes(k, [q]) == [q];
    assert LiveOnes(k, [p, q]) == [p] + LiveOnes(k, [p, q][1..]);
  }

  /**
   With a limit of 1 and a name used twice, two live pipelines are rendered: the first
   incarnation's reference survives it and matches the second one, which owns nothing.
   */
  lemma ReusedNameBreaksBound() returns (actions: seq<Action>, get: Reader)
    ensures Execution(actions) && AllLimitedToOne(actions) && CachedReads(Reached(actions), get)
    ensures var s := Reached(actions);
            var rendered := Fetched(ReferencesAt(s, |s.config| - 1, Trace), Trace, get);
            rendered.Some? && |LiveOnes(KindOf(s, Trace), rendered.value)| == 2
  {
    var p, q := Pipeline("p", 2, 1, false, "b"), Pipeline("q", 3, 1, false, "c");
    actions := SecondHalf(Pipeline("p", 1, 1, false, "a"), q, p);
    get := (t, name) =>
      if t == Trace && name == "p" then Found(p)
      else if t == Trace && name == "q" then Found(q) else NotFound;
    BothRendered(KindOf(Reached(actions), Trace), p, q, get);
  }
}
