/**
 Runs of the pipeline lock: any number of lockers with any limits, each working from a stale
 read, interleaved with deletions of pipelines and with the garbage collector. The collector
 removes references to removed pipelines and deletes the lock when no owner is left.
 */
module LockRuns {
  import opened Common
  import opened ApiStore
  import opened ResourceLock

  datatype Step =
    | Acquire(owner: Owner, at: nat, maxOwners: int)
    | RemovePipeline(owner: Owner)
    | DropReferences(dead: set<Owner>)
    | CollectLock

  /** `granted` records every owner for which a call returned nil; `gone` every removed pipeline. */
  datatype State = State(h: LockHistory, gone: set<Owner>, granted: set<Owner>)

  const INITIAL := State([None], {}, {})

  function WithoutOwners(owners: seq<Owner>, dead: set<Owner>): (r: seq<Owner>)
    ensures |r| <= |owners|
    ensures forall p :: p in r <==> p in owners && p !in dead
  {
    if owners == [] then []
    else if owners[0] in dead then WithoutOwners(owners[1..], dead)
    else [owners[0]] + WithoutOwners(owners[1..], dead)
  }

  function Dropped(h: LockHistory, dead: set<Owner>): LockHistory
    requires Stored(h).Some?
  {
    h + [Some(WithoutOwners(Stored(h).value, dead))]
  }

  predicate Collectable(h: LockHistory, gone: set<Owner>) {
    Stored(h).Some? && forall o :: o in Stored(h).value ==> o in gone
  }

  predicate Enabled(s: State, step: Step) {
    match step
    case Acquire(_, at, _) => at < |s.h|
    case RemovePipeline(_) => true
    case DropReferences(dead) => Stored(s.h).Some? && dead <= s.gone
    case CollectLock => Collectable(s.h, s.gone)
  }

  function Next(s: State, step: Step): State
    requires Enabled(s, step)
  {
    match step
    case Acquire(o, at, maxOwners) =>
      var (h, outcome) := TryAcquire(s.h, at, o, maxOwners);
      State(h, s.gone, if outcome == Acquired then s.granted + {o} else s.granted)
    case RemovePipeline(o) => s.(gone := s.gone + {o})
    case DropReferences(dead) => s.(h := Dropped(s.h, dead))
    case CollectLock => s.(h := s.h + [None])
  }

  predicate Run(steps: seq<Step>)
    decreases |steps|, 0
  {
    steps == [] ||
    (Run(steps[..|steps| - 1]) && Enabled(After(steps[..|steps| - 1]), steps[|steps| - 1]))
  }

  function After(steps: seq<Step>): State
    requires Run(steps)
    decreases |steps|, 1
  {
    if steps == [] then INITIAL
    else Next(After(steps[..|steps| - 1]), steps[|steps| - 1])
  }

  // ---------------------------------------------------------------- who is admitted

  /**
   Every outcome of a call, for any stale read. Limit 0 stands for no limit, as -1 does; an owner
   of the version read is told nil without a write; a caller is refused exactly at its limit;
   and what remains succeeds exactly if nothing was written since the read.
   */
  lemma AcquireOutcome(h: LockHistory, at: nat, o: Owner, maxOwners: int)
    requires at < |h|
    ensures var (h', r) := TryAcquire(h, at, o, maxOwners);
            match h[at]
            case None =>
              if Stored(h) == None then r == Acquired && h' == h + [Some([o])] else r == ApiError && h' == h
            case Some(owners) =>
              if o in owners then r == Acquired && h' == h
              else if maxOwners != 0 && maxOwners != -1 && |owners| >= maxOwners
              then r == MaxPipelinesExceeded && h' == h
              else if at == |h| - 1
              then r == Acquired && |h'| == |h| + 1 && h'[..|h|] == h && Holds(Stored(h'), o)
              else r == ApiError && h' == h
  {
  }

  /** With a fresh read: admitted exactly with no lock yet, as an owner, without a limit, or below it. */
  lemma FreshCallAdmittedIff(h: LockHistory, o: Owner, maxOwners: int)
    ensures var r := TryAcquire(h, |h| - 1, o, maxOwners).1;
            && (r == Acquired <==> || Stored(h).None? || o in Stored(h).value
                                   || maxOwners == 0 || maxOwners == -1 || |Stored(h).value| < maxOwners)
            && (r != Acquired ==> r == MaxPipelinesExceeded)
  {
    AcquireOutcome(h, |h| - 1, o, maxOwners);
  }

  /** In every run: a newcomer with a fresh read is granted exactly with no lock yet, no limit, or below the limit. */
  lemma NewcomerGrantedIff(steps: seq<Step>)
    requires steps != [] && Run(steps)
    requires var s, last := After(steps[..|steps| - 1]), steps[|steps| - 1];
             last.Acquire? && last.at == |s.h| - 1 && last.owner !in s.granted
    ensures var s, last := After(steps[..|steps| - 1]), steps[|steps| - 1];
            last.owner in After(steps).granted <==>
            || Stored(s.h).None? || last.maxOwners == 0 || last.maxOwners == -1
            || |Stored(s.h).value| < last.maxOwners
  {
    var before, last := steps[..|steps| - 1], steps[|steps| - 1];
    var s, o := After(before), last.owner;
    RunOwners(before);
    FreshCallAdmittedIff(s.h, o, last.maxOwners);
    assert Holds(Stored(s.h), o) ==> EverHeld(s.h, o);
  }

  // ---------------------------------------------------------------- what every commit keeps

  /** If `o` ever was an owner, it is one still, unless its pipeline was removed. */
  ghost predicate RetainedOwner(h: LockHistory, gone: set<Owner>, o: Owner) {
    EverHeld(h, o) ==> o in gone || Holds(Stored(h), o)
  }

  ghost predicate VersionsDistinct(h: LockHistory) {
    forall i :: 0 <= i < |h| && h[i].Some? ==> OwnerNamesDistinct(h[i].value)
  }

  ghost predicate WithinLimit(h: LockHistory, limit: int) {
    forall i :: 0 <= i < |h| && h[i].Some? ==> |h[i].value| <= limit
  }

  lemma EverHeldAppend(h: LockHistory, version: Option<seq<Owner>>, o: Owner)
    ensures EverHeld(h + [version], o) <==> EverHeld(h, o) || Holds(version, o)
  {
    var h' := h + [version];
    if EverHeld(h, o) {
      var i :| 0 <= i < |h| && Holds(h[i], o);
      assert Holds(h'[i], o);
    }
    if Holds(version, o) {
      assert Holds(h'[|h|], o);
    }
  }

  /** Exactly which owners have ever held the lock after one call. */
  lemma AcquireEverHeld(h: LockHistory, at: nat, o: Owner, maxOwners: int)
    requires at < |h| && VersionsDistinct(h)
    ensures var (h', r) := TryAcquire(h, at, o, maxOwners);
            forall p :: EverHeld(h', p) <==> EverHeld(h, p) || (r == Acquired && p == o)
  {
    var (h', r) := TryAcquire(h, at, o, maxOwners);
    if r == Acquired && h' == h {
      assert Holds(h[at], o);
    }
    if h' != h && h[at].Some? {
      SetOwnerReferenceMembers(h[at].value, o);
    }
    forall p ensures EverHeld(h', p) <==> EverHeld(h, p) || (r == Acquired && p == o) {
      if h' != h {
        EverHeldAppend(h, Stored(h'), p);
        if h[at].Some? && p in h[at].value { assert Holds(h[at], p); }
      }
    }
  }

  /** Distinct names need no hypothesis: SetOwnerReference overwrites a same-name reference. */
  lemma AcquireKeepsDistinct(h: LockHistory, at: nat, o: Owner, maxOwners: int)
    requires at < |h| && VersionsDistinct(h)
    ensures VersionsDistinct(TryAcquire(h, at, o, maxOwners).0)
  {
    if h[at].Some? {
      SetOwnerReferenceMembers(h[at].value, o);
    }
  }

  /** A limited locker never commits an owner count above its limit, and keeps every smaller bound on the count. */
  lemma AcquireWithinLimit(h: LockHistory, at: nat, o: Owner, maxOwners: int, limit: int)
    requires at < |h| && WithinLimit(h, limit)
    requires 1 <= maxOwners <= limit
    ensures WithinLimit(TryAcquire(h, at, o, maxOwners).0, limit)
  {
  }

  lemma {:induction false} WithoutOwnersDistinct(owners: seq<Owner>, dead: set<Owner>)
    requires OwnerNamesDistinct(owners)
    ensures OwnerNamesDistinct(WithoutOwners(owners, dead))
  {
    if owners != [] {
      WithoutOwnersDistinct(owners[1..], dead);
      forall p | p in WithoutOwners(owners[1..], dead) ensures p.name != owners[0].name {
        var j :| 1 <= j < |owners| && owners[j] == p;
      }
    }
  }

  lemma DropKeeps(h: LockHistory, dead: set<Owner>, gone: set<Owner>)
    requires Stored(h).Some? && dead <= gone
    requires VersionsDistinct(h)
    ensures VersionsDistinct(Dropped(h, dead))
    ensures forall o :: EverHeld(Dropped(h, dead), o) <==> EverHeld(h, o)
    ensures forall o :: RetainedOwner(h, gone, o) ==> RetainedOwner(Dropped(h, dead), gone, o)
  {
    var version := Some(WithoutOwners(Stored(h).value, dead));
    WithoutOwnersDistinct(Stored(h).value, dead);
    forall o ensures EverHeld(h + [version], o) <==> EverHeld(h, o) {
      EverHeldAppend(h, version, o);
      if Holds(version, o) { assert Holds(h[|h| - 1], o); }
    }
  }

  lemma CollectKeeps(h: LockHistory, gone: set<Owner>)
    requires Collectable(h, gone) && VersionsDistinct(h)
    ensures VersionsDistinct(h + [None])
    ensures forall o :: EverHeld(h + [None], o) <==> EverHeld(h, o)
    ensures forall o :: RetainedOwner(h, gone, o) ==> RetainedOwner(h + [None], gone, o)
  {
    forall o ensures EverHeld(h + [None], o) <==> EverHeld(h, o) {
      EverHeldAppend(h, None, o);
    }
  }

  /**
   Exactly when a call takes the lock away from an owner: the stored lock holds the same name
   under another UID, not yet the caller itself, and the caller's fresh read is below its limit.
   */
  lemma AcquireEvictsIff(h: LockHistory, at: nat, o: Owner, maxOwners: int, p: Owner)
    requires at < |h| && VersionsDistinct(h) && Holds(Stored(h), p)
    ensures !Holds(Stored(TryAcquire(h, at, o, maxOwners).0), p) <==>
            && p.name == o.name && p.uid != o.uid
            && at == |h| - 1 && !Refuses(|h[at].value|, maxOwners)
  {
    if h[at].Some? {
      SetOwnerReferenceMembers(h[at].value, o);
      if o in h[at].value && p in h[at].value && p.name == o.name {
        assert p == o;
      }
    }
  }

  /** A retained owner stays retained through a call exactly when the call does not evict it alive. */
  lemma AcquireRetains(h: LockHistory, at: nat, o: Owner, maxOwners: int, gone: set<Owner>, p: Owner)
    requires at < |h| && VersionsDistinct(h) && RetainedOwner(h, gone, p)
    ensures RetainedOwner(TryAcquire(h, at, o, maxOwners).0, gone, p) <==>
            !(p !in gone && Holds(Stored(h), p) && !Holds(Stored(TryAcquire(h, at, o, maxOwners).0), p))
  {
    var (h', r) := TryAcquire(h, at, o, maxOwners);
    AcquireEverHeld(h, at, o, maxOwners);
    if Holds(Stored(h), p) { assert EverHeld(h, p); }
    if h' != h && h[at].Some? { SetOwnerReferenceMembers(h[at].value, o); }
    if h' == h && r == Acquired { assert Holds(h[at], o) && EverHeld(h, o); }
  }

  // ---------------------------------------------------------------- every run

  lemma {:induction false} RunOwners(steps: seq<Step>)
    requires Run(steps)
    ensures var s := After(steps);
            VersionsDistinct(s.h) && forall o :: EverHeld(s.h, o) <==> o in s.granted
    ensures forall o :: o in After(steps).granted ==>
              exists i :: 0 <= i < |steps| && steps[i].Acquire? && steps[i].owner == o
  {
    if steps != [] {
      var before, step := steps[..|steps| - 1], steps[|steps| - 1];
      RunOwners(before);
      var s, s' := After(before), After(steps);
      match step {
        case Acquire(o, at, maxOwners) =>
          AcquireEverHeld(s.h, at, o, maxOwners);
          AcquireKeepsDistinct(s.h, at, o, maxOwners);
        case RemovePipeline(_) =>
        case DropReferences(dead) => DropKeeps(s.h, dead, s.gone);
        case CollectLock => CollectKeeps(s.h, s.gone);
      }
      forall o | o in s'.granted ensures exists i :: 0 <= i < |steps| && steps[i].Acquire? && steps[i].owner == o {
        if o in s.granted {
          var i :| 0 <= i < |before| && before[i].Acquire? && before[i].owner == o;
          assert steps[i].Acquire? && steps[i].owner == o;
        } else {
          assert steps[|steps| - 1].Acquire? && steps[|steps| - 1].owner == o;
        }
      }
    }
  }

  /** Every owner that was ever told nil is an owner of the stored lock, unless its pipeline was removed. */
  ghost predicate GrantedStored(s: State) {
    forall o :: o in s.granted && o !in s.gone ==> Holds(Stored(s.h), o)
  }

  /**
   The guard under which a call evicts the live owner `p`, all of it known before the call: it
   works from the stored version, which holds its name under another UID, and is not refused.
   */
  ghost predicate Evicts(s: State, step: Step, p: Owner) {
    && step.Acquire? && step.at == |s.h| - 1
    && Holds(Stored(s.h), p) && p !in s.gone
    && p.name == step.owner.name && p.uid != step.owner.uid
    && !Refuses(|Stored(s.h).value|, step.maxOwners)
  }

  ghost predicate EvictsLiveOwner(s: State, step: Step) {
    exists p :: Evicts(s, step, p)
  }

  ghost predicate AlwaysStored(steps: seq<Step>)
    requires Run(steps)
  {
    GrantedStored(After(steps)) && (steps == [] || AlwaysStored(steps[..|steps| - 1]))
  }

  ghost predicate NeverEvicts(steps: seq<Step>)
    requires Run(steps)
  {
    steps == [] ||
    (NeverEvicts(steps[..|steps| - 1]) && !EvictsLiveOwner(After(steps[..|steps| - 1]), steps[|steps| - 1]))
  }

  lemma StepStoresIff(steps: seq<Step>)
    requires steps != [] && Run(steps) && GrantedStored(After(steps[..|steps| - 1]))
    ensures GrantedStored(After(steps)) <==> !EvictsLiveOwner(After(steps[..|steps| - 1]), steps[|steps| - 1])
  {
    var before, step := steps[..|steps| - 1], steps[|steps| - 1];
    RunOwners(before);
    RunOwners(steps);
    var s, s' := After(before), After(steps);
    match step {
      case Acquire(o, at, maxOwners) =>
        forall p ensures RetainedOwner(s'.h, s'.gone, p) <==> !Evicts(s, step, p) {
          AcquireRetains(s.h, at, o, maxOwners, s.gone, p);
          if Holds(Stored(s.h), p) { AcquireEvictsIff(s.h, at, o, maxOwners, p); }
        }
        forall p | p in s'.granted && p !in s'.gone && !Holds(Stored(s'.h), p) ensures Evicts(s, step, p) {
          assert !RetainedOwner(s'.h, s'.gone, p);
        }
        forall p | Evicts(s, step, p) ensures p in s'.granted && p !in s'.gone && !Holds(Stored(s'.h), p) {
          assert !RetainedOwner(s'.h, s'.gone, p);
        }
      case RemovePipeline(_) =>
      case DropReferences(dead) =>
        DropKeeps(s.h, dead, s.gone);
        forall p | p in s'.granted ensures RetainedOwner(s'.h, s'.gone, p) { assert RetainedOwner(s.h, s.gone, p); }
      case CollectLock =>
        CollectKeeps(s.h, s.gone);
        forall p | p in s'.granted ensures RetainedOwner(s'.h, s'.gone, p) { assert RetainedOwner(s.h, s.gone, p); }
    }
  }

  /**
   Lock safety, exactly: throughout a run every owner that was ever told nil and lives is in
   the stored lock, if and only if no call of the run met the guard of eviction.
   */
  lemma {:induction false} GrantedOwnersStayIff(steps: seq<Step>)
    requires Run(steps)
    ensures AlwaysStored(steps) <==> NeverEvicts(steps)
  {
    if steps != [] {
      GrantedOwnersStayIff(steps[..|steps| - 1]);
      if AlwaysStored(steps[..|steps| - 1]) {
        StepStoresIff(steps);
      }
    }
  }

  /** No two calls of the run name the same pipeline with different UIDs. */
  ghost predicate NamesNotReused(steps: seq<Step>) {
    forall i, j ::
      0 <= i < |steps| && 0 <= j < |steps| && steps[i].Acquire? && steps[j].Acquire? &&
      steps[i].owner.name == steps[j].owner.name
      ==> steps[i].owner == steps[j].owner
  }

  /** Names that are not reused never meet the guard; so in such runs every granted owner stays. */
  lemma {:induction false} GrantedOwnersStay(steps: seq<Step>)
    requires Run(steps) && NamesNotReused(steps)
    ensures NeverEvicts(steps) && GrantedStored(After(steps))
  {
    if steps != [] {
      var before, last := steps[..|steps| - 1], steps[|steps| - 1];
      GrantedOwnersStay(before);
      RunOwners(before);
      if last.Acquire? {
        forall p | Holds(Stored(After(before).h), p) && p.name == last.owner.name ensures p == last.owner {
          assert EverHeld(After(before).h, p);
          var i :| 0 <= i < |before| && before[i].Acquire? && before[i].owner == p;
          assert steps[i].owner == p && steps[|steps| - 1].owner.name == p.name;
        }
      }
      StepStoresIff(steps);
    }
  }

  /** With every locker limited by at most `limit`, the owner count never exceeds it; names may be reused. */
  lemma {:induction false} OwnerCountBounded(steps: seq<Step>, limit: int)
    requires Run(steps)
    requires forall i :: 0 <= i < |steps| && steps[i].Acquire? ==> 1 <= steps[i].maxOwners <= limit
    ensures WithinLimit(After(steps).h, limit)
  {
    if steps != [] {
      var before, step := steps[..|steps| - 1], steps[|steps| - 1];
      OwnerCountBounded(before, limit);
      if step.Acquire? {
        assert 1 <= steps[|steps| - 1].maxOwners <= limit;
        AcquireWithinLimit(After(before).h, step.at, step.owner, step.maxOwners, limit);
      }
    }
  }

  /**
   A limited locker that shares the lock with lockers of any limit: whatever the others did and
   however stale its read, a call of its that adds an owner leaves at most its own limit, and a
   call that meets a stored lock at its limit adds nobody.
   */
  lemma LimitedLockerAmongOthers(steps: seq<Step>)
    requires steps != [] && Run(steps)
    requires var last := steps[|steps| - 1]; last.Acquire? && last.maxOwners >= 1
    ensures var s, s', last := After(steps[..|steps| - 1]), After(steps), steps[|steps| - 1];
            && (s'.h != s.h ==> Stored(s'.h).Some? && |Stored(s'.h).value| <= last.maxOwners)
            && (Stored(s.h).Some? && |Stored(s.h).value| >= last.maxOwners ==> s'.h == s.h)
  {
  }

  /** Name reuse breaks retention: a call made from a stale pipeline evicts its live successor. */
  lemma ReusedNameEvictsLiveOwner()
    ensures exists steps :: Run(steps) && !GrantedStored(After(steps))
  {
    var first, second := Owner("p", 1), Owner("p", 2);
    var s0: seq<Step> := [];
    var s1 := s0 + [RemovePipeline(first)];
    var s2 := s1 + [Acquire(second, 0, MAX_PIPELINE_COUNT)];
    var s3 := s2 + [Acquire(first, 1, MAX_PIPELINE_COUNT)];
    assert Run(s0) && s1[..|s1| - 1] == s0 && s2[..|s2| - 1] == s1 && s3[..|s3| - 1] == s2;
    assert Run(s1) && After(s1) == State([None], {first}, {});
    assert Run(s2) && After(s2) == State([None, Some([second])], {first}, {second});
    assert SetOwnerReference([second], first) == [first];
    assert Run(s3) && After(s3).h == [None, Some([second]), Some([first])];
    assert Run(s3) && second in After(s3).granted && second !in After(s3).gone;
    assert !Holds(Stored(After(s3).h), second);
  }
}
