/**
 The admission protocol: any number of reconcile workers for all three pipeline kinds, users
 who create, edit and delete pipelines, and the garbage collector, in any interleaving.

 A worker reads its pipeline, takes the lock, validates, and commits one update of the
 coordination config. Each of these is its own step, and a step that writes names the version
 it was computed from, so the read it rests on may lie any number of steps back.
 */
module Admission {
  import opened Common
  import opened ApiStore
  import opened ResourceLock
  import opened LockRuns
  import opened CoordinationConfig
  import opened Gateway
  import opened PipelineKind

  /** Where a worker stands in Reconcile and doReconcile. */
  datatype Stage =
    | Loaded(t: SignalType, p: Pipeline)
    | Admitted(t: SignalType, p: Pipeline)
    | Writing(t: SignalType, p: Pipeline, secretVersions: map<string, string>)
    | Removing(t: SignalType, name: string)

  /**
   `committed` records the successful config updates, in commit order, and `approved` every
   pipeline version that the validators found reconcilable.
   */
  datatype System = System(
    kinds: map<SignalType, Kind>,
    config: History<Data>,
    workers: map<nat, Stage>,
    committed: seq<Update>,
    approved: set<(SignalType, Pipeline)>)

  const START := System(map[], [None], map[], [], {})

  function KindOf(s: System, t: SignalType): Kind {
    if t in s.kinds then s.kinds[t] else NEW_KIND
  }

  function SetKind(s: System, t: SignalType, k: Kind): System {
    s.(kinds := s.kinds[t := k])
  }

  datatype Action =
    | Load(w: nat, t: SignalType, got: Pipeline)
    | LoadMissing(w: nat, t: SignalType, name: string)
    | TakeLock(w: nat, t: SignalType, at: nat, maxOwners: int)
    | Validate(w: nat, reconcilable: bool, secretVersions: map<string, string>)
    | WriteConfig(w: nat, at: nat)
    | Fail(w: nat)
    | Create(t: SignalType, name: string, uid: nat, spec: string)
    | Edit(t: SignalType, name: string, spec: string)
    | Terminate(t: SignalType, name: string)
    | Delete(t: SignalType, name: string)
    | DropOwners(t: SignalType, dead: set<Owner>)
    | DropLock(t: SignalType)

  predicate Possible(s: System, a: Action) {
    match a
    case Load(w, t, p) => w !in s.workers && HasSlice(t) && p in KindOf(s, t).versions
    case LoadMissing(w, t, _) => w !in s.workers && HasSlice(t)
    case TakeLock(w, t, at, _) =>
      w in s.workers && s.workers[w].Loaded? && s.workers[w].t == t && at < |KindOf(s, t).lock|
    // A pipeline that is being deleted is never reconcilable.
    case Validate(w, reconcilable, _) =>
      w in s.workers && s.workers[w].Admitted? && (s.workers[w].p.deleting ==> !reconcilable)
    case WriteConfig(w, at) => w in s.workers && (s.workers[w].Writing? || s.workers[w].Removing?) && at < |s.config|
    case Fail(w) => w in s.workers
    case Create(t, name, uid, _) => HasSlice(t) && CanCreate(KindOf(s, t), name, uid)
    case Edit(t, name, _) => name in KindOf(s, t).current
    case Terminate(t, name) => name in KindOf(s, t).current
    case Delete(t, name) => name in KindOf(s, t).current
    case DropOwners(t, dead) => Stored(KindOf(s, t).lock).Some? && dead <= KindOf(s, t).gone
    case DropLock(t) => Collectable(KindOf(s, t).lock, KindOf(s, t).gone)
  }

  function Intent(stage: Stage): Update
    requires stage.Writing? || stage.Removing?
  {
    match stage
    case Writing(t, p, versions) => Update.Add(t, Reference(p.name, p.generation, versions))
    case Removing(t, name) => Remove(t, name)
  }

  function Perform(s: System, a: Action): System
    requires Possible(s, a)
  {
    match a
    case Load(w, t, p) => s.(workers := s.workers[w := Loaded(t, p)])
    case LoadMissing(w, t, name) => s.(workers := s.workers[w := Removing(t, name)])
    case TakeLock(w, t, at, maxOwners) =>
      var p := s.workers[w].p;
      var outcome := TryAcquire(KindOf(s, t).lock, at, OwnerOf(p), maxOwners).1;
      SetKind(s, t, Locked(KindOf(s, t), OwnerOf(p), at, maxOwners)).(
        workers := if outcome == Acquired then s.workers[w := Admitted(t, p)] else s.workers - {w})
    case Validate(w, reconcilable, versions) =>
      var Admitted(t, p) := s.workers[w];
      s.(workers := s.workers[w := if reconcilable then Writing(t, p, versions) else Removing(t, p.name)],
         approved := if reconcilable then s.approved + {(t, p)} else s.approved)
    case WriteConfig(w, at) =>
      var u := Intent(s.workers[w]);
      var (config, ok) := Commit(s.config, at, u);
      s.(config := config, committed := if ok then s.committed + [u] else s.committed, workers := s.workers - {w})
    case Fail(w) => s.(workers := s.workers - {w})
    case Create(t, name, uid, spec) => SetKind(s, t, Created(KindOf(s, t), name, uid, spec))
    case Edit(t, name, spec) => SetKind(s, t, Edited(KindOf(s, t), name, spec))
    case Terminate(t, name) => SetKind(s, t, Terminating(KindOf(s, t), name))
    case Delete(t, name) => SetKind(s, t, Deleted(KindOf(s, t), name))
    case DropOwners(t, dead) => SetKind(s, t, KindOf(s, t).(lock := Dropped(KindOf(s, t).lock, dead)))
    case DropLock(t) => SetKind(s, t, KindOf(s, t).(lock := KindOf(s, t).lock + [None]))
  }

  predicate Execution(actions: seq<Action>)
    decreases |actions|, 0
  {
    actions == [] ||
    (Execution(actions[..|actions| - 1]) && Possible(Reached(actions[..|actions| - 1]), actions[|actions| - 1]))
  }

  function Reached(actions: seq<Action>): System
    requires Execution(actions)
    decreases |actions|, 1
  {
    if actions == [] then START
    else Perform(Reached(actions[..|actions| - 1]), actions[|actions| - 1])
  }

  // ---------------------------------------------------------------- invariants

  ghost predicate KindInv(k: Kind) {
    ObjectsInv(k) && LockInv(k)
  }

  /**
   A worker acts for a stored version of a pipeline and, once admitted, for a lock owner; what
   it is about to write was approved.
   */
  ghost predicate StageInv(s: System, stage: Stage) {
    && HasSlice(stage.t)
    && (!stage.Removing? ==> stage.p in KindOf(s, stage.t).versions)
    && (stage.Admitted? || stage.Writing? ==> EverHeld(KindOf(s, stage.t).lock, OwnerOf(stage.p)))
    && (stage.Writing? ==> !stage.p.deleting && (stage.t, stage.p) in s.approved)
  }

  ghost predicate WorkersInv(s: System) {
    forall w :: w in s.workers ==> StageInv(s, s.workers[w])
  }

  /** `p` is a version that the validators approved for a lock owner, and `x` refers to it. */
  ghost predicate VouchedBy(s: System, t: SignalType, x: Reference, p: Pipeline) {
    && (t, p) in s.approved && !p.deleting && p.name == x.name && p.generation == x.generation
    && p in KindOf(s, t).versions && EverHeld(KindOf(s, t).lock, OwnerOf(p))
  }

  ghost predicate Vouched(s: System, t: SignalType, x: Reference) {
    exists p :: VouchedBy(s, t, x, p)
  }

  ghost predicate UpdateInv(s: System, u: Update) {
    HasSlice(u.signal) && (u.Add? ==> Vouched(s, u.signal, u.ref))
  }

  ghost predicate CommittedInv(s: System) {
    forall u :: u in s.committed ==> UpdateInv(s, u)
  }

  ghost predicate Grows(s: System, s': System) {
    && s.approved <= s'.approved
    && forall t ::
         && KindOf(s, t).versions <= KindOf(s', t).versions
         && forall o :: EverHeld(KindOf(s, t).lock, o) ==> EverHeld(KindOf(s', t).lock, o)
  }

  lemma NewKindInv()
    ensures KindInv(NEW_KIND) && forall o :: RetainedOwner(NEW_KIND.lock, NEW_KIND.gone, o)
  {
  }

  /** What any step does to a kind: its invariant holds, nothing is forgotten, live owners stay. */
  ghost predicate Progress(k: Kind, k': Kind) {
    && KindInv(k') && k.versions <= k'.versions
    && (forall o :: EverHeld(k.lock, o) ==> EverHeld(k'.lock, o))
    && (forall o :: RetainedOwner(k.lock, k.gone, o) && SoleBearer(k', o.name) ==> RetainedOwner(k'.lock, k'.gone, o))
  }

  lemma SameObjects(k: Kind, k': Kind)
    requires ObjectsInv(k) && k' == k.(lock := k'.lock)
    ensures ObjectsInv(k')
  {
    forall o ensures Live(k', o) <==> Live(k, o) {}
    forall o | KnownOwner(k, o) ensures KnownOwner(k', o) {
      var p :| p in k.versions && OwnerOf(p) == o;
      assert p in k'.versions;
    }
  }

  lemma LockProgress(k: Kind, p: Pipeline, at: nat, maxOwners: int)
    requires KindInv(k) && p in k.versions && at < |k.lock|
    ensures Progress(k, Locked(k, OwnerOf(p), at, maxOwners))
  {
    var k' := Locked(k, OwnerOf(p), at, maxOwners);
    SameObjects(k, k');
    LockKeeps(k, p, at, maxOwners);
    forall o | RetainedOwner(k.lock, k.gone, o) && SoleBearer(k', o.name) ensures RetainedOwner(k'.lock, k'.gone, o) {
      assert SoleBearer(k, o.name);
      LockRetains(k, p, at, maxOwners, o);
    }
  }

  lemma ObjectsProgress(k: Kind, k': Kind)
    requires KindInv(k) && ObjectsInv(k') && k'.lock == k.lock
    requires k.versions <= k'.versions && k.gone <= k'.gone
    ensures Progress(k, k')
  {
    MoreVersionsKeepLockInv(k, k');
  }

  /** Replacing the lock by one that forgets and invents nobody. */
  lemma CollectorProgress(k: Kind, lock: LockHistory)
    requires KindInv(k) && VersionsDistinct(lock)
    requires forall o :: EverHeld(lock, o) <==> EverHeld(k.lock, o)
    requires forall o :: RetainedOwner(k.lock, k.gone, o) ==> RetainedOwner(lock, k.gone, o)
    ensures Progress(k, k.(lock := lock))
  {
    var k' := k.(lock := lock);
    SameObjects(k, k');
    forall o | EverHeld(lock, o) ensures KnownOwner(k', o) {
      var p :| p in k.versions && OwnerOf(p) == o;
      assert p in k'.versions;
    }
  }

  lemma DropProgress(k: Kind, dead: set<Owner>)
    requires KindInv(k) && Stored(k.lock).Some? && dead <= k.gone
    ensures Progress(k, k.(lock := Dropped(k.lock, dead)))
  {
    DropKeeps(k.lock, dead, k.gone);
    CollectorProgress(k, Dropped(k.lock, dead));
  }

  lemma CollectProgress(k: Kind)
    requires KindInv(k) && Collectable(k.lock, k.gone)
    ensures Progress(k, k.(lock := k.lock + [None]))
  {
    CollectKeeps(k.lock, k.gone);
    CollectorProgress(k, k.lock + [None]);
  }

  lemma UpdateProgress(k: Kind, p: Pipeline)
    requires KindInv(k) && p.name in k.current && p.uid == k.current[p.name].uid
    requires p.generation == k.current[p.name].generation + 1
    ensures Progress(k, Put(k, p))
  {
    UpdateKeeps(k, p);
    ObjectsProgress(k, Put(k, p));
  }

  lemma CreateProgress(k: Kind, name: string, uid: nat, spec: string)
    requires KindInv(k) && CanCreate(k, name, uid)
    ensures Progress(k, Created(k, name, uid, spec))
  {
    CreateKeeps(k, name, uid, spec);
    ObjectsProgress(k, Created(k, name, uid, spec));
  }

  lemma DeleteProgress(k: Kind, name: string)
    requires KindInv(k) && name in k.current
    ensures Progress(k, Deleted(k, name))
  {
    DeleteKeeps(k, name);
    ObjectsProgress(k, Deleted(k, name));
  }

  /** What users and the collector may do to a kind. */
  ghost predicate Changes(a: Action, k: Kind, k': Kind) {
    match a
    case Create(_, name, uid, spec) => CanCreate(k, name, uid) && k' == Created(k, name, uid, spec)
    case Edit(_, name, spec) => name in k.current && k' == Edited(k, name, spec)
    case Terminate(_, name) => name in k.current && k' == Terminating(k, name)
    case Delete(_, name) => name in k.current && k' == Deleted(k, name)
    case DropOwners(_, dead) => Stored(k.lock).Some? && dead <= k.gone && k' == k.(lock := Dropped(k.lock, dead))
    case DropLock(_) => Collectable(k.lock, k.gone) && k' == k.(lock := k.lock + [None])
    case _ => false
  }

  lemma ChangeProgress(a: Action, k: Kind, k': Kind)
    requires KindInv(k) && Changes(a, k, k')
    ensures Progress(k, k')
  {
    match a
    case Create(_, name, uid, spec) => CreateProgress(k, name, uid, spec);
    case Edit(_, name, spec) =>
      UpdateProgress(k, k.current[name].(generation := k.current[name].generation + 1, spec := spec));
    case Terminate(_, name) =>
      UpdateProgress(k, k.current[name].(generation := k.current[name].generation + 1, deleting := true));
    case Delete(_, name) => DeleteProgress(k, name);
    case DropOwners(_, dead) => DropProgress(k, dead);
    case DropLock(_) => CollectProgress(k);
  }

  /** The kind a step may change, and what it becomes. */
  lemma KindChange(s: System, a: Action, t: SignalType)
    requires Possible(s, a)
    ensures var k, k' := KindOf(s, t), KindOf(Perform(s, a), t);
            || k' == k
            || Changes(a, k, k')
            || (a.TakeLock? && a.t == t && k' == Locked(k, OwnerOf(s.workers[a.w].p), a.at, a.maxOwners))
  {
  }

  lemma KindStep(s: System, a: Action, t: SignalType)
    requires Possible(s, a) && KindInv(KindOf(s, t)) && WorkersInv(s)
    ensures Progress(KindOf(s, t), KindOf(Perform(s, a), t))
  {
    var k, k' := KindOf(s, t), KindOf(Perform(s, a), t);
    KindChange(s, a, t);
    if Changes(a, k, k') {
      ChangeProgress(a, k, k');
    } else if k' != k {
      assert StageInv(s, s.workers[a.w]);
      LockProgress(k, s.workers[a.w].p, a.at, a.maxOwners);
    }
  }

  lemma VouchedGrows(s: System, s': System, t: SignalType, x: Reference)
    requires Grows(s, s') && Vouched(s, t, x)
    ensures Vouched(s', t, x)
  {
    var p :| VouchedBy(s, t, x, p);
    assert VouchedBy(s', t, x, p);
  }

  lemma StageGrows(s: System, s': System, stage: Stage)
    requires Grows(s, s') && StageInv(s, stage)
    ensures StageInv(s', stage)
  {
  }

  /** A worker that acquired the lock acts for an owner. */
  lemma AdmittedStep(s: System, a: Action)
    requires a.TakeLock? && Possible(s, a) && StageInv(s, s.workers[a.w]) && KindInv(KindOf(s, a.t))
    requires a.w in Perform(s, a).workers
    ensures StageInv(Perform(s, a), Perform(s, a).workers[a.w])
  {
    LockKeeps(KindOf(s, a.t), s.workers[a.w].p, a.at, a.maxOwners);
  }

  /** The one worker whose stage the step changes. */
  lemma ActorStep(s: System, a: Action, w: nat)
    requires Possible(s, a) && w in Perform(s, a).workers
    requires w !in s.workers || Perform(s, a).workers[w] != s.workers[w]
    requires w in s.workers ==> StageInv(s, s.workers[w])
    requires a.TakeLock? ==> KindInv(KindOf(s, a.t))
    ensures StageInv(Perform(s, a), Perform(s, a).workers[w])
  {
    match a
    case TakeLock(_, _, _, _) => AdmittedStep(s, a);
    case Load(_, _, _) =>
    case LoadMissing(_, _, _) =>
    case Validate(_, _, _) =>
    case _ =>
  }

  lemma WorkersStep(s: System, a: Action)
    requires Possible(s, a) && WorkersInv(s) && Grows(s, Perform(s, a))
    requires a.TakeLock? ==> KindInv(KindOf(s, a.t))
    ensures WorkersInv(Perform(s, a))
  {
    var s' := Perform(s, a);
    forall w | w in s'.workers ensures StageInv(s', s'.workers[w]) {
      if w in s.workers && s'.workers[w] == s.workers[w] {
        StageGrows(s, s', s.workers[w]);
      } else {
        ActorStep(s, a, w);
      }
    }
  }

  lemma CommittedStep(s: System, a: Action)
    requires Possible(s, a) && WorkersInv(s) && CommittedInv(s) && Grows(s, Perform(s, a))
    ensures CommittedInv(Perform(s, a))
  {
    var s' := Perform(s, a);
    forall u | u in s'.committed ensures UpdateInv(s', u) {
      if u in s.committed {
        if u.Add? { VouchedGrows(s, s', u.signal, u.ref); }
      } else {
        var stage := s.workers[a.w];
        if stage.Writing? { assert VouchedBy(s', stage.t, u.ref, stage.p); }
      }
    }
  }

  lemma {:induction false} RunInv(actions: seq<Action>)
    requires Execution(actions)
    ensures var s := Reached(actions); (forall t :: KindInv(KindOf(s, t))) && WorkersInv(s) && CommittedInv(s)
  {
    if actions == [] {
      NewKindInv();
    } else {
      var before, a := actions[..|actions| - 1], actions[|actions| - 1];
      RunInv(before);
      var s, s' := Reached(before), Reached(actions);
      forall t
        ensures && KindInv(KindOf(s', t)) && KindOf(s, t).versions <= KindOf(s', t).versions
                && forall o :: EverHeld(KindOf(s, t).lock, o) ==> EverHeld(KindOf(s', t).lock, o)
      {
        KindStep(s, a, t);
      }
      WorkersStep(s, a);
      CommittedStep(s, a);
    }
  }

  /** In every run, an owner whose name had one bearer stays in the stored lock until its pipeline is gone. */
  lemma {:induction false} RunRetainsOwner(actions: seq<Action>, t: SignalType, o: Owner)
    requires Execution(actions) && SoleBearer(KindOf(Reached(actions), t), o.name)
    ensures RetainedOwner(KindOf(Reached(actions), t).lock, KindOf(Reached(actions), t).gone, o)
  {
    if actions == [] {
      NewKindInv();
    } else {
      var before, a := actions[..|actions| - 1], actions[|actions| - 1];
      RunInv(before);
      KindStep(Reached(before), a, t);
      assert SoleBearer(KindOf(Reached(before), t), o.name);
      RunRetainsOwner(before, t, o);
    }
  }

  // ---------------------------------------------------------------- no lost updates

  ghost predicate AllHaveSlice(log: seq<Update>) {
    forall u :: u in log ==> HasSlice(u.signal)
  }

  /** The stored config is the fold of the committed updates, and so was every earlier version. */
  ghost predicate IsFold(config: History<Data>, committed: seq<Update>) {
    && AllHaveSlice(committed)
    && |config| == |committed| + 1 && config[0] == None
    && forall i :: 1 <= i < |config| ==> config[i] == Some(Document(Fold(committed[..i])))
  }

  lemma StoredIsFold(config: History<Data>, committed: seq<Update>)
    requires IsFold(config, committed)
    ensures Parsed(Stored(config)) == Some(Fold(committed))
  {
    assert committed[..|committed|] == committed;
  }

  /** A commit that succeeds appends exactly its own update, whatever version it started from. */
  lemma CommitFolds(config: History<Data>, committed: seq<Update>, at: nat, u: Update)
    requires IsFold(config, committed) && at < |config|
    ensures var (config', ok) := Commit(config, at, u);
            IsFold(config', if ok then committed + [u] else committed)
  {
    var (config', ok) := Commit(config, at, u);
    if ok {
      var committed' := committed + [u];
      StoredIsFold(config, committed);
      if config[at].None? {
        assert at == 0 && |config| == 1;
      }
      assert committed'[..|committed'| - 1] == committed && committed'[..|committed'|] == committed';
      assert Fold(committed') == Apply(Fold(committed), u);
      forall i | 1 <= i < |config'| ensures config'[i] == Some(Document(Fold(committed'[..i]))) {
        if i < |config| { assert committed'[..i] == committed[..i]; }
      }
    }
  }

  /**
   What a worker decides is what it commits: an approved pipeline ends with its reference at its
   generation, a rejected one and one that is gone with none, and no other entry changes.
   */
  lemma DecisionReachesConfig(s: System, w: nat, reconcilable: bool, versions: map<string, string>, t: SignalType,
                              name: string)
    requires Possible(s, Validate(w, reconcilable, versions)) && HasSlice(s.workers[w].t) && HasSlice(t)
    requires Parsed(Stored(s.config)).Some?
    ensures var p := s.workers[w].p;
            var s1 := Perform(s, Validate(w, reconcilable, versions));
            && Possible(s1, WriteConfig(w, |s.config| - 1))
            && var s2 := Perform(s1, WriteConfig(w, |s.config| - 1));
               && Parsed(Stored(s2.config)).Some? && w !in s2.workers
               && Lookup(Parsed(Stored(s2.config)).value, t, name) ==
                  if t != s.workers[w].t || name != p.name then Lookup(Parsed(Stored(s.config)).value, t, name)
                  else if reconcilable then Some(Reference(p.name, p.generation, versions)) else None
  {
    var p, config := s.workers[w].p, Parsed(Stored(s.config)).value;
    ApplyLookup(config, Update.Add(s.workers[w].t, Reference(p.name, p.generation, versions)), t, name);
    ApplyLookup(config, Remove(s.workers[w].t, p.name), t, name);
  }

  lemma MissingReachesConfig(s: System, w: nat, kind: SignalType, gone: string, t: SignalType, name: string)
    requires Possible(s, LoadMissing(w, kind, gone)) && HasSlice(t) && Parsed(Stored(s.config)).Some?
    ensures var s1 := Perform(s, LoadMissing(w, kind, gone));
            && Possible(s1, WriteConfig(w, |s.config| - 1))
            && var s2 := Perform(s1, WriteConfig(w, |s.config| - 1));
               && Parsed(Stored(s2.config)).Some?
               && Lookup(Parsed(Stored(s2.config)).value, t, name) ==
                  if t != kind || name != gone then Lookup(Parsed(Stored(s.config)).value, t, name) else None
  {
    ApplyLookup(Parsed(Stored(s.config)).value, Remove(kind, gone), t, name);
  }

  lemma {:induction false} NoLostUpdates(actions: seq<Action>)
    requires Execution(actions)
    ensures IsFold(Reached(actions).config, Reached(actions).committed)
  {
    if actions != [] {
      var before, a := actions[..|actions| - 1], actions[|actions| - 1];
      NoLostUpdates(before);
      var s := Reached(before);
      if a.WriteConfig? {
        CommitFolds(s.config, s.committed, a.at, Intent(s.workers[a.w]));
      }
    }
  }
}
