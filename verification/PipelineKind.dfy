/**
 One pipeline kind in the cluster: its objects, its lock, and what happens to them. Every
 version an object ever had is kept, because a cached Get can return any of them; it can
 also miss any object, since each was absent at first.
 */
module PipelineKind {
  import opened Common
  import opened ApiStore
  import opened ResourceLock
  import opened LockRuns
  import opened Gateway

  /** `versions` are all stored versions ever, `gone` the owners whose pipeline was removed. */
  datatype Kind = Kind(lock: LockHistory, versions: set<Pipeline>, current: map<string, Pipeline>, gone: set<Owner>)

  const NEW_KIND := Kind([None], {}, map[], {})

  function OwnerOf(p: Pipeline): Owner {
    Owner(p.name, p.uid)
  }

  predicate Live(k: Kind, o: Owner) {
    o.name in k.current && k.current[o.name].uid == o.uid
  }

  // ---------------------------------------------------------------- changes of pipelines

  function Put(k: Kind, p: Pipeline): Kind {
    k.(versions := k.versions + {p}, current := k.current[p.name := p])
  }

  /** A new object gets a UID no object ever had; its generation starts at 1. */
  predicate CanCreate(k: Kind, name: string, uid: nat) {
    name !in k.current && forall p :: p in k.versions ==> p.uid != uid
  }

  function Created(k: Kind, name: string, uid: nat, spec: string): Kind {
    Put(k, Pipeline(name, uid, 1, false, spec))
  }

  /** An edit bumps the generation. */
  function Edited(k: Kind, name: string, spec: string): Kind
    requires name in k.current
  {
    var p := k.current[name];
    Put(k, p.(generation := p.generation + 1, spec := spec))
  }

  /** A graceful deletion sets the deletion timestamp and bumps the generation. */
  function Terminating(k: Kind, name: string): Kind
    requires name in k.current
  {
    var p := k.current[name];
    Put(k, p.(generation := p.generation + 1, deleting := true))
  }

  function Deleted(k: Kind, name: string): Kind
    requires name in k.current
  {
    k.(current := k.current - {name}, gone := k.gone + {OwnerOf(k.current[name])})
  }

  function Locked(k: Kind, o: Owner, at: nat, maxOwners: int): Kind
    requires at < |k.lock|
  {
    k.(lock := TryAcquire(k.lock, at, o, maxOwners).0)
  }

  // ---------------------------------------------------------------- invariants

  ghost predicate KnownOwner(k: Kind, o: Owner) {
    exists p :: p in k.versions && OwnerOf(p) == o
  }

  ghost predicate Keyed(k: Kind) {
    forall n :: n in k.current ==> k.current[n].name == n && k.current[n] in k.versions
  }

  /** A UID and a generation identify the whole object, and the live version is the newest. */
  ghost predicate GenerationsIdentify(k: Kind) {
    && (forall p, q ::
        p in k.versions && q in k.versions && OwnerOf(p) == OwnerOf(q) && p.generation == q.generation
        ==> p == q)
    && (forall p :: p in k.versions && Live(k, OwnerOf(p)) ==> p.generation <= k.current[p.name].generation)
  }

  /** Every pipeline that ever existed is either live or gone, never both. */
  ghost predicate Accounted(k: Kind) {
    && (forall p :: p in k.versions ==> (OwnerOf(p) in k.gone <==> !Live(k, OwnerOf(p))))
    && (forall o :: o in k.gone ==> KnownOwner(k, o))
  }

  ghost predicate ObjectsInv(k: Kind) {
    Keyed(k) && GenerationsIdentify(k) && Accounted(k)
  }

  ghost predicate LockInv(k: Kind) {
    VersionsDistinct(k.lock) && forall o :: EverHeld(k.lock, o) ==> KnownOwner(k, o)
  }

  /** Only one pipeline ever had this name. */
  ghost predicate SoleBearer(k: Kind, name: string) {
    forall p, q :: p in k.versions && q in k.versions && p.name == q.name == name ==> p.uid == q.uid
  }

  /** Storing a version newer than all others of its pipeline keeps versions identified. */
  lemma PutIdentifies(k: Kind, p: Pipeline)
    requires GenerationsIdentify(k)
    requires forall q :: q in k.versions && OwnerOf(q) == OwnerOf(p) ==> q.generation < p.generation
    ensures GenerationsIdentify(Put(k, p))
  {
    var k' := Put(k, p);
    forall q | q in k'.versions && Live(k', OwnerOf(q)) ensures q.generation <= k'.current[q.name].generation {
      if q.name != p.name {
        assert Live(k, OwnerOf(q));
      }
    }
  }

  lemma PutAccounts(k: Kind, p: Pipeline)
    requires Accounted(k)
    requires OwnerOf(p) !in k.gone && (p.name in k.current ==> k.current[p.name].uid == p.uid)
    requires p.name !in k.current ==> forall q :: q in k.versions ==> q.uid != p.uid
    ensures Accounted(Put(k, p))
  {
    var k' := Put(k, p);
    forall o | o in k.gone ensures KnownOwner(k', o) {
      var q :| q in k.versions && OwnerOf(q) == o;
      assert q in k'.versions;
    }
    forall q | q in k'.versions ensures OwnerOf(q) in k'.gone <==> !Live(k', OwnerOf(q)) {
      if q in k.versions {
        assert Live(k', OwnerOf(q)) <==> Live(k, OwnerOf(q));
      }
    }
  }

  lemma CreateKeeps(k: Kind, name: string, uid: nat, spec: string)
    requires ObjectsInv(k) && CanCreate(k, name, uid)
    ensures ObjectsInv(Created(k, name, uid, spec))
  {
    var p := Pipeline(name, uid, 1, false, spec);
    PutIdentifies(k, p);
    PutAccounts(k, p);
  }

  /** A change of a live object that raises its generation and keeps its identity. */
  lemma UpdateKeeps(k: Kind, p: Pipeline)
    requires ObjectsInv(k) && p.name in k.current && p.uid == k.current[p.name].uid
    requires p.generation == k.current[p.name].generation + 1
    ensures ObjectsInv(Put(k, p))
  {
    assert Live(k, OwnerOf(p)) && OwnerOf(k.current[p.name]) == OwnerOf(p);
    PutIdentifies(k, p);
    PutAccounts(k, p);
  }

  lemma DeleteKeeps(k: Kind, name: string)
    requires ObjectsInv(k) && name in k.current
    ensures ObjectsInv(Deleted(k, name))
  {
    var k' := Deleted(k, name);
    var p := k.current[name];
    assert p in k.versions && OwnerOf(p) in k'.gone;
    forall o ensures Live(k', o) <==> Live(k, o) && o != OwnerOf(p) {}
    forall o | o in k'.gone ensures KnownOwner(k', o) {
      if o != OwnerOf(p) {
        var q :| q in k.versions && OwnerOf(q) == o;
        assert q in k'.versions;
      }
    }
  }

  /** Adding versions of objects leaves the lock's invariant alone. */
  lemma MoreVersionsKeepLockInv(k: Kind, k': Kind)
    requires LockInv(k) && k'.lock == k.lock && k.versions <= k'.versions
    ensures LockInv(k')
  {
    forall o | EverHeld(k.lock, o) ensures KnownOwner(k', o) {
      var p :| p in k.versions && OwnerOf(p) == o;
      assert p in k'.versions;
    }
  }

  lemma LockKeeps(k: Kind, p: Pipeline, at: nat, maxOwners: int)
    requires LockInv(k) && p in k.versions && at < |k.lock|
    ensures var k' := Locked(k, OwnerOf(p), at, maxOwners);
            && LockInv(k')
            && (forall o :: EverHeld(k.lock, o) ==> EverHeld(k'.lock, o))
            && (TryAcquire(k.lock, at, OwnerOf(p), maxOwners).1 == Acquired ==> EverHeld(k'.lock, OwnerOf(p)))
  {
    AcquireEverHeld(k.lock, at, OwnerOf(p), maxOwners);
    AcquireKeepsDistinct(k.lock, at, OwnerOf(p), maxOwners);
    var k' := Locked(k, OwnerOf(p), at, maxOwners);
    forall o | EverHeld(k'.lock, o) ensures KnownOwner(k', o) {
      if EverHeld(k.lock, o) {
        var q :| q in k.versions && OwnerOf(q) == o;
        assert q in k'.versions;
      } else {
        assert p in k'.versions && OwnerOf(p) == o;
      }
    }
  }

  /** No call evicts an owner whose name had one bearer, whatever happens to other names. */
  lemma LockRetains(k: Kind, p: Pipeline, at: nat, maxOwners: int, o: Owner)
    requires LockInv(k) && p in k.versions && at < |k.lock| && SoleBearer(k, o.name)
    requires RetainedOwner(k.lock, k.gone, o)
    ensures RetainedOwner(Locked(k, OwnerOf(p), at, maxOwners).lock, k.gone, o)
  {
    AcquireRetains(k.lock, at, OwnerOf(p), maxOwners, k.gone, o);
    if Holds(Stored(k.lock), o) {
      assert EverHeld(k.lock, o);
      var q :| q in k.versions && OwnerOf(q) == o;
      AcquireEvictsIff(k.lock, at, OwnerOf(p), maxOwners, o);
    }
  }
}
