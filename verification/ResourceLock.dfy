/**
 The pipeline lock of internal/resourcelock: a ConfigMap whose owner references are the
 admitted pipelines, taken with an optimistic read-modify-write and trimmed by the
 Kubernetes garbage collector.
 */
module ResourceLock {
  import opened Common
  import opened ApiStore

  const MAX_PIPELINE_COUNT := 5
  const UNLIMITED_PIPELINE_COUNT := -1
  /** The limit a Syncer is built with; it switches the check off. */
  const NO_LIMIT := 0

  datatype Owner = Owner(name: string, uid: nat)

  /** `nil`, `ErrMaxPipelinesExceeded`, or any other error of the API. */
  datatype Outcome = Acquired | MaxPipelinesExceeded | ApiError

  type LockHistory = History<seq<Owner>>

  predicate CanAddOwner(numOwners: nat, maxOwners: int) {
    maxOwners == UNLIMITED_PIPELINE_COUNT || numOwners < maxOwners
  }

  /** Whether a locker with this limit refuses to add to `numOwners` owners. */
  predicate Refuses(numOwners: nat, maxOwners: int) {
    maxOwners != NO_LIMIT && !CanAddOwner(numOwners, maxOwners)
  }

  /**
   The library call that adds an owner reference. It looks for a reference to the same kind
   and name, whatever its UID, and overwrites that one; only otherwise does it append.
   */
  function SetOwnerReference(owners: seq<Owner>, o: Owner): (r: seq<Owner>)
    ensures |owners| <= |r| <= |owners| + 1
    ensures o in r
  {
    if owners == [] then [o]
    else if owners[0].name == o.name then [o] + owners[1..]
    else [owners[0]] + SetOwnerReference(owners[1..], o)
  }

  /**
   One call of TryAcquireLock: its cached read returned version `at`, and its write, if it
   makes one, reaches the API server while the history is `h`.
   */
  function TryAcquire(h: LockHistory, at: nat, o: Owner, maxOwners: int): (r: (LockHistory, Outcome))
    requires at < |h|
  {
    match h[at]
    case None =>
      if CreateCommits(h) then (h + [Some([o])], Acquired) else (h, ApiError)
    case Some(owners) =>
      if o in owners then (h, Acquired)
      else if Refuses(|owners|, maxOwners) then (h, MaxPipelinesExceeded)
      else if UpdateCommits(h, at) then (h + [Some(SetOwnerReference(owners, o))], Acquired)
      else (h, ApiError)
  }

  // ---------------------------------------------------------------- the code

  /** The lock ConfigMap in the API server. */
  class LockConfigMap {
    var history: LockHistory

    constructor ()
      ensures history == [None]
    {
      history := [None];
    }
  }

  class Checker {
    const lock: LockConfigMap
    const maxOwners: int

    constructor (lock: LockConfigMap, maxOwners: int)
      ensures this.lock == lock && this.maxOwners == maxOwners
    {
      this.lock := lock;
      this.maxOwners := maxOwners;
    }

    /** The loop over the owner references of the version that was read. */
    static method HoldsReference(owners: seq<Owner>, owner: Owner) returns (found: bool)
      ensures found <==> owner in owners
    {
      for i := 0 to |owners|
        invariant owner !in owners[..i]
      {
        if owners[i].name == owner.name && owners[i].uid == owner.uid {
          return true;
        }
      }
      found := false;
    }

    method TryAcquireLock(owner: Owner, at: nat) returns (r: Outcome)
      requires at < |lock.history|
      modifies lock
      ensures (lock.history, r) == TryAcquire(old(lock.history), at, owner, maxOwners)
    {
      if lock.history[at].None? {
        r := CreateLock(owner);
        return;
      }
      var owners := lock.history[at].value;
      var held := HoldsReference(owners, owner);
      if held {
        return Acquired;
      }
      if maxOwners == NO_LIMIT || CanAddOwner(|owners|, maxOwners) {
        var updated := SetOwnerReference(owners, owner);
        if UpdateCommits(lock.history, at) {
          lock.history := lock.history + [Some(updated)];
          return Acquired;
        }
        return ApiError;
      }
      r := MaxPipelinesExceeded;
    }

    method CreateLock(owner: Owner) returns (r: Outcome)
      modifies lock
      ensures if old(CreateCommits(lock.history))
              then r == Acquired && lock.history == old(lock.history) + [Some([owner])]
              else r == ApiError && lock.history == old(lock.history)
    {
      if CreateCommits(lock.history) {
        lock.history := lock.history + [Some([owner])];
        return Acquired;
      }
      r := ApiError;
    }

    /** Reads version `at`; a missing lock is an API error here, not a lock to create. */
    method IsLockHolder(owner: Owner, at: nat) returns (r: Outcome)
      requires at < |lock.history|
      ensures r == Acquired <==> lock.history[at].Some? && owner in lock.history[at].value
      ensures r == ApiError <==> lock.history[at].None?
    {
      if lock.history[at].None? {
        return ApiError;
      }
      var held := HoldsReference(lock.history[at].value, owner);
      r := if held then Acquired else MaxPipelinesExceeded;
    }
  }

  // ---------------------------------------------------------------- one commit

  ghost predicate Holds(version: Option<seq<Owner>>, o: Owner) {
    version.Some? && o in version.value
  }

  /** `o` was an owner at some point of the history. */
  ghost predicate EverHeld(h: LockHistory, o: Owner) {
    exists i :: 0 <= i < |h| && Holds(h[i], o)
  }

  ghost predicate OwnerNamesDistinct(owners: seq<Owner>) {
    forall i, j :: 0 <= i < j < |owners| ==> owners[i].name != owners[j].name
  }

  /** What one SetOwnerReference keeps and drops: exactly a same-name owner with another UID goes. */
  lemma {:induction false} SetOwnerReferenceMembers(owners: seq<Owner>, o: Owner)
    requires OwnerNamesDistinct(owners)
    ensures forall p :: p in SetOwnerReference(owners, o) <==> p == o || (p in owners && p.name != o.name)
    ensures OwnerNamesDistinct(SetOwnerReference(owners, o))
  {
    if owners != [] {
      assert owners == [owners[0]] + owners[1..];
      if owners[0].name != o.name {
        SetOwnerReferenceMembers(owners[1..], o);
      } else {
        forall p ensures p in SetOwnerReference(owners, o) <==> p == o || (p in owners && p.name != o.name) {
          assert p in owners[1..] ==> exists j :: 1 <= j < |owners| && owners[j] == p;
        }
      }
    }
  }
}
