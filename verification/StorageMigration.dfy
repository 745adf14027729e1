/**
 The storage version migrator of internal/storagemigration. It rewrites every stored object,
 then tells the API server that v1alpha1 is gone, while users keep creating, changing and
 deleting objects and any API call may fail.

 Assumed of the API server: every write stores the object at v1beta1, and a List returns at
 least every object still stored at v1alpha1. Reads of CRDs may be stale.
 */
module StorageMigration {
  import opened Common

  const OLD_VERSION := "v1alpha1"
  const STORAGE_VERSION := "v1beta1"

  datatype Crd = LogPipelines | MetricPipelines | TracePipelines | Telemetries

  /** The order of pipelineCRDs with the Telemetry CRD appended. */
  const ALL_CRDS: seq<Crd> := [LogPipelines, MetricPipelines, TracePipelines, Telemetries]

  datatype StoredObject = StoredObject(version: string, resourceVersion: nat)

  datatype CrdState = CrdState(storedVersions: seq<string>, objects: map<NamespacedName, StoredObject>)

  type Cluster = map<Crd, CrdState>

  function At(c: Cluster, k: Crd): CrdState {
    if k in c then c[k] else CrdState([], map[])
  }

  predicate ListsOld(c: Cluster, k: Crd) {
    OLD_VERSION in At(c, k).storedVersions
  }

  predicate StoredOld(c: Cluster, k: Crd, n: NamespacedName) {
    n in At(c, k).objects && At(c, k).objects[n].version == OLD_VERSION
  }

  predicate Lists(c: Cluster, k: Crd, v: string) {
    v in At(c, k).storedVersions
  }

  /** Every CRD lists the version of every object it stores, and the one at which it stores. */
  ghost predicate Safe(c: Cluster) {
    && (forall k, n :: n in At(c, k).objects ==> Lists(c, k, At(c, k).objects[n].version))
    && forall k :: Lists(c, k, STORAGE_VERSION)
  }

  // ---------------------------------------------------------------- what others do

  datatype UserAction =
    | Create(k: Crd, n: NamespacedName)
    | Change(k: Crd, n: NamespacedName)
    | Delete(k: Crd, n: NamespacedName)

  function Written(c: Cluster, k: Crd, n: NamespacedName): Cluster {
    var rv := if n in At(c, k).objects then At(c, k).objects[n].resourceVersion + 1 else 0;
    c[k := At(c, k).(objects := At(c, k).objects[n := StoredObject(STORAGE_VERSION, rv)])]
  }

  function Acted(c: Cluster, a: UserAction): Cluster {
    match a
    case Create(k, n) => if n in At(c, k).objects then c else Written(c, k, n)
    case Change(k, n) => if n in At(c, k).objects then Written(c, k, n) else c
    case Delete(k, n) => c[k := At(c, k).(objects := At(c, k).objects - {n})]
  }

  ghost predicate NoneListsOld(c: Cluster) {
    forall k :: "v1alpha1" !in At(c, k).storedVersions
  }

  lemma Unlisted(c: Cluster)
    requires forall k :: !ListsOld(c, k)
    ensures NoneListsOld(c)
  {
    forall k ensures "v1alpha1" !in At(c, k).storedVersions {
      assert !ListsOld(c, k);
    }
  }

  /** Others create what is missing, change and delete what is there, and write v1beta1. */
  lemma ActedExactly(c: Cluster, a: UserAction, k: Crd, n: NamespacedName)
    ensures var before, after := At(c, k).objects, At(Acted(c, a), k).objects;
            && (n in after <==> match a
                                case Create(l, m) => n in before || (k, n) == (l, m)
                                case Change(_, _) => n in before
                                case Delete(l, m) => n in before && (k, n) != (l, m))
            && (n in after && (n !in before || after[n] != before[n]) ==>
                  after[n].version == "v1beta1" && (k, n) == (a.k, a.n))
            && (a.Change? && (k, n) == (a.k, a.n) && n in before ==>
                  after[n].resourceVersion != before[n].resourceVersion)
            && At(Acted(c, a), k).storedVersions == At(c, k).storedVersions
  {
  }

  /** Apart from v1alpha1, which may be unlisted, the listings say the same. */
  ghost predicate SameListing(c: Cluster, c': Cluster) {
    && (forall k :: ListsOld(c', k) ==> ListsOld(c, k))
    && forall k, v :: v != OLD_VERSION ==> (Lists(c', k, v) <==> Lists(c, k, v))
  }

  /** What holds between any two moments of a run: old objects only disappear, v1alpha1 is only unlisted. */
  ghost predicate Drifts(c: Cluster, c': Cluster) {
    (forall k, n :: StoredOld(c', k, n) ==> StoredOld(c, k, n)) && SameListing(c, c')
  }

  /** No listing changed at all; so safety carries over. */
  ghost predicate Quiet(c: Cluster, c': Cluster) {
    && (forall k, n :: StoredOld(c', k, n) ==> StoredOld(c, k, n))
    && (forall k :: At(c', k).storedVersions == At(c, k).storedVersions)
  }

  /** `h'` continues `h` with states that leave every listing as it was. */
  ghost predicate Extends(h: seq<Cluster>, h': seq<Cluster>) {
    && 0 < |h| <= |h'| && h == h'[..|h|]
    && forall i :: |h| <= i < |h'| ==> Quiet(h[|h| - 1], h'[i])
  }

  /** Where listings stay, it is enough that new objects are at the storage version. */
  lemma QuietSafe(c: Cluster, c': Cluster)
    requires Safe(c) && Quiet(c, c')
    requires forall k, n :: n in At(c', k).objects && At(c', k).objects[n].version != STORAGE_VERSION ==>
               n in At(c, k).objects && At(c, k).objects[n].version == At(c', k).objects[n].version
    ensures Safe(c')
  {
    forall k, v ensures Lists(c', k, v) <==> Lists(c, k, v) {
      assert At(c', k).storedVersions == At(c, k).storedVersions;
    }
  }

  lemma WrittenQuiet(c: Cluster, k: Crd, n: NamespacedName)
    ensures Quiet(c, Written(c, k, n)) && !StoredOld(Written(c, k, n), k, n)
  {
  }

  lemma WrittenSafe(c: Cluster, k: Crd, n: NamespacedName)
    ensures Safe(c) ==> Safe(Written(c, k, n))
  {
    WrittenQuiet(c, k, n);
    if Safe(c) {
      QuietSafe(c, Written(c, k, n));
    }
  }

  lemma ActedQuiet(c: Cluster, a: UserAction)
    ensures Quiet(c, Acted(c, a)) && (Safe(c) ==> Safe(Acted(c, a)))
  {
    match a
    case Create(k, n) => WrittenQuiet(c, k, n); WrittenSafe(c, k, n);
    case Change(k, n) => WrittenQuiet(c, k, n); WrittenSafe(c, k, n);
    case Delete(k, n) =>
      if Safe(c) { QuietSafe(c, Acted(c, a)); }
  }

  lemma QuietDrifts(c: Cluster, c': Cluster)
    requires Quiet(c, c')
    ensures Drifts(c, c')
  {
  }

  lemma DriftsTransitive(c: Cluster, c': Cluster, c'': Cluster)
    requires Drifts(c, c') && Drifts(c', c'')
    ensures Drifts(c, c'')
  {
  }

  /** A history in which every later state drifted from every earlier one. */
  ghost predicate Drifting(h: seq<Cluster>) {
    forall i, j :: 0 <= i <= j < |h| ==> Drifts(h[i], h[j])
  }

  ghost predicate AllSafe(h: seq<Cluster>) {
    forall i :: 0 <= i < |h| ==> Safe(h[i])
  }

  lemma DriftingStep(h: seq<Cluster>, c: Cluster)
    requires h != [] && Drifting(h) && Drifts(h[|h| - 1], c)
    ensures Drifting(h + [c])
  {
    forall i | 0 <= i < |h| ensures Drifts(h[i], c) {
      DriftsTransitive(h[i], h[|h| - 1], c);
    }
  }

  /** Some state that a cache with this floor may return has a CRD that lists v1alpha1. */
  ghost predicate SomeListsOld(h: seq<Cluster>, floor: nat) {
    exists i, k :: floor <= i < |h| && ListsOld(h[i], k)
  }

  /** The same of one CRD. */
  ghost predicate ListsOldSince(h: seq<Cluster>, floor: nat, k: Crd) {
    exists i :: floor <= i < |h| && ListsOld(h[i], k)
  }

  lemma ExtendsListsOf(h: seq<Cluster>, h': seq<Cluster>, floor: nat, k: Crd)
    requires Extends(h, h') && floor < |h| && ListsOldSince(h', floor, k)
    ensures ListsOldSince(h, floor, k)
  {
    var i :| floor <= i < |h'| && ListsOld(h'[i], k);
    if i < |h| {
      assert ListsOld(h[i], k);
    } else {
      assert ListsOld(h[|h| - 1], k);
    }
  }

  /** What the answers for `done` are worth: no is definite, yes is about some state of the cache. */
  ghost predicate Checked(h: seq<Cluster>, floor: nat, done: seq<Crd>, needed: bool) {
    if needed then SomeListsOld(h, floor) else h != [] && forall k :: k in done ==> !ListsOld(h[|h| - 1], k)
  }

  lemma LaterListsOld(h: seq<Cluster>, h': seq<Cluster>, floor: nat)
    requires Extends(h, h') && SomeListsOld(h, floor)
    ensures SomeListsOld(h', floor)
  {
    var i, k :| floor <= i < |h| && ListsOld(h[i], k);
    assert h'[i] == h[i];
  }

  lemma ExtendsTrans(h: seq<Cluster>, h': seq<Cluster>, h'': seq<Cluster>)
    requires Extends(h, h') && Extends(h', h'')
    ensures Extends(h, h'')
  {
    ExtendsQuiet(h, h');
    forall i | |h| <= i < |h''| ensures Quiet(h[|h| - 1], h''[i]) {
      if i < |h'| {
        assert h''[i] == h'[i];
      } else {
        assert Quiet(h'[|h'| - 1], h''[i]);
      }
    }
  }

  lemma ExtendsQuiet(h: seq<Cluster>, h': seq<Cluster>)
    requires Extends(h, h')
    ensures Quiet(h[|h| - 1], h'[|h'| - 1])
  {
  }

  lemma ExtendsStep(h: seq<Cluster>, h': seq<Cluster>, c: Cluster)
    requires Extends(h, h') && Quiet(h'[|h'| - 1], c)
    ensures Extends(h, h' + [c])
  {
    ExtendsQuiet(h, h');
    assert Quiet(h[|h| - 1], c);
  }

  function WithoutOld(versions: seq<string>): seq<string> {
    if versions == [] then []
    else if versions[0] == OLD_VERSION then WithoutOld(versions[1..])
    else [versions[0]] + WithoutOld(versions[1..])
  }

  lemma {:induction false} WithoutOldMembers(versions: seq<string>)
    ensures forall v :: v in WithoutOld(versions) <==> v in versions && v != OLD_VERSION
    ensures |WithoutOld(versions)| <= |versions|
    ensures |WithoutOld(versions)| == |versions| <==> OLD_VERSION !in versions
  {
    if versions != [] {
      assert versions == [versions[0]] + versions[1..];
      WithoutOldMembers(versions[1..]);
    }
  }

  // ---------------------------------------------------------------- the API server

  /** The object is gone, or still at the version that was read. */
  predicate ItemGood(c: Cluster, k: Crd, item: (NamespacedName, nat)) {
    item.0 in At(c, k).objects ==> At(c, k).objects[item.0].resourceVersion == item.1
  }

  /** From position `from` on, the items are good; and no name is listed twice. */
  ghost predicate ItemsGood(c: Cluster, k: Crd, items: seq<(NamespacedName, nat)>, from: nat) {
    && (forall i :: from <= i < |items| ==> ItemGood(c, k, items[i]))
    && forall i, j :: 0 <= i < j < |items| ==> items[i].0 != items[j].0
  }

  /** Objects may be gone, and nothing else happened to any. */
  ghost predicate OnlyDeletes(c: Cluster, c': Cluster) {
    forall k, n :: n in At(c', k).objects ==> n in At(c, k).objects && At(c', k).objects[n] == At(c, k).objects[n]
  }

  lemma DeletesKeepItems(c: Cluster, c': Cluster, k: Crd, items: seq<(NamespacedName, nat)>, from: nat)
    requires OnlyDeletes(c, c') && ItemsGood(c, k, items, from)
    ensures ItemsGood(c', k, items, from)
  {
  }

  lemma DeletesTransitive(c: Cluster, c': Cluster, c'': Cluster)
    requires OnlyDeletes(c, c') && OnlyDeletes(c', c'')
    ensures OnlyDeletes(c, c'')
  {
  }

  /** Who else writes to the cluster. */
  datatype Others = Nobody | Deleters | Anybody

  datatype Outcome = Done | NotFound | Failed

  class ApiServer {
    /** Whether calls may fail and reads may be stale. */
    const faulty: bool
    const others: Others
    /** How many calls have failed, other than by not found. */
    var failures: nat
    /** Every state of the cluster so far; the last is the present one. */
    var history: seq<Cluster>
    /** A cached Get returns some state from here on. */
    var cacheFloor: nat
    /** How often the migrator has written. */
    var writes: nat

    ghost predicate Valid()
      reads this`history, this`cacheFloor
    {
      cacheFloor < |history| && Drifting(history)
    }

    ghost predicate AlwaysSafe()
      reads this`history
    {
      AllSafe(history)
    }

    function Now(): Cluster
      requires |history| > 0
      reads this`history
    {
      history[|history| - 1]
    }

    constructor (c: Cluster, faulty: bool, others: Others)
      requires Safe(c)
      ensures Valid() && AlwaysSafe() && history == [c] && writes == 0 && failures == 0
      ensures this.faulty == faulty && this.others == others
    {
      history, cacheFloor, writes, failures := [c], 0, 0, 0;
      this.faulty, this.others := faulty, others;
    }

    /** No call fails, and others at most delete. */
    predicate Calm() {
      !faulty && others != Anybody
    }

    /** Appends one state. */
    method Advance(c: Cluster)
      requires Valid() && Drifts(Now(), c)
      modifies this`history
      ensures Valid() && history == old(history) + [c] && Now() == c
      ensures old(AlwaysSafe()) && Safe(c) ==> AlwaysSafe()
    {
      DriftingStep(history, c);
      history := history + [c];
    }

    /** One action of a user, in a history that continues `start`. */
    method Act(a: UserAction, ghost start: seq<Cluster>, ghost safe: bool)
      requires Valid() && Extends(start, history) && (safe ==> AlwaysSafe())
      modifies this`history
      ensures Valid() && Extends(start, history) && (safe ==> AlwaysSafe()) && Now() == Acted(old(Now()), a)
    {
      ActedQuiet(Now(), a);
      QuietDrifts(Now(), Acted(Now(), a));
      ExtendsStep(start, history, Acted(Now(), a));
      Advance(Acted(Now(), a));
    }

    method AnyAction() returns (a: UserAction)
      ensures others != Anybody ==> a.Delete?
    {
      if others == Anybody {
        a :| true;
      } else {
        var k: Crd, n: NamespacedName :| true;
        a := Delete(k, n);
      }
    }

    /** Any number of actions of users, of any kind, before the next call of the migrator. */
    method Interfere()
      requires Valid()
      modifies this`history
      ensures Valid() && Quiet(old(Now()), Now())
      ensures Extends(old(history), history)
      ensures old(AlwaysSafe()) ==> AlwaysSafe()
      ensures others == Nobody ==> history == old(history)
      ensures others != Anybody ==> OnlyDeletes(old(Now()), Now())
    {
      ghost var start, safe := history, AlwaysSafe();
      ghost var first := Now();
      var n: nat :| others != Nobody || n == 0;
      while n > 0
        invariant others == Nobody ==> n == 0 && history == start
        invariant Valid() && Extends(start, history) && (safe ==> AlwaysSafe())
        invariant others != Anybody ==> OnlyDeletes(first, Now())
      {
        ghost var before := Now();
        var a := AnyAction();
        Act(a, start, safe);
        if others != Anybody {
          DeletesTransitive(first, before, Now());
        }
        n := n - 1;
      }
      ExtendsQuiet(start, history);
    }

    /** From now on the cache returns the present state or a later one. */
    method CatchUp()
      requires Valid()
      modifies this`cacheFloor
      ensures Valid() && cacheFloor == |history| - 1
    {
      cacheFloor := |history| - 1;
    }

    /** Whether the next API call fails. */
    method Fails() returns (failed: bool)
      modifies this`failures
      ensures failed ==> faulty
      ensures failures == old(failures) + if failed then 1 else 0
    {
      failed :| failed ==> faulty;
      if failed {
        failures := failures + 1;
      }
    }

    /** The stored versions of a CRD, possibly stale; None is an API error. */
    method GetStoredVersions(k: Crd) returns (r: Option<seq<string>>)
      requires Valid()
      modifies this`failures
      ensures failures == old(failures) + if r.None? then 1 else 0
      ensures r.Some? ==> exists i :: cacheFloor <= i < |history| && r.value == At(history[i], k).storedVersions
      ensures !faulty ==> r == Some(At(Now(), k).storedVersions)
    {
      var failed := Fails();
      if failed {
        return None;
      }
      var i: nat :| cacheFloor <= i < |history| && (faulty || i == |history| - 1);
      r := Some(At(history[i], k).storedVersions);
    }

    /** All objects of a kind, each with the resource version that was read; None is an API error. */
    method List(k: Crd) returns (r: Option<seq<(NamespacedName, nat)>>)
      requires Valid()
      modifies this`failures
      ensures failures == old(failures) + if r.None? then 1 else 0
      ensures r.Some? ==> forall n :: StoredOld(Now(), k, n) ==> exists i :: 0 <= i < |r.value| && r.value[i].0 == n
      ensures !faulty ==> r.Some? && ItemsGood(Now(), k, r.value, 0)
    {
      var failed := Fails();
      if failed {
        return None;
      }
      var items: seq<(NamespacedName, nat)> := [];
      var names := At(Now(), k).objects.Keys;
      while names != {}
        invariant names <= At(Now(), k).objects.Keys
        invariant forall i :: 0 <= i < |items| ==> items[i].0 !in names
        invariant !faulty ==> ItemsGood(Now(), k, items, 0)
        invariant forall n :: n in At(Now(), k).objects ==>
            n in names || exists i :: 0 <= i < |items| && items[i].0 == n
        decreases names
      {
        var n :| n in names;
        var readVersion: nat :| faulty || readVersion == At(Now(), k).objects[n].resourceVersion;
        ghost var before := items;
        items := items + [(n, readVersion)];
        forall m | m in At(Now(), k).objects && m !in names - {n}
          ensures exists i :: 0 <= i < |items| && items[i].0 == m
        {
          if m == n {
            assert items[|before|].0 == m;
          } else {
            var i :| 0 <= i < |before| && before[i].0 == m;
            assert items[i].0 == m;
          }
        }
        names := names - {n};
      }
      r := Some(items);
    }

    /** An update of an unchanged object: not found, a conflict or other failure, or a rewrite at v1beta1. */
    method Update(k: Crd, n: NamespacedName, resourceVersion: nat) returns (r: Outcome)
      requires Valid()
      modifies this`history, this`writes, this`failures
      ensures failures == old(failures) + if r == Failed then 1 else 0
      ensures Valid() && |old(history)| <= |history| && (old(AlwaysSafe()) ==> AlwaysSafe())
      ensures r == Done ==> Now() == Written(old(Now()), k, n) && n in At(old(Now()), k).objects
      ensures r != Done ==> history == old(history)
      ensures r == Done ==> At(Now(), k).objects[n].version == "v1beta1"
      ensures writes == old(writes) + if r == Done then 1 else 0
      ensures r == NotFound ==> n !in At(Now(), k).objects
      ensures Quiet(old(Now()), Now()) && (r != Failed ==> !StoredOld(Now(), k, n))
      ensures !faulty && ItemGood(old(Now()), k, (n, resourceVersion)) ==> r != Failed
    {
      var failed := Fails();
      if failed {
        return Failed;
      }
      if n !in At(Now(), k).objects {
        return NotFound;
      }
      if At(Now(), k).objects[n].resourceVersion != resourceVersion {
        failures := failures + 1;
        return Failed;
      }
      writes := writes + 1;
      WrittenQuiet(Now(), k, n);
      WrittenSafe(Now(), k, n);
      QuietDrifts(Now(), Written(Now(), k, n));
      Advance(Written(Now(), k, n));
      r := Done;
    }

    /** The merge patch replaces the whole list, whatever it is by now. */
    method PatchStoredVersions(k: Crd, versions: seq<string>) returns (ok: bool)
      requires Valid() && forall v :: v in versions <==> v != OLD_VERSION && Lists(Now(), k, v)
      modifies this`history, this`writes, this`failures
      ensures failures == old(failures) + if ok then 0 else 1
      ensures Valid() && |old(history)| <= |history|
      ensures !ok ==> history == old(history)
      ensures writes == old(writes) + if ok then 1 else 0
      ensures ok ==> history == old(history) + [Relisted(old(Now()), k, versions)]
      ensures old(AlwaysSafe()) && (forall n :: !StoredOld(old(Now()), k, n)) ==> AlwaysSafe()
      ensures !faulty ==> ok
    {
      var failed := Fails();
      if failed {
        return false;
      }
      writes := writes + 1;
      RelistedDrifts(Now(), k, versions);
      Advance(Relisted(Now(), k, versions));
      ok := true;
    }
  }

  function Relisted(c: Cluster, k: Crd, versions: seq<string>): Cluster {
    c[k := At(c, k).(storedVersions := versions)]
  }

  /** Dropping exactly v1alpha1 from a listing is safe once no object is stored at it. */
  lemma RelistedDrifts(c: Cluster, k: Crd, versions: seq<string>)
    requires forall v :: v in versions <==> v != OLD_VERSION && Lists(c, k, v)
    ensures Drifts(c, Relisted(c, k, versions))
    ensures Safe(c) && (forall n :: !StoredOld(c, k, n)) ==> Safe(Relisted(c, k, versions))
  {
    var c' := Relisted(c, k, versions);
    forall l, v | v != OLD_VERSION ensures Lists(c', l, v) <==> Lists(c, l, v) {
    }
    if Safe(c) && forall n :: !StoredOld(c, k, n) {
      forall l, n | n in At(c', l).objects ensures Lists(c', l, At(c', l).objects[n].version) {
        assert n in At(c, l).objects && At(c', l).objects[n] == At(c, l).objects[n];
        assert l == k ==> !StoredOld(c, l, n);
      }
    }
  }

  /** A stale list without v1alpha1 is the present one without v1alpha1. */
  lemma RemainingIsListed(c: Cluster, now: Cluster, k: Crd, versions: seq<string>)
    requires Drifts(c, now)
    requires forall v :: v in versions <==> v in At(c, k).storedVersions && v != OLD_VERSION
    ensures forall v :: v in versions <==> v != OLD_VERSION && Lists(now, k, v)
  {
    forall v ensures v in versions <==> v != OLD_VERSION && Lists(now, k, v) {
      assert Lists(c, k, v) <==> v in At(c, k).storedVersions;
    }
  }

  /** Rewriting one listed object leaves the later ones as they were read. */
  lemma WrittenItems(c: Cluster, k: Crd, items: seq<(NamespacedName, nat)>, i: nat)
    requires i < |items| && ItemsGood(c, k, items, i)
    ensures ItemsGood(Written(c, k, items[i].0), k, items, i + 1)
  {
    forall j | i < j < |items| ensures ItemGood(Written(c, k, items[i].0), k, items[j]) {
      assert ItemGood(c, k, items[j]) && items[j].0 != items[i].0;
    }
  }

  // ---------------------------------------------------------------- the migrator

  ghost predicate NoneOld(c: Cluster, k: Crd) {
    forall n :: !StoredOld(c, k, n)
  }

  class Migrator {
    const api: ApiServer

    constructor (api: ApiServer)
      ensures this.api == api
    {
      this.api := api;
    }

    /** A negative answer is definite even from a stale read, because v1alpha1 is never listed anew. */
    method NeedsMigration(k: Crd) returns (r: Option<bool>)
      requires api.Valid() && api.AlwaysSafe()
      modifies api`history, api`failures
      ensures api.Valid() && api.AlwaysSafe() && Quiet(old(api.Now()), api.Now())
              && Extends(old(api.history), api.history)
      ensures r == Some(false) ==> !ListsOld(api.Now(), k)
      ensures r == Some(true) ==> SomeListsOld(api.history, api.cacheFloor)
      ensures api.failures >= old(api.failures) && (r.Some? <==> api.failures == old(api.failures))
      ensures api.Calm() ==> r.Some?
    {
      api.Interfere();
      var versions := api.GetStoredVersions(k);
      if versions.None? {
        return None;
      }
      ghost var i :| api.cacheFloor <= i < |api.history| && versions.value == At(api.history[i], k).storedVersions;
      assert ListsOld(api.history[i], k) <==> OLD_VERSION in versions.value;
      r := Some(OLD_VERSION in versions.value);
    }

    /** One turn of the loops below: not found is as good as written. */
    method MigrateItem(k: Crd, items: seq<(NamespacedName, nat)>, i: nat) returns (ok: bool, ghost outcome: Outcome)
      requires api.Valid() && api.AlwaysSafe() && i < |items|
      modifies api`history, api`writes, api`failures
      ensures api.Valid() && api.AlwaysSafe() && Quiet(old(api.Now()), api.Now()) && |old(api.history)| <= |api.history|
      ensures ok <==> outcome == Done || outcome == NotFound
      ensures api.failures >= old(api.failures) && (ok <==> api.failures == old(api.failures))
      ensures ok ==> !StoredOld(api.Now(), k, items[i].0)
      ensures api.Calm() && ItemsGood(old(api.Now()), k, items, i) ==> ok && ItemsGood(api.Now(), k, items, i + 1)
    {
      ghost var start := api.Now();
      api.Interfere();
      ghost var before := api.Now();
      var result := api.Update(k, items[i].0, items[i].1);
      outcome := result;
      ok := result != Failed;
      if api.Calm() && ItemsGood(start, k, items, i) {
        DeletesKeepItems(start, before, k, items, i);
        WrittenItems(before, k, items, i);
      }
    }

    /** migrateLogPipelines, migrateMetricPipelines, migrateTracePipelines and migrateTelemetries. */
    method MigrateObjects(k: Crd) returns (ok: bool)
      requires api.Valid() && api.AlwaysSafe()
      modifies api`history, api`writes, api`failures
      ensures api.Valid() && api.AlwaysSafe() && Quiet(old(api.Now()), api.Now()) && |old(api.history)| <= |api.history|
      ensures ok ==> NoneOld(api.Now(), k)
      ensures api.failures >= old(api.failures) && (ok <==> api.failures == old(api.failures))
      ensures api.Calm() ==> ok
    {
      api.Interfere();
      var items := api.List(k);
      if items.None? {
        return false;
      }
      ghost var listed := api.Now();
      for i := 0 to |items.value|
        invariant api.Valid() && api.AlwaysSafe() && Quiet(listed, api.Now()) && |old(api.history)| <= |api.history|
        invariant forall j :: 0 <= j < i ==> !StoredOld(api.Now(), k, items.value[j].0)
        invariant api.Calm() ==> ItemsGood(api.Now(), k, items.value, i)
        invariant api.failures == old(api.failures)
      {
        ghost var outcome;
        ok, outcome := MigrateItem(k, items.value, i);
        if !ok {
          return;
        }
      }
      ok := true;
    }

    static method RemainingVersions(versions: seq<string>) returns (r: seq<string>)
      ensures r == WithoutOld(versions)
    {
      r := [];
      for i := 0 to |versions|
        invariant WithoutOld(versions) == r + WithoutOld(versions[i..])
      {
        assert versions[i..][1..] == versions[i + 1..];
        if versions[i] != OLD_VERSION {
          assert r + ([versions[i]] + WithoutOld(versions[i + 1..]))
             == r + [versions[i]] + WithoutOld(versions[i + 1..]);
          r := r + [versions[i]];
        }
      }
      assert r + [] == r;
    }

    /** What is listed besides v1alpha1, from a read that may be stale, and whether it was listed. */
    method ReadRemaining(k: Crd) returns (r: Option<seq<string>>, clean: bool)
      requires api.Valid() && api.AlwaysSafe()
      modifies api`history, api`failures
      ensures api.Valid() && api.AlwaysSafe() && Quiet(old(api.Now()), api.Now()) && |old(api.history)| <= |api.history|
      ensures api.failures >= old(api.failures) && (r.Some? <==> api.failures == old(api.failures))
      ensures api.Calm() ==> r.Some?
      ensures r.Some? ==> forall v :: v in r.value <==> v != OLD_VERSION && Lists(api.Now(), k, v)
      ensures r.Some? && clean ==> !ListsOld(api.Now(), k)
      ensures r.Some? && !clean ==> ListsOldSince(old(api.history), api.cacheFloor, k)
    {
      clean := false;
      api.Interfere();
      var read := api.GetStoredVersions(k);
      if read.None? {
        return None, false;
      }
      ghost var i :| api.cacheFloor <= i < |api.history| && read.value == At(api.history[i], k).storedVersions;
      assert Drifts(api.history[i], api.Now());
      var remaining := RemainingVersions(read.value);
      WithoutOldMembers(read.value);
      RemainingIsListed(api.history[i], api.Now(), k, remaining);
      clean := |remaining| == |read.value|;
      if !clean {
        assert ListsOld(api.history[i], k);
        ExtendsListsOf(old(api.history), api.history, api.cacheFloor, k);
      }
      r := Some(remaining);
    }

    method ClearStoredVersion(k: Crd) returns (ok: bool)
      requires api.Valid() && api.AlwaysSafe() && NoneOld(api.Now(), k)
      modifies api`history, api`writes, api`failures
      ensures api.Valid() && api.AlwaysSafe() && Drifts(old(api.Now()), api.Now())
              && |old(api.history)| <= |api.history|
      ensures ok ==> !ListsOld(api.Now(), k)
      ensures !ListsOldSince(old(api.history), api.cacheFloor, k) ==> api.writes == old(api.writes)
      ensures api.failures >= old(api.failures) && (ok <==> api.failures == old(api.failures))
      ensures api.Calm() ==> ok
    {
      ghost var start := api.Now();
      var remaining, clean := ReadRemaining(k);
      ghost var read := api.Now();
      QuietDrifts(start, read);
      if remaining.None? {
        return false;
      }
      if clean {
        return true;
      }
      ok := PatchRemaining(k, remaining.value);
      DriftsTransitive(start, read, api.Now());
    }

    /** The status patch, after whatever happened since the read. */
    method PatchRemaining(k: Crd, versions: seq<string>) returns (ok: bool)
      requires api.Valid() && api.AlwaysSafe() && NoneOld(api.Now(), k)
      requires forall v :: v in versions <==> v != OLD_VERSION && Lists(api.Now(), k, v)
      modifies api`history, api`writes, api`failures
      ensures api.Valid() && api.AlwaysSafe() && Drifts(old(api.Now()), api.Now())
              && |old(api.history)| <= |api.history|
      ensures ok ==> !ListsOld(api.Now(), k)
      ensures api.failures >= old(api.failures) && (ok <==> api.failures == old(api.failures))
      ensures api.Calm() ==> ok
    {
      api.Interfere();
      ok := api.PatchStoredVersions(k, versions);
    }

    /** One turn of the first loop of migratePipelinesIfNeeded. */
    method CheckNext(k: Crd, soFar: bool, ghost start: seq<Cluster>, ghost done: seq<Crd>) returns (r: Option<bool>)
      requires api.Valid() && api.AlwaysSafe() && Extends(start, api.history)
      requires Checked(api.history, api.cacheFloor, done, soFar)
      modifies api`history, api`failures
      ensures api.Valid() && api.AlwaysSafe() && Extends(start, api.history)
      ensures r.Some? ==> Checked(api.history, api.cacheFloor, done + [k], r.value)
      ensures api.failures >= old(api.failures) && (r.Some? <==> api.failures == old(api.failures))
      ensures api.Calm() ==> r.Some?
    {
      ghost var before := api.history;
      var needed := NeedsMigration(k);
      ExtendsTrans(start, before, api.history);
      if needed.None? {
        return None;
      }
      if soFar {
        LaterListsOld(before, api.history, api.cacheFloor);
      }
      r := Some(soFar || needed.value);
    }

    /** The first loop of migratePipelinesIfNeeded. */
    method AnyNeedsMigration() returns (r: Option<bool>)
      requires api.Valid() && api.AlwaysSafe()
      modifies api`history, api`failures
      ensures api.Valid() && api.AlwaysSafe() && Extends(old(api.history), api.history)
      ensures r == Some(false) ==> forall k :: !ListsOld(api.Now(), k)
      ensures r == Some(true) ==> SomeListsOld(api.history, api.cacheFloor)
      ensures api.failures >= old(api.failures) && (r.Some? <==> api.failures == old(api.failures))
      ensures api.Calm() ==> r.Some?
    {
      ghost var start := api.history;
      var needsMigration := false;
      for i := 0 to |ALL_CRDS|
        invariant api.Valid() && api.AlwaysSafe() && Extends(start, api.history)
        invariant Checked(api.history, api.cacheFloor, ALL_CRDS[..i], needsMigration)
        invariant api.failures == old(api.failures)
      {
        assert ALL_CRDS[..i + 1] == ALL_CRDS[..i] + [ALL_CRDS[i]];
        r := CheckNext(ALL_CRDS[i], needsMigration, start, ALL_CRDS[..i]);
        if r.None? {
          return;
        }
        needsMigration := r.value;
      }
      EveryCrd();
      if !needsMigration {
        forall k ensures !ListsOld(api.Now(), k) {
          assert k in ALL_CRDS[..|ALL_CRDS|];
        }
      }
      r := Some(needsMigration);
    }

    /** The four migrate calls, in the order of the source. */
    method MigrateAllObjects() returns (ok: bool)
      requires api.Valid() && api.AlwaysSafe()
      modifies api`history, api`writes, api`failures
      ensures api.Valid() && api.AlwaysSafe()
      ensures ok ==> forall k :: NoneOld(api.Now(), k)
      ensures api.failures >= old(api.failures) && (ok <==> api.failures == old(api.failures))
      ensures api.Calm() ==> ok
    {
      for i := 0 to |ALL_CRDS|
        invariant api.Valid() && api.AlwaysSafe()
        invariant forall k :: k in ALL_CRDS[..i] ==> NoneOld(api.Now(), k)
        invariant api.failures == old(api.failures)
      {
        assert ALL_CRDS[..i + 1] == ALL_CRDS[..i] + [ALL_CRDS[i]];
        ok := MigrateObjects(ALL_CRDS[i]);
        if !ok {
          return;
        }
      }
      EveryCrd();
      ok := true;
    }

    /** The last loop of migratePipelinesIfNeeded. */
    method ClearAllStoredVersions() returns (ok: bool)
      requires api.Valid() && api.AlwaysSafe() && forall k :: NoneOld(api.Now(), k)
      modifies api`history, api`writes, api`failures
      ensures api.Valid() && api.AlwaysSafe()
      ensures ok ==> forall k :: !ListsOld(api.Now(), k)
      ensures api.failures >= old(api.failures) && (ok <==> api.failures == old(api.failures))
      ensures api.Calm() ==> ok
    {
      for i := 0 to |ALL_CRDS|
        invariant api.Valid() && api.AlwaysSafe() && forall k :: NoneOld(api.Now(), k)
        invariant forall k :: k in ALL_CRDS[..i] ==> !ListsOld(api.Now(), k)
        invariant api.failures == old(api.failures)
      {
        assert ALL_CRDS[..i + 1] == ALL_CRDS[..i] + [ALL_CRDS[i]];
        ghost var before := api.Now();
        ok := ClearStoredVersion(ALL_CRDS[i]);
        DriftsKeepNoneOld(before, api.Now());
        if !ok {
          return;
        }
      }
      EveryCrd();
      ok := true;
    }

    /**
     migratePipelinesIfNeeded. Whatever happens, every state on the way is safe; success means
     that no CRD lists v1alpha1; a run fails exactly if one of its calls failed, other than by
     not found, so it succeeds when no call fails and others at most delete; and when no state
     the cache can return lists v1alpha1, nothing is written.
     */
    method MigratePipelinesIfNeeded() returns (ok: bool)
      requires api.Valid() && api.AlwaysSafe()
      modifies api`history, api`writes, api`failures
      ensures api.Valid() && api.AlwaysSafe()
      ensures ok ==> NoneListsOld(api.Now())
      ensures api.failures >= old(api.failures) && (ok <==> api.failures == old(api.failures))
      ensures api.Calm() ==> ok
      ensures !SomeListsOld(old(api.history), api.cacheFloor) ==> api.writes == old(api.writes)
    {
      var needed := AnyNeedsMigration();
      if needed.None? {
        return false;
      }
      if !needed.value {
        Unlisted(api.Now());
        return true;
      }
      ExtendsLists(old(api.history), api.history, api.cacheFloor);
      ok := MigrateAllObjects();
      if ok {
        ok := ClearAllStoredVersions();
        if ok {
          Unlisted(api.Now());
        }
      }
    }

    /** After a successful run, once the cache has caught up with it, a following run writes nothing. */
    method MigrateAgain() returns (first: bool, second: bool, written: nat)
      requires api.Valid() && api.AlwaysSafe()
      modifies api
      ensures api.Valid() && api.AlwaysSafe()
      ensures first ==> api.writes == written
      ensures api.Calm() ==> first && second
    {
      second := false;
      first := MigratePipelinesIfNeeded();
      written := api.writes;
      if first {
        ghost var now := api.Now();
        assert forall k :: !ListsOld(now, k);
        api.CatchUp();
        assert api.history[api.cacheFloor] == now;
        second := MigratePipelinesIfNeeded();
      }
    }

    /** Start: retries until a run succeeds or, after `ticks` retries, the context is cancelled. */
    method Start(ticks: nat) returns (migrated: bool, attempts: nat)
      requires api.Valid() && api.AlwaysSafe()
      modifies api`history, api`writes, api`failures
      ensures api.Valid() && api.AlwaysSafe()
      ensures migrated ==> NoneListsOld(api.Now())
      ensures 1 <= attempts <= ticks + 1 && (!migrated ==> attempts == ticks + 1)
      ensures api.Calm() ==> migrated && attempts == 1
      ensures api.failures >= old(api.failures) + attempts - if migrated then 1 else 0
    {
      attempts := 0;
      for i := 0 to ticks + 1
        invariant api.Valid() && api.AlwaysSafe() && (i > 0 ==> !api.Calm())
        invariant attempts == i && api.failures >= old(api.failures) + i
      {
        attempts := attempts + 1;
        migrated := MigratePipelinesIfNeeded();
        if migrated {
          return;
        }
        api.Interfere();
      }
      migrated := false;
    }
  }

  /** If some state since the floor lists v1alpha1, some state before the quiet extension did. */
  lemma ExtendsLists(h: seq<Cluster>, h': seq<Cluster>, floor: nat)
    requires Extends(h, h') && floor < |h|
    requires SomeListsOld(h', floor)
    ensures SomeListsOld(h, floor)
  {
    var j, k :| floor <= j < |h'| && ListsOld(h'[j], k);
    if j < |h| {
      assert ListsOld(h[j], k);
    } else {
      assert ListsOld(h[|h| - 1], k);
    }
  }

  lemma DriftsKeepNoneOld(c: Cluster, c': Cluster)
    requires Drifts(c, c') && forall k :: NoneOld(c, k)
    ensures forall k :: NoneOld(c', k)
  {
    forall k, n ensures !StoredOld(c', k, n) {
      assert NoneOld(c, k);
    }
  }

  lemma EveryCrd()
    ensures forall k :: k in ALL_CRDS[..|ALL_CRDS|]
  {
    assert ALL_CRDS[..|ALL_CRDS|] == ALL_CRDS;
    forall k ensures k in ALL_CRDS {
      match k
      case LogPipelines => assert ALL_CRDS[0] == k;
      case MetricPipelines => assert ALL_CRDS[1] == k;
      case TracePipelines => assert ALL_CRDS[2] == k;
      case Telemetries => assert ALL_CRDS[3] == k;
    }
  }
}
