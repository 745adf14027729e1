/**
 The secret watch index as a value: which pipelines are linked to the watcher of each secret.
 It is the specification of the watch client, and refines the relation "pipeline p wants
 secrets S".
 */
module WatchIndex {
  import opened Common

  datatype GroupVersionKind = GroupVersionKind(group: string, version: string, kind: string)

  /** A pipeline object as the client compares it: by name and GVK. */
  datatype Pipeline = Pipeline(name: string, gvk: GroupVersionKind)

  type Secret = NamespacedName

  type Index = map<Secret, seq<Pipeline>>

  function LinkedTo(linked: seq<Pipeline>, p: Pipeline): seq<Pipeline> {
    if p in linked then linked else linked + [p]
  }

  function Without(linked: seq<Pipeline>, p: Pipeline): seq<Pipeline> {
    if linked == [] then []
    else if linked[0] == p then Without(linked[1..], p)
    else [linked[0]] + Without(linked[1..], p)
  }

  function Links(idx: Index, s: Secret): seq<Pipeline> {
    if s in idx then idx[s] else []
  }

  /** The pipeline linked to the watchers of `secrets`, which are created where missing. */
  function Linked(idx: Index, p: Pipeline, secrets: set<Secret>): Index {
    map s | s in idx.Keys + secrets :: if s in secrets then LinkedTo(Links(idx, s), p) else idx[s]
  }

  /** The pipeline taken from the watchers of `secrets`; a watcher left with no pipeline goes. */
  function Unlinked(idx: Index, p: Pipeline, secrets: set<Secret>): Index {
    map s | s in idx && (s in secrets ==> Without(idx[s], p) != [])
      :: if s in secrets then Without(idx[s], p) else idx[s]
  }

  function Synced(idx: Index, p: Pipeline, secrets: set<Secret>): Index {
    var grown := Linked(idx, p, secrets);
    Unlinked(grown, p, grown.Keys - secrets)
  }

  predicate NoDuplicates(linked: seq<Pipeline>) {
    forall i, j :: 0 <= i < j < |linked| ==> linked[i] != linked[j]
  }

  predicate WellFormed(idx: Index) {
    forall s :: s in idx ==> idx[s] != [] && NoDuplicates(idx[s])
  }

  // ---------------------------------------------------------------- refinement

  /** What each pipeline last asked for. */
  type Desired = map<Pipeline, set<Secret>>

  predicate Wants(desired: Desired, p: Pipeline, s: Secret) {
    p in desired && s in desired[p]
  }

  /** The index is the inverse of the desired relation, with no idle watcher and no double link. */
  ghost predicate IsInverse(idx: Index, desired: Desired) {
    && WellFormed(idx)
    && forall s, p :: p in Links(idx, s) <==> Wants(desired, p, s)
  }

  /** Linking adds the pipeline if it is missing, and moves and doubles nothing. */
  lemma LinkedToMembers(linked: seq<Pipeline>, p: Pipeline)
    ensures forall q :: q in LinkedTo(linked, p) <==> q in linked || q == p
    ensures linked <= LinkedTo(linked, p) && (NoDuplicates(linked) ==> NoDuplicates(LinkedTo(linked, p)))
    ensures LinkedTo(LinkedTo(linked, p), p) == LinkedTo(linked, p)
  {
  }

  /** Unlinking works link by link, so the rest keeps its order. */
  lemma {:induction false} WithoutConcat(linked: seq<Pipeline>, more: seq<Pipeline>, p: Pipeline)
    ensures Without(linked + more, p) == Without(linked, p) + Without(more, p)
  {
    if linked == [] {
      assert linked + more == more;
    } else {
      WithoutConcat(linked[1..], more, p);
      assert (linked + more)[1..] == linked[1..] + more;
    }
  }

  /** Unlinking undoes linking. */
  lemma WithoutUndoes(linked: seq<Pipeline>, p: Pipeline)
    requires p !in linked
    ensures Without(LinkedTo(linked, p), p) == linked
  {
    WithoutConcat(linked, [p], p);
    WithoutAbsent(linked, p);
    assert Without([p], p) == Without([p][1..], p) == [];
  }

  lemma {:induction false} WithoutMembers(linked: seq<Pipeline>, p: Pipeline)
    ensures forall q :: q in Without(linked, p) <==> q in linked && q != p
  {
    if linked != [] {
      WithoutMembers(linked[1..], p);
    }
  }

  lemma {:induction false} WithoutNoDuplicates(linked: seq<Pipeline>, p: Pipeline)
    requires NoDuplicates(linked)
    ensures NoDuplicates(Without(linked, p))
  {
    if linked != [] {
      WithoutNoDuplicates(linked[1..], p);
      WithoutMembers(linked[1..], p);
      var rest := Without(linked[1..], p);
      forall i | 0 <= i < |rest| ensures rest[i] != linked[0] {
        assert rest[i] in linked[1..];
        var j :| 1 <= j < |linked| && linked[j] == rest[i];
      }
    }
  }

  lemma LinkedWellFormed(idx: Index, p: Pipeline, secrets: set<Secret>)
    requires WellFormed(idx)
    ensures WellFormed(Linked(idx, p, secrets))
  {
  }

  lemma UnlinkedWellFormed(idx: Index, p: Pipeline, secrets: set<Secret>)
    requires WellFormed(idx)
    ensures WellFormed(Unlinked(idx, p, secrets))
  {
    forall s | s in idx ensures NoDuplicates(Without(idx[s], p)) {
      WithoutNoDuplicates(idx[s], p);
    }
  }

  /** After a sync the pipeline is linked to exactly its secrets, and every other pipeline as before. */
  lemma SyncedLinks(idx: Index, p: Pipeline, secrets: set<Secret>, s: Secret, q: Pipeline)
    ensures q in Links(Synced(idx, p, secrets), s) <==> if q == p then s in secrets else q in Links(idx, s)
  {
    var grown := Linked(idx, p, secrets);
    assert s in secrets ==> s in grown && p in grown[s];
    WithoutMembers(Links(grown, s), p);
  }

  /** One call of SyncWatchers or RemoveFromWatchers. */
  lemma SyncedIsInverse(idx: Index, desired: Desired, p: Pipeline, secrets: set<Secret>)
    requires IsInverse(idx, desired)
    ensures IsInverse(Synced(idx, p, secrets), desired[p := secrets])
  {
    LinkedWellFormed(idx, p, secrets);
    UnlinkedWellFormed(Linked(idx, p, secrets), p, Linked(idx, p, secrets).Keys - secrets);
    forall s, q ensures q in Links(Synced(idx, p, secrets), s) <==> Wants(desired[p := secrets], q, s) {
      SyncedLinks(idx, p, secrets, s, q);
    }
  }

  /**
   What happens to a client: calls of its methods, one at a time by its mutex, and events of
   its watchers. An event takes the lock of its watcher only; but a call changes the links of a
   watcher at most once, so an event finds them as they are before or after the call. An event
   that was under way when the client was stopped may come late, and so may one of a watcher
   that was dropped.
   */
  datatype Call =
    | Sync(p: Pipeline, secrets: seq<Secret>)
    | RemoveAll(p: Pipeline)
    | StopClient
    | SecretEvent(secret: Secret, late: bool)
    | DroppedEvent(secret: Secret)
  {
    predicate Desires() {
      Sync? || RemoveAll?
    }

    function Secrets(): set<Secret> {
      if Sync? then set s | s in secrets else {}
    }
  }

  predicate StoppedAfter(calls: seq<Call>) {
    StopClient in calls
  }

  /** The call has an effect: it asks for secrets, and the client is not stopped. */
  predicate Heeded(before: seq<Call>, c: Call) {
    c.Desires() && !StoppedAfter(before)
  }

  function IndexAfter(calls: seq<Call>): Index {
    if calls == [] then map[]
    else
      var before, last := calls[..|calls| - 1], calls[|calls| - 1];
      if Heeded(before, last) then Synced(IndexAfter(before), last.p, last.Secrets()) else IndexAfter(before)
  }

  /** The last call for the pipeline, before the client was stopped, decides. */
  function DesiredAfter(calls: seq<Call>): Desired {
    if calls == [] then map[]
    else
      var before, last := calls[..|calls| - 1], calls[|calls| - 1];
      if Heeded(before, last) then DesiredAfter(before)[last.p := last.Secrets()] else DesiredAfter(before)
  }

  lemma IndexStep(before: seq<Call>, c: Call)
    ensures StoppedAfter(before + [c]) <==> StoppedAfter(before) || c.StopClient?
    ensures IndexAfter(before + [c]) ==
            if Heeded(before, c) then Synced(IndexAfter(before), c.p, c.Secrets()) else IndexAfter(before)
  {
    assert (before + [c])[..|before|] == before;
  }

  /** The pipelines that the next happening notifies. */
  function Notified(before: seq<Call>, c: Call): seq<Pipeline> {
    if c.SecretEvent? && (!StoppedAfter(before) || c.late) then Links(IndexAfter(before), c.secret) else []
  }

  ghost predicate WatchesWhatIsWanted(idx: Index, desired: Desired) {
    forall s :: s in idx <==> exists p :: Wants(desired, p, s)
  }

  lemma InverseKeys(idx: Index, desired: Desired)
    requires IsInverse(idx, desired)
    ensures WatchesWhatIsWanted(idx, desired)
  {
    forall s ensures s in idx <==> exists p :: Wants(desired, p, s) {
      if s in idx {
        assert idx[s][0] in Links(idx, s);
        assert Wants(desired, idx[s][0], s);
      }
    }
  }

  lemma {:induction false} RunIsInverse(calls: seq<Call>)
    ensures IsInverse(IndexAfter(calls), DesiredAfter(calls))
  {
    if calls != [] {
      var before, last := calls[..|calls| - 1], calls[|calls| - 1];
      RunIsInverse(before);
      if Heeded(before, last) {
        SyncedIsInverse(IndexAfter(before), DesiredAfter(before), last.p, last.Secrets());
      }
    }
  }

  /**
   After any sequence of calls the index is exactly the inverse of the last desired sets, and
   a secret is watched exactly when some pipeline wants it.
   */
  lemma IndexIsInverse(calls: seq<Call>)
    ensures IsInverse(IndexAfter(calls), DesiredAfter(calls))
    ensures WatchesWhatIsWanted(IndexAfter(calls), DesiredAfter(calls))
  {
    RunIsInverse(calls);
    InverseKeys(IndexAfter(calls), DesiredAfter(calls));
  }

  /**
   At whatever point of whatever run an event for a secret comes, it notifies exactly the
   pipelines that want the secret at that point, each once.
   */
  lemma EventNotifiesWanting(calls: seq<Call>, s: Secret, late: bool, p: Pipeline)
    requires !StoppedAfter(calls) || late
    ensures multiset(Notified(calls, SecretEvent(s, late)))[p] == if Wants(DesiredAfter(calls), p, s) then 1 else 0
  {
    RunIsInverse(calls);
    CountOnce(Links(IndexAfter(calls), s), p);
  }

  /** Each call was refused exactly if the client was stopped, and each happening notified whom it should. */
  ghost predicate Answered(calls: seq<Call>, refused: seq<bool>, routed: seq<seq<Pipeline>>) {
    && |refused| == |routed| == |calls|
    && (forall i :: 0 <= i < |calls| ==> (refused[i] <==> calls[i].Desires() && StoppedAfter(calls[..i])))
    && forall i :: 0 <= i < |calls| ==> routed[i] == Notified(calls[..i], calls[i])
  }

  lemma AnsweredStep(calls: seq<Call>, c: Call, refused: seq<bool>, routed: seq<seq<Pipeline>>)
    requires Answered(calls, refused, routed)
    ensures Answered(calls + [c], refused + [c.Desires() && StoppedAfter(calls)], routed + [Notified(calls, c)])
  {
    var all := calls + [c];
    assert all[..|calls|] == calls;
    forall i | 0 <= i < |calls| ensures all[..i] == calls[..i] {
    }
  }

  /** After Stop nothing changes any more, whatever is called. */
  lemma {:induction false} StopFreezes(calls: seq<Call>, more: seq<Call>)
    requires StoppedAfter(calls)
    ensures StoppedAfter(calls + more)
    ensures IndexAfter(calls + more) == IndexAfter(calls) && DesiredAfter(calls + more) == DesiredAfter(calls)
  {
    if more == [] {
      assert calls + more == calls;
    } else {
      var all := calls + more;
      assert all[..|all| - 1] == calls + more[..|more| - 1];
      StopFreezes(calls, more[..|more| - 1]);
    }
  }

  /** Syncing twice is syncing once. */
  lemma SyncIdempotent(idx: Index, p: Pipeline, secrets: set<Secret>)
    requires WellFormed(idx)
    ensures Synced(Synced(idx, p, secrets), p, secrets) == Synced(idx, p, secrets)
  {
    var once := Synced(idx, p, secrets);
    var twice := Synced(once, p, secrets);
    LinkedWellFormed(idx, p, secrets);
    UnlinkedWellFormed(Linked(idx, p, secrets), p, Linked(idx, p, secrets).Keys - secrets);
    forall s | s in once ensures s in twice && twice[s] == once[s] {
      SyncedLinks(idx, p, secrets, s, p);
      if s !in secrets { WithoutAbsent(once[s], p); }
    }
    forall s | s in twice ensures s in once {
      if s in secrets {
        SyncedLinks(idx, p, secrets, s, p);
      }
    }
  }

  lemma {:induction false} WithoutAbsent(linked: seq<Pipeline>, p: Pipeline)
    requires p !in linked
    ensures Without(linked, p) == linked
  {
    if linked != [] {
      WithoutAbsent(linked[1..], p);
    }
  }

  // ---------------------------------------------------------------- counting by kind

  function CountKind(linked: seq<Pipeline>, kind: string): nat {
    if linked == [] then 0
    else (if linked[0].gvk.kind == kind then 1 else 0) + CountKind(linked[1..], kind)
  }

  lemma {:induction false} CountAppended(linked: seq<Pipeline>, p: Pipeline, kind: string)
    ensures CountKind(linked + [p], kind) == CountKind(linked, kind) + if p.gvk.kind == kind then 1 else 0
  {
    if linked != [] {
      assert (linked + [p])[1..] == linked[1..] + [p];
      CountAppended(linked[1..], p, kind);
    }
  }

  lemma {:induction false} CountWithout(linked: seq<Pipeline>, p: Pipeline, kind: string)
    requires NoDuplicates(linked) && p in linked
    ensures CountKind(Without(linked, p), kind) == CountKind(linked, kind) - if p.gvk.kind == kind then 1 else 0
  {
    if linked[0] == p {
      forall q | q in linked[1..] ensures q != p {
        var j :| 1 <= j < |linked| && linked[j] == q;
      }
      WithoutAbsent(linked[1..], p);
    } else {
      CountWithout(linked[1..], p, kind);
    }
  }

  // ---------------------------------------------------------------- event fan-out

  /** An event of the watch stream; other objects than secrets are skipped, an error ends the stream. */
  datatype Event = SecretChanged | OtherObject | WatchError

  /** An event, with the pipelines that are linked when it is handled. */
  datatype Arrival = Arrival(event: Event, linked: seq<Pipeline>)

  function Routed(arrivals: seq<Arrival>): seq<Pipeline> {
    if arrivals == [] || arrivals[0].event == WatchError then []
    else (if arrivals[0].event == SecretChanged then arrivals[0].linked else []) + Routed(arrivals[1..])
  }

  lemma {:induction false} CountOnce(linked: seq<Pipeline>, p: Pipeline)
    requires NoDuplicates(linked)
    ensures multiset(linked)[p] == if p in linked then 1 else 0
  {
    if linked != [] {
      assert linked == [linked[0]] + linked[1..];
      CountOnce(linked[1..], p);
      assert linked[0] !in linked[1..];
    }
  }

  ghost predicate WatchedAt(calls: seq<Call>, n: nat, s: Secret)
    requires n <= |calls|
  {
    s in IndexAfter(calls[..n])
  }

  /** The watcher that serves `s` after `since` happenings still does after `n` of them. */
  ghost predicate StillServes(calls: seq<Call>, since: nat, n: nat, s: Secret) {
    since <= n <= |calls| && forall m :: since <= m <= n ==> WatchedAt(calls, m, s)
  }

  /** Its links at that point: a watcher that was dropped keeps none, even if `s` is watched anew by another. */
  ghost function WatcherLinks(calls: seq<Call>, since: nat, n: nat, s: Secret): seq<Pipeline> {
    if StillServes(calls, since, n, s) then Links(IndexAfter(calls[..n]), s) else []
  }

  /**
   Each arrival at the stream of the watcher that serves `s` since `since` is handled at some
   later point of the run, `at`, with the links of the watcher at that point.
   */
  ghost predicate HandledDuring(arrivals: seq<Arrival>, at: seq<nat>, calls: seq<Call>, since: nat, s: Secret) {
    && |at| == |arrivals|
    && forall i :: 0 <= i < |at| ==> arrivals[i].linked == WatcherLinks(calls, since, at[i], s)
  }

  /** The changes seen before the stream ends at which the watcher still served and the pipeline wanted the secret. */
  ghost function ChangesWanted(arrivals: seq<Arrival>, at: seq<nat>, calls: seq<Call>, since: nat,
                               s: Secret, p: Pipeline): nat
    requires |at| == |arrivals|
  {
    if arrivals == [] || arrivals[0].event == WatchError then 0
    else
      (if && arrivals[0].event == SecretChanged
          && StillServes(calls, since, at[0], s) && Wants(DesiredAfter(calls[..at[0]]), p, s) then 1 else 0)
      + ChangesWanted(arrivals[1..], at[1..], calls, since, s, p)
  }

  /**
   For every interleaving of a watcher's stream with calls of the client: a pipeline is routed
   exactly once for each secret change that the stream delivers while the watcher serves and
   the pipeline wants the secret, and never otherwise, however late the stream ends.
   */
  lemma {:induction false} RoutedOncePerWantedChange(arrivals: seq<Arrival>, at: seq<nat>, calls: seq<Call>, since: nat,
                                                     s: Secret, p: Pipeline)
    requires HandledDuring(arrivals, at, calls, since, s)
    ensures multiset(Routed(arrivals))[p] == ChangesWanted(arrivals, at, calls, since, s, p)
  {
    if arrivals != [] && arrivals[0].event != WatchError {
      RoutedOncePerWantedChange(arrivals[1..], at[1..], calls, since, s, p);
      if StillServes(calls, since, at[0], s) {
        RunIsInverse(calls[..at[0]]);
        CountOnce(arrivals[0].linked, p);
      }
    }
  }
}
