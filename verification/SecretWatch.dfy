/**
 The secret watch client of internal/secretwatch: one watcher per secret, each holding the
 pipelines linked to it, with a goroutine to start and cancel and two gauges to keep.
 */
module SecretWatch {
  import opened Common
  import opened WatchIndex

  class Watcher {
    const secret: Secret
    var linked: seq<Pipeline>
    var cancelled: bool

    constructor (secret: Secret, p: Pipeline)
      ensures this.secret == secret && linked == [p] && !cancelled
    {
      this.secret := secret;
      linked := [p];
      cancelled := false;
    }

    method Link(p: Pipeline) returns (added: bool)
      modifies this`linked
      ensures linked == LinkedTo(old(linked), p)
      ensures added <==> p !in old(linked)
    {
      for i := 0 to |linked|
        invariant linked == old(linked) && p !in linked[..i]
      {
        if linked[i].name == p.name && linked[i].gvk == p.gvk {
          assert linked[i] == p;
          return false;
        }
      }
      linked := linked + [p];
      added := true;
    }

    predicate IsLinked(p: Pipeline)
      reads this
    {
      p in linked
    }

    /** The filter loop of slices.DeleteFunc. */
    method Unlink(p: Pipeline) returns (hasPipelines: bool)
      modifies this`linked
      ensures linked == Without(old(linked), p)
      ensures hasPipelines <==> linked != []
    {
      var kept: seq<Pipeline> := [];
      for i := 0 to |linked|
        invariant linked == old(linked) && Without(linked, p) == kept + Without(linked[i..], p)
      {
        assert linked[i..][1..] == linked[i + 1..];
        if linked[i].name != p.name || linked[i].gvk != p.gvk {
          assert kept + ([linked[i]] + Without(linked[i + 1..], p)) == kept + [linked[i]] + Without(linked[i + 1..], p);
          kept := kept + [linked[i]];
        }
      }
      assert kept + [] == kept;
      linked := kept;
      hasPipelines := |linked| > 0;
    }

    /** Routes one event to each pipeline of a copy of the links. */
    method Route() returns (routed: seq<Pipeline>)
      ensures routed == linked
    {
      routed := [];
      for i := 0 to |linked|
        invariant routed == linked[..i]
      {
        routed := routed + [linked[i]];
      }
    }

    /**
     Handles events until the stream ends. Between two events calls of the client may change
     the links; `linked` of an arrival is what they have made of them by then.
     */
    method ProcessEventLoop(arrivals: seq<Arrival>) returns (routed: seq<Pipeline>)
      modifies this`linked
      ensures routed == Routed(arrivals)
    {
      routed := [];
      for i := 0 to |arrivals|
        invariant Routed(arrivals) == routed + Routed(arrivals[i..])
      {
        linked := arrivals[i].linked;
        if arrivals[i].event == WatchError {
          assert Routed(arrivals[i..]) == [];
          return;
        }
        assert arrivals[i..][1..] == arrivals[i + 1..];
        if arrivals[i].event == OtherObject {
          assert [] + Routed(arrivals[i + 1..]) == Routed(arrivals[i + 1..]);
          continue;
        }
        var batch := Route();
        assert routed + (batch + Routed(arrivals[i + 1..])) == routed + batch + Routed(arrivals[i + 1..]);
        routed := routed + batch;
      }
      assert routed + [] == routed;
    }

    method Cancel()
      modifies this`cancelled
      ensures cancelled
    {
      cancelled := true;
    }
  }

  // ---------------------------------------------------------------- gauges

  type ActiveGauge = map<Secret, int>

  type LinkedGauge = map<(Secret, string), int>

  function Reading<K>(gauge: map<K, int>, key: K): int {
    if key in gauge then gauge[key] else 0
  }

  function Inc<K>(gauge: map<K, int>, key: K): map<K, int> {
    gauge[key := Reading(gauge, key) + 1]
  }

  function Dec<K>(gauge: map<K, int>, key: K): map<K, int> {
    gauge[key := Reading(gauge, key) - 1]
  }

  /** The active gauge marks the watched secrets; the other counts their pipelines by kind. */
  ghost predicate GaugesMatch(idx: Index, active: ActiveGauge, linked: LinkedGauge) {
    && (forall s :: Reading(active, s) == if s in idx then 1 else 0)
    && (forall s, kind :: Reading(linked, (s, kind)) == CountKind(Links(idx, s), kind))
  }

  ghost predicate Sound(idx: Index, active: ActiveGauge, linked: LinkedGauge) {
    WellFormed(idx) && GaugesMatch(idx, active, linked)
  }

  function ActiveLinked(idx: Index, active: ActiveGauge, s: Secret): ActiveGauge {
    if s in idx then active else Inc(active, s)
  }

  function CountLinked(idx: Index, linked: LinkedGauge, s: Secret, p: Pipeline): LinkedGauge {
    if p in Links(idx, s) then linked else Inc(linked, (s, p.gvk.kind))
  }

  lemma LinkCounts(idx: Index, linked: LinkedGauge, s: Secret, p: Pipeline, t: Secret, kind: string)
    requires forall r, k :: Reading(linked, (r, k)) == CountKind(Links(idx, r), k)
    ensures Reading(CountLinked(idx, linked, s, p), (t, kind)) == CountKind(Links(Linked(idx, p, {s}), t), kind)
  {
    LinkedOne(idx, p, s);
    CountAppended(Links(idx, s), p, kind);
  }

  lemma LinkSound(idx: Index, active: ActiveGauge, linked: LinkedGauge, s: Secret, p: Pipeline)
    requires Sound(idx, active, linked)
    ensures Sound(Linked(idx, p, {s}), ActiveLinked(idx, active, s), CountLinked(idx, linked, s, p))
  {
    LinkedOne(idx, p, s);
    LinkedWellFormed(idx, p, {s});
    forall t, kind
      ensures Reading(CountLinked(idx, linked, s, p), (t, kind)) == CountKind(Links(Linked(idx, p, {s}), t), kind)
    {
      LinkCounts(idx, linked, s, p, t, kind);
    }
  }

  function ActiveUnlinked(idx: Index, active: ActiveGauge, s: Secret, p: Pipeline): ActiveGauge {
    if Links(idx, s) != [] && Without(Links(idx, s), p) == [] then active[s := 0] else active
  }

  function CountUnlinked(idx: Index, linked: LinkedGauge, s: Secret, p: Pipeline): LinkedGauge {
    if p in Links(idx, s) then Dec(linked, (s, p.gvk.kind)) else linked
  }

  lemma UnlinkWellFormed(idx: Index, s: Secret, p: Pipeline)
    requires WellFormed(idx) && s in idx
    ensures WellFormed(UnlinkedFrom(idx, p, s))
  {
    UnlinkedFromCases(idx, p, s);
    WithoutNoDuplicates(idx[s], p);
  }

  lemma UnlinkCounts(idx: Index, linked: LinkedGauge, s: Secret, p: Pipeline, t: Secret, kind: string)
    requires WellFormed(idx) && s in idx
    requires forall r, k :: Reading(linked, (r, k)) == CountKind(Links(idx, r), k)
    ensures Reading(CountUnlinked(idx, linked, s, p), (t, kind)) == CountKind(Links(UnlinkedFrom(idx, p, s), t), kind)
  {
    UnlinkedFromCases(idx, p, s);
    if p in idx[s] {
      CountWithout(idx[s], p, kind);
    }
  }

  lemma UnlinkSound(idx: Index, active: ActiveGauge, linked: LinkedGauge, s: Secret, p: Pipeline)
    requires Sound(idx, active, linked) && s in idx
    ensures Sound(UnlinkedFrom(idx, p, s), ActiveUnlinked(idx, active, s, p), CountUnlinked(idx, linked, s, p))
  {
    UnlinkedFromCases(idx, p, s);
    UnlinkWellFormed(idx, s, p);
    forall t, kind
      ensures Reading(CountUnlinked(idx, linked, s, p), (t, kind)) == CountKind(Links(UnlinkedFrom(idx, p, s), t), kind)
    {
      UnlinkCounts(idx, linked, s, p, t, kind);
    }
  }

  // ---------------------------------------------------------------- the client

  datatype Error = Ok | ClientStopped

  type WatcherMap = map<Secret, Watcher>

  /** Every watcher stays, and one that is added was not `known` before. */
  ghost predicate Grows(a: WatcherMap, b: WatcherMap, known: set<Watcher>) {
    (forall s :: s in a ==> s in b && b[s] == a[s]) && forall s :: s in b && s !in a ==> b[s] !in known
  }

  ghost predicate Shrinks(a: WatcherMap, b: WatcherMap) {
    forall s :: s in b ==> s in a && b[s] == a[s]
  }

  /** A secret that is watched before and after keeps its watcher; a dropped watcher never comes back. */
  ghost predicate Keeps(a: WatcherMap, b: WatcherMap, known: set<Watcher>) {
    forall s :: s in b ==> if s in a then b[s] == a[s] else b[s] !in known
  }

  class Client {
    var watchers: WatcherMap
    var stopped: bool
    /** Every watcher whose goroutine was ever started. */
    var started: set<Watcher>
    var active: ActiveGauge
    var linkedPipelines: LinkedGauge

    ghost function Contents(): Index
      reads this`watchers, watchers.Values`linked
    {
      map s | s in watchers :: watchers[s].linked
    }

    predicate InMap(w: Watcher)
      reads this`watchers
    {
      w.secret in watchers && watchers[w.secret] == w
    }

    /**
     Before Stop exactly the watchers in the map run, one per secret; after it none does. A
     watcher that was dropped has no links left, so a late event of it reaches nobody.
     */
    ghost predicate Lifecycle()
      reads this`watchers, this`stopped, this`started, started`cancelled, started`linked
    {
      && (forall s :: s in watchers ==> watchers[s] in started && watchers[s].secret == s)
      && (forall w :: w in started ==> (w.cancelled <==> stopped || !InMap(w)))
      && forall w :: w in started && !InMap(w) ==> w.linked == []
    }

    ghost predicate Valid()
      reads this, started, watchers.Values
    {
      Lifecycle() && Sound(Contents(), active, linkedPipelines)
    }

    constructor ()
      ensures Valid() && !stopped && Contents() == map[] && fresh(started)
    {
      watchers, stopped, started, active, linkedPipelines := map[], false, {}, map[], map[];
    }

    /** Creates and starts the watcher of a secret nobody watches. */
    method StartWatcher(secret: Secret, p: Pipeline)
      requires Lifecycle() && !stopped && secret !in watchers
      modifies this`watchers, this`started
      ensures Lifecycle() && old(started) <= started && fresh(started - old(started))
      ensures Contents() == old(Contents())[secret := [p]] && Grows(old(watchers), watchers, old(started))
    {
      var w := new Watcher(secret, p);
      started := started + {w};
      watchers := watchers[secret := w];
    }

    method LinkTo(w: Watcher, p: Pipeline) returns (added: bool)
      requires Lifecycle() && InMap(w)
      modifies w`linked
      ensures Lifecycle() && (added <==> p !in old(w.linked))
      ensures Contents() == old(Contents())[w.secret := LinkedTo(old(w.linked), p)]
    {
      added := w.Link(p);
    }

    method UnlinkFrom(w: Watcher, p: Pipeline) returns (hasPipelines: bool)
      requires Lifecycle() && InMap(w)
      modifies w`linked
      ensures Lifecycle() && (hasPipelines <==> Without(old(w.linked), p) != [])
      ensures Contents() == old(Contents())[w.secret := Without(old(w.linked), p)]
    {
      hasPipelines := w.Unlink(p);
    }

    /** Stops and deletes a watcher. */
    method DropWatcher(w: Watcher)
      requires Lifecycle() && !stopped && InMap(w) && w.linked == []
      modifies this`watchers, w`cancelled
      ensures Lifecycle() && Contents() == old(Contents()) - {w.secret} && Shrinks(old(watchers), watchers)
    {
      w.Cancel();
      watchers := watchers - {w.secret};
    }

    /** The body of the first loop of SyncWatchers. */
    method LinkSecret(p: Pipeline, secret: Secret)
      requires Lifecycle() && !stopped
      modifies this, started
      ensures Lifecycle() && !stopped && old(started) <= started && fresh(started - old(started))
      ensures Contents() == Linked(old(Contents()), p, {secret}) && Grows(old(watchers), watchers, old(started))
      ensures active == ActiveLinked(old(Contents()), old(active), secret)
      ensures linkedPipelines == CountLinked(old(Contents()), old(linkedPipelines), secret, p)
    {
      ghost var idx := Contents();
      LinkedOne(idx, p, secret);
      if secret in watchers {
        var added := LinkTo(watchers[secret], p);
        if added {
          linkedPipelines := Inc(linkedPipelines, (secret, p.gvk.kind));
        }
      } else {
        StartWatcher(secret, p);
        active := Inc(active, secret);
        linkedPipelines := Inc(linkedPipelines, (secret, p.gvk.kind));
      }
      assert Contents() == Linked(idx, p, {secret});
    }

    /** The body of the loop of unlinkPipelineFromWatchers. */
    method UnlinkSecret(p: Pipeline, secret: Secret)
      requires Lifecycle() && !stopped && secret in watchers && watchers[secret].linked != []
      modifies this, started
      ensures Lifecycle() && !stopped && started == old(started)
      ensures Contents() == UnlinkedFrom(old(Contents()), p, secret) && Shrinks(old(watchers), watchers)
      ensures active == ActiveUnlinked(old(Contents()), old(active), secret, p)
      ensures linkedPipelines == CountUnlinked(old(Contents()), old(linkedPipelines), secret, p)
    {
      ghost var idx := Contents();
      UnlinkedFromCases(idx, p, secret);
      var w := watchers[secret];
      if !w.IsLinked(p) {
        return;
      }
      var hasPipelines := Detach(w, p);
      CountDown(secret, p.gvk.kind, !hasPipelines);
    }

    method CountDown(secret: Secret, kind: string, last: bool)
      modifies this`active, this`linkedPipelines
      ensures linkedPipelines == Dec(old(linkedPipelines), (secret, kind))
      ensures active == if last then old(active)[secret := 0] else old(active)
    {
      linkedPipelines := Dec(linkedPipelines, (secret, kind));
      if last {
        active := active[secret := 0];
      }
    }

    /** Unlinks, and drops a watcher that is left without pipelines. */
    method Detach(w: Watcher, p: Pipeline) returns (hasPipelines: bool)
      requires Lifecycle() && !stopped && InMap(w) && w.linked != []
      modifies this`watchers, w`linked, w`cancelled
      ensures Lifecycle() && (hasPipelines <==> Without(old(w.linked), p) != [])
      ensures Contents() == UnlinkedFrom(old(Contents()), p, w.secret) && Shrinks(old(watchers), watchers)
    {
      UnlinkedFromCases(Contents(), p, w.secret);
      hasPipelines := UnlinkFrom(w, p);
      if !hasPipelines {
        DropWatcher(w);
      }
    }

    method UnlinkPipelineFromWatchers(p: Pipeline, excluded: set<Secret>)
      requires Valid() && !stopped
      modifies this, started
      ensures Valid() && !stopped && started == old(started)
      ensures Contents() == Unlinked(old(Contents()), p, old(watchers).Keys - excluded)
      ensures Shrinks(old(watchers), watchers)
    {
      ghost var idx := Contents();
      var todo := watchers.Keys - excluded;
      ghost var done: set<Secret> := {};
      assert Unlinked(idx, p, {}) == idx;
      while todo != {}
        invariant Valid() && !stopped && started == old(started)
        invariant done !! todo && done + todo == old(watchers).Keys - excluded && todo <= watchers.Keys
        invariant Contents() == Unlinked(idx, p, done) && Shrinks(old(watchers), watchers)
        decreases todo
      {
        var secret :| secret in todo;
        ghost var before := Contents();
        assert secret in before;
        UnlinkSound(before, active, linkedPipelines, secret, p);
        UnlinkedOne(before, p, secret);
        UnlinkSecret(p, secret);
        UnlinkedStep(idx, p, done, secret);
        assert watchers.Keys == Contents().Keys;
        todo := todo - {secret};
        done := done + {secret};
      }
      assert done == old(watchers).Keys - excluded;
    }

    method SyncWatchers(p: Pipeline, secrets: seq<Secret>) returns (r: Error)
      requires Valid()
      modifies this, started
      ensures Valid() && stopped == old(stopped) && (r == ClientStopped <==> stopped)
      ensures old(started) <= started && fresh(started - old(started))
      ensures stopped ==> watchers == old(watchers) && started == old(started)
      ensures Keeps(old(watchers), watchers, old(started))
      ensures Contents() == if stopped then old(Contents()) else Synced(old(Contents()), p, set s | s in secrets)
    {
      if stopped {
        return ClientStopped;
      }
      var secretSet: set<Secret> := {};
      for i := 0 to |secrets|
        invariant secretSet == set s | s in secrets[..i]
      {
        assert secrets[..i + 1] == secrets[..i] + [secrets[i]];
        secretSet := secretSet + {secrets[i]};
      }
      assert secrets[..|secrets|] == secrets;
      ghost var idx := Contents();
      var todo := secretSet;
      ghost var done: set<Secret> := {};
      assert Linked(idx, p, {}) == idx;
      while todo != {}
        invariant Valid() && !stopped && old(started) <= started && fresh(started - old(started))
        invariant done !! todo && done + todo == secretSet
        invariant Contents() == Linked(idx, p, done) && Grows(old(watchers), watchers, old(started))
        decreases todo
      {
        var secret :| secret in todo;
        LinkSound(Contents(), active, linkedPipelines, secret, p);
        LinkSecret(p, secret);
        LinkedStep(idx, p, done, secret);
        todo := todo - {secret};
        done := done + {secret};
      }
      assert done == secretSet && watchers.Keys == Contents().Keys;
      UnlinkPipelineFromWatchers(p, secretSet);
      r := Ok;
    }

    method RemoveFromWatchers(p: Pipeline) returns (r: Error)
      requires Valid()
      modifies this, started
      ensures Valid() && stopped == old(stopped) && (r == ClientStopped <==> stopped) && started == old(started)
      ensures stopped ==> watchers == old(watchers)
      ensures Shrinks(old(watchers), watchers)
      ensures Contents() == if stopped then old(Contents()) else Synced(old(Contents()), p, {})
    {
      if stopped {
        return ClientStopped;
      }
      ghost var idx := Contents();
      assert Linked(idx, p, {}) == idx && watchers.Keys == idx.Keys;
      assert watchers.Keys - {} == idx.Keys - {};
      UnlinkPipelineFromWatchers(p, {});
      r := Ok;
    }

    /** Cancels every watcher in the map; the map itself is never touched again. */
    method Stop()
      requires Valid()
      modifies this`stopped, started`cancelled
      ensures Valid() && stopped && Contents() == old(Contents())
      ensures forall w :: w in started ==> w.cancelled
    {
      stopped := true;
      var todo := watchers.Keys;
      while todo != {}
        invariant todo <= watchers.Keys
        invariant Contents() == old(Contents())
        invariant stopped && forall w :: w in started ==> w.cancelled || (InMap(w) && w.secret in todo)
        decreases todo
      {
        var secret :| secret in todo;
        watchers[secret].Cancel();
        todo := todo - {secret};
      }
    }
  }

  /** The client is where its specification is after these happenings. */
  ghost predicate InStep(client: Client, calls: seq<Call>)
    reads client, client.started, client.watchers.Values
  {
    client.Valid() && client.stopped == StoppedAfter(calls) && client.Contents() == IndexAfter(calls)
  }

  /** One more happening in a run: its effect on the client, its answer, and whom it notifies. */
  method Happens(client: Client, ghost before: seq<Call>, c: Call) returns (refused: bool, routed: seq<Pipeline>)
    requires InStep(client, before)
    modifies client, client.started
    ensures InStep(client, before + [c])
    ensures old(client.started) <= client.started && fresh(client.started - old(client.started))
    ensures Keeps(old(client.watchers), client.watchers, old(client.started))
    ensures refused <==> c.Desires() && StoppedAfter(before)
    ensures routed == Notified(before, c)
  {
    IndexStep(before, c);
    var r := Ok;
    routed := [];
    match c {
      case Sync(p, secrets) =>
        r := client.SyncWatchers(p, secrets);
      case RemoveAll(p) =>
        r := client.RemoveFromWatchers(p);
      case StopClient =>
        client.Stop();
      case SecretEvent(secret, late) =>
        if secret in client.watchers && (!client.stopped || late) {
          routed := client.watchers[secret].Route();
        }
      case DroppedEvent(secret) =>
        if w :| w in client.started && w.secret == secret && !client.InMap(w) {
          routed := w.Route();
        }
    }
    refused := r == ClientStopped;
  }

  /** The same, adding to what a run gave so far. */
  method Answer(client: Client, ghost before: seq<Call>, c: Call, answers: seq<bool>,
                batches: seq<seq<Pipeline>>) returns (refused: seq<bool>, routed: seq<seq<Pipeline>>)
    requires InStep(client, before) && Answered(before, answers, batches)
    modifies client, client.started
    ensures InStep(client, before + [c]) && Answered(before + [c], refused, routed)
    ensures old(client.started) <= client.started && fresh(client.started - old(client.started))
  {
    AnsweredStep(before, c, answers, batches);
    var no, batch := Happens(client, before, c);
    refused, routed := answers + [no], batches + [batch];
  }

  method RunOn(client: Client, ghost before: seq<Call>, rest: seq<Call>, answers: seq<bool>,
               batches: seq<seq<Pipeline>>) returns (refused: seq<bool>, routed: seq<seq<Pipeline>>)
    requires InStep(client, before) && Answered(before, answers, batches)
    modifies client, client.started
    ensures InStep(client, before + rest) && Answered(before + rest, refused, routed)
    ensures old(client.started) <= client.started && fresh(client.started - old(client.started))
    decreases |rest|
  {
    if rest == [] {
      assert before + rest == before;
      return answers, batches;
    }
    assert before + rest == before + [rest[0]] + rest[1..];
    refused, routed := Answer(client, before, rest[0], answers, batches);
    refused, routed := RunOn(client, before + [rest[0]], rest[1..], refused, routed);
  }

  /**
   Any run of a new client: its watchers are the inverse of what the pipelines last asked for
   before Stop; exactly those watchers run, and after Stop none; the gauges count them; calls
   are refused exactly after Stop; and each event notifies exactly who wants it at that point.
   */
  method RunCalls(calls: seq<Call>) returns (client: Client, refused: seq<bool>, routed: seq<seq<Pipeline>>)
    ensures fresh(client) && client.Valid() && client.stopped == StoppedAfter(calls)
    ensures client.Contents() == IndexAfter(calls)
    ensures IsInverse(client.Contents(), DesiredAfter(calls))
    ensures WatchesWhatIsWanted(client.Contents(), DesiredAfter(calls))
    ensures Answered(calls, refused, routed)
  {
    client := new Client();
    refused, routed := RunOn(client, [], calls, [], []);
    assert [] + calls == calls;
    IndexIsInverse(calls);
  }

  /** One more happening decides whether a watcher is still in the map. */
  method Follow(client: Client, w: Watcher, ghost before: seq<Call>, c: Call) returns (serves: bool)
    requires InStep(client, before) && w in client.started
    modifies client, client.started
    ensures InStep(client, before + [c]) && w in client.started
    ensures old(client.started) <= client.started && fresh(client.started - old(client.started))
    ensures serves == client.InMap(w)
    ensures serves <==> old(client.InMap(w)) && w.secret in IndexAfter(before + [c])
  {
    var _, _ := Happens(client, before, c);
    serves := client.InMap(w);
    assert client.Contents().Keys == client.watchers.Keys;
  }

  /** The rest of a run, with an eye on one watcher. */
  method Continue(client: Client, w: Watcher, ghost before: seq<Call>, rest: seq<Call>, ghost since: nat)
    requires InStep(client, before) && w in client.started && since <= |before|
    requires client.InMap(w) == StillServes(before, since, |before|, w.secret)
    modifies client, client.started
    ensures InStep(client, before + rest) && w in client.started
    ensures client.InMap(w) == StillServes(before + rest, since, |before + rest|, w.secret)
    decreases |rest|
  {
    if rest == [] {
      assert before + rest == before;
      return;
    }
    assert before + rest == before + [rest[0]] + rest[1..];
    StillServesStep(before, rest[0], since, w.secret);
    WatchedNow(before + [rest[0]], w.secret);
    var _ := Follow(client, w, before, rest[0]);
    Continue(client, w, before + [rest[0]], rest[1..], since);
  }

  lemma WatchedAtPrefix(before: seq<Call>, c: Call, m: nat, s: Secret)
    requires m <= |before|
    ensures WatchedAt(before + [c], m, s) == WatchedAt(before, m, s)
  {
    assert (before + [c])[..m] == before[..m];
  }

  lemma WatchedNow(calls: seq<Call>, s: Secret)
    ensures WatchedAt(calls, |calls|, s) == (s in IndexAfter(calls))
  {
    assert calls[..|calls|] == calls;
  }

  lemma StillServesStep(before: seq<Call>, c: Call, since: nat, s: Secret)
    requires since <= |before|
    ensures StillServes(before + [c], since, |before| + 1, s) <==>
            StillServes(before, since, |before|, s) && WatchedAt(before + [c], |before| + 1, s)
  {
    forall m | 0 <= m <= |before| ensures WatchedAt(before + [c], m, s) == WatchedAt(before, m, s) {
      WatchedAtPrefix(before, c, m, s);
    }
  }

  /**
   One watcher through a run: the watcher of `s` after `since` happenings is in the map for as
   long as `s` is watched without a break, and at the end of the run, which may be any, it has
   exactly the links that the fan-out of its stream is stated for.
   */
  method FollowWatcher(calls: seq<Call>, since: nat, s: Secret) returns (client: Client, w: Watcher)
    requires since <= |calls| && s in IndexAfter(calls[..since])
    ensures InStep(client, calls) && w.secret == s && w in client.started
    ensures client.InMap(w) <==> StillServes(calls, since, |calls|, s)
    ensures w.linked == WatcherLinks(calls, since, |calls|, s)
  {
    client, w := WatcherAfter(calls[..since], s);
    assert calls[..since] + calls[since..] == calls;
    Continue(client, w, calls[..since], calls[since..], since);
    LinksOf(client, w, calls);
    assert calls[..|calls|] == calls;
  }

  /** The watcher of a secret that is watched after a run of a new client. */
  method WatcherAfter(calls: seq<Call>, s: Secret) returns (client: Client, w: Watcher)
    requires s in IndexAfter(calls)
    ensures fresh(client) && fresh(client.started) && InStep(client, calls)
    ensures w in client.started && client.InMap(w) && w.secret == s && StillServes(calls, |calls|, |calls|, s)
  {
    client := new Client();
    var _, _ := RunOn(client, [], calls, [], []);
    assert [] + calls == calls;
    WatchedNow(calls, s);
    assert s in client.Contents();
    w := client.watchers[s];
  }

  /** The links of a watcher, by whether it is in the map. */
  lemma LinksOf(client: Client, w: Watcher, calls: seq<Call>)
    requires InStep(client, calls) && w in client.started
    ensures w.linked == if client.InMap(w) then Links(IndexAfter(calls), w.secret) else []
  {
    assert client.InMap(w) ==> w.secret in client.Contents() && client.Contents()[w.secret] == w.linked;
  }

  lemma LinkedOne(idx: Index, p: Pipeline, s: Secret)
    ensures Linked(idx, p, {s}) == idx[s := LinkedTo(Links(idx, s), p)]
    ensures p in Links(idx, s) ==> Linked(idx, p, {s}) == idx
    ensures s !in idx ==> Linked(idx, p, {s}) == idx[s := [p]]
  {
    assert [] + [p] == [p];
  }

  function UnlinkedFrom(idx: Index, p: Pipeline, s: Secret): Index {
    var rest := Without(Links(idx, s), p);
    if rest == [] then idx - {s} else idx[s := rest]
  }

  lemma UnlinkedFromCases(idx: Index, p: Pipeline, s: Secret)
    requires s in idx && idx[s] != []
    ensures p !in idx[s] ==> UnlinkedFrom(idx, p, s) == idx && Without(idx[s], p) == idx[s]
    ensures idx[s := Without(idx[s], p)] - {s} == idx - {s}
  {
    if p !in idx[s] {
      WithoutAbsent(idx[s], p);
    }
  }

  lemma UnlinkedOne(idx: Index, p: Pipeline, s: Secret)
    requires s in idx
    ensures Unlinked(idx, p, {s}) == UnlinkedFrom(idx, p, s)
  {
  }

  lemma LinkedStep(idx: Index, p: Pipeline, done: set<Secret>, s: Secret)
    requires s !in done
    ensures Linked(Linked(idx, p, done), p, {s}) == Linked(idx, p, done + {s})
  {
  }

  lemma UnlinkedStep(idx: Index, p: Pipeline, done: set<Secret>, s: Secret)
    requires s !in done
    ensures Unlinked(Unlinked(idx, p, done), p, {s}) == Unlinked(idx, p, done + {s})
  {
  }
}
