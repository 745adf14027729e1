/**
 The OTLP gateway coordination ConfigMap of internal/resources/coordinationconfig: three lists
 of pipeline references, changed by read-modify-write with optimistic locking.
 */
module CoordinationConfig {
  import opened Common
  import opened ApiStore

  datatype SignalType = Trace | Log | Metric | LogFluentBit | Unknown(text: string)

  datatype Reference = Reference(name: string, generation: int, secretVersions: map<string, string>)

  datatype Config = Config(trace: seq<Reference>, log: seq<Reference>, metric: seq<Reference>)

  const EMPTY_CONFIG := Config([], [], [])

  datatype Update = Add(signal: SignalType, ref: Reference) | Remove(signal: SignalType, key: string)
  {
    function Name(): string {
      if Add? then ref.name else key
    }

    predicate Touches(t: SignalType, name: string) {
      signal == t && Name() == name
    }
  }

  /** The signal types that have a list; the others make both operations fail. */
  predicate HasSlice(t: SignalType) {
    t == Trace || t == Log || t == Metric
  }

  function Refs(c: Config, t: SignalType): seq<Reference>
    requires HasSlice(t)
  {
    match t
    case Trace => c.trace
    case Log => c.log
    case Metric => c.metric
  }

  function WithRefs(c: Config, t: SignalType, refs: seq<Reference>): Config
    requires HasSlice(t)
  {
    match t
    case Trace => c.(trace := refs)
    case Log => c.(log := refs)
    case Metric => c.(metric := refs)
  }

  function Upserted(refs: seq<Reference>, x: Reference): seq<Reference> {
    if refs == [] then [x]
    else if refs[0].name == x.name then [x] + refs[1..]
    else [refs[0]] + Upserted(refs[1..], x)
  }

  function WithoutName(refs: seq<Reference>, name: string): seq<Reference> {
    if refs == [] then []
    else if refs[0].name == name then WithoutName(refs[1..], name)
    else [refs[0]] + WithoutName(refs[1..], name)
  }

  function Apply(c: Config, u: Update): Config
    requires HasSlice(u.signal)
  {
    match u
    case Add(t, x) => WithRefs(c, t, Upserted(Refs(c, t), x))
    case Remove(t, name) => WithRefs(c, t, WithoutName(Refs(c, t), name))
  }

  /** All of a log of updates, applied in order to the empty config. */
  function Fold(log: seq<Update>): Config
    requires forall u :: u in log ==> HasSlice(u.signal)
  {
    if log == [] then EMPTY_CONFIG
    else Apply(Fold(log[..|log| - 1]), log[|log| - 1])
  }

  /** What the ConfigMap holds under its data key: no text, a config, or text that does not parse. */
  datatype Data = NoDocument | Document(config: Config) | Malformed

  /** The config a reader gets; a missing ConfigMap or an empty text is the empty config. */
  function Parsed(version: Option<Data>): Option<Config> {
    match version
    case None => Some(EMPTY_CONFIG)
    case Some(NoDocument) => Some(EMPTY_CONFIG)
    case Some(Document(c)) => Some(c)
    case Some(Malformed) => None
  }

  /** applyConfigUpdate: computed from version `at`, written while the history is `h`. */
  function Commit(h: History<Data>, at: nat, u: Update): (r: (History<Data>, bool))
    requires at < |h|
  {
    var config := Parsed(h[at]);
    if config.None? || !HasSlice(u.signal) then (h, false)
    else if (h[at].None? && CreateCommits(h)) || UpdateCommits(h, at)
    then (h + [Some(Document(Apply(config.value, u)))], true)
    else (h, false)
  }

  lemma {:induction false} UpsertedReplaces(refs: seq<Reference>, i: nat, x: Reference)
    requires i < |refs| && refs[i].name == x.name
    requires forall j :: 0 <= j < i ==> refs[j].name != x.name
    ensures Upserted(refs, x) == refs[i := x]
  {
    if i > 0 {
      UpsertedReplaces(refs[1..], i - 1, x);
      assert refs[i := x] == [refs[0]] + refs[1..][i - 1 := x];
    }
  }

  lemma {:induction false} UpsertedAppends(refs: seq<Reference>, x: Reference)
    requires forall j :: 0 <= j < |refs| ==> refs[j].name != x.name
    ensures Upserted(refs, x) == refs + [x]
  {
    if refs != [] {
      UpsertedAppends(refs[1..], x);
      assert refs + [x] == [refs[0]] + (refs[1..] + [x]);
    }
  }

  // ---------------------------------------------------------------- the code

  /** The decoded document, changed in place by the update closures. */
  class GatewayConfig {
    var trace: seq<Reference>
    var log: seq<Reference>
    var metric: seq<Reference>

    constructor (c: Config)
      ensures Value() == c
    {
      trace, log, metric := c.trace, c.log, c.metric;
    }

    function Value(): Config
      reads this
    {
      Config(trace, log, metric)
    }

    method GetSlice(t: SignalType) returns (slice: Option<seq<Reference>>)
      ensures slice == if HasSlice(t) then Some(Refs(Value(), t)) else None
    {
      match t {
        case Trace => slice := Some(trace);
        case Log => slice := Some(log);
        case Metric => slice := Some(metric);
        case _ => slice := None;
      }
    }

    method SetSlice(t: SignalType, refs: seq<Reference>)
      requires HasSlice(t)
      modifies this
      ensures Value() == WithRefs(old(Value()), t, refs)
    {
      match t {
        case Trace => trace := refs;
        case Log => log := refs;
        case Metric => metric := refs;
      }
    }

    method AddReference(t: SignalType, input: Reference) returns (ok: bool)
      modifies this
      ensures ok == HasSlice(t)
      ensures Value() == if ok then Apply(old(Value()), Add(t, input)) else old(Value())
    {
      var slice := GetSlice(t);
      if slice.None? {
        return false;
      }
      var refs := slice.value;
      ok := true;
      for i := 0 to |refs|
        invariant Value() == old(Value())
        invariant forall j :: 0 <= j < i ==> refs[j].name != input.name
      {
        if refs[i].name == input.name {
          UpsertedReplaces(refs, i, input);
          SetSlice(t, refs[i := input]);
          return;
        }
      }
      UpsertedAppends(refs, input);
      SetSlice(t, refs + [input]);
    }

    method RemoveReference(t: SignalType, name: string) returns (ok: bool)
      modifies this
      ensures ok == HasSlice(t)
      ensures Value() == if ok then Apply(old(Value()), Remove(t, name)) else old(Value())
    {
      var slice := GetSlice(t);
      if slice.None? {
        return false;
      }
      var refs := slice.value;
      var filtered: seq<Reference> := [];
      for i := 0 to |refs|
        invariant WithoutName(refs, name) == filtered + WithoutName(refs[i..], name)
      {
        assert refs[i..] == [refs[i]] + refs[i + 1..];
        if refs[i].name != name {
          assert filtered + WithoutName(refs[i..], name) == filtered + [refs[i]] + WithoutName(refs[i + 1..], name);
          filtered := filtered + [refs[i]];
        }
      }
      assert refs[|refs|..] == [] && filtered + [] == filtered;
      SetSlice(t, filtered);
      ok := true;
    }
  }

  /** The ConfigMap in the API server. */
  class CoordinationConfigMap {
    var history: History<Data>

    constructor ()
      ensures history == [None]
    {
      history := [None];
    }

    method ApplyConfigUpdate(u: Update, at: nat) returns (ok: bool)
      requires at < |history|
      modifies this
      ensures (history, ok) == Commit(old(history), at, u)
    {
      var exists_ := history[at].Some?;
      var parsed := Parsed(history[at]);
      if parsed.None? {
        return false;
      }
      var config := new GatewayConfig(parsed.value);
      if u.Add? {
        ok := config.AddReference(u.signal, u.ref);
      } else {
        ok := config.RemoveReference(u.signal, u.key);
      }
      if !ok {
        return;
      }
      ok := if exists_ then UpdateCommits(history, at) else CreateCommits(history);
      if ok {
        history := history + [Some(Document(config.Value()))];
      }
    }
  }

  // ---------------------------------------------------------------- secret versions

  datatype SecretGet = Secret(resourceVersion: string) | SecretNotFound | SecretGetFailed

  function MapKey(key: NamespacedName): string {
    key.namespace + "/" + key.name
  }

  ghost predicate SlashFree(s: string) {
    '/' !in s
  }

  /** Namespaces hold no slash, so the text key identifies the secret. */
  lemma MapKeyInjective(a: NamespacedName, b: NamespacedName)
    requires SlashFree(a.namespace) && SlashFree(b.namespace)
    requires MapKey(a) == MapKey(b)
    ensures a == b
  {
    var text := MapKey(a);
    assert text[|a.namespace|] == '/' && text[|b.namespace|] == '/';
    assert forall i :: 0 <= i < |a.namespace| ==> text[i] == a.namespace[i];
    assert forall i :: 0 <= i < |b.namespace| ==> text[i] == b.namespace[i];
    assert a.namespace == text[..|a.namespace|] && a.name == text[|a.namespace| + 1..];
    assert b.namespace == text[..|b.namespace|] && b.name == text[|b.namespace| + 1..];
  }

  /**
   CollectSecretVersions: the version of every existing secret once, failing only on an API
   error. With slash-free namespaces, as Kubernetes guarantees, the map is exact.
   */
  method CollectSecretVersions(refs: seq<NamespacedName>, get: NamespacedName -> SecretGet)
    returns (r: Option<map<string, string>>)
    ensures r.None? <==> exists ref :: ref in refs && get(ref) == SecretGetFailed
    ensures r.Some? ==>
              r.value.Keys == set ref | ref in refs && get(ref).Secret? :: MapKey(ref)
    ensures r.Some? && (forall ref :: ref in refs ==> SlashFree(ref.namespace)) ==>
              forall ref :: ref in refs && get(ref).Secret? ==> r.value[MapKey(ref)] == get(ref).resourceVersion
  {
    var versions: map<string, string> := map[];
    var seen: set<NamespacedName> := {};
    for i := 0 to |refs|
      invariant seen == set ref | ref in refs[..i]
      invariant forall ref :: ref in seen ==> get(ref) != SecretGetFailed
      invariant versions.Keys == set ref | ref in seen && get(ref).Secret? :: MapKey(ref)
      invariant (forall ref :: ref in refs ==> SlashFree(ref.namespace)) ==>
          forall ref :: ref in seen && get(ref).Secret? ==> versions[MapKey(ref)] == get(ref).resourceVersion
    {
      var key := refs[i];
      assert refs[..i + 1] == refs[..i] + [key];
      if key in seen {
        continue;
      }
      seen := seen + {key};
      match get(key) {
        case SecretNotFound =>
        case SecretGetFailed => return None;
        case Secret(resourceVersion) =>
          if forall ref :: ref in refs ==> SlashFree(ref.namespace) {
            forall ref | ref in seen && ref != key ensures MapKey(ref) != MapKey(key) {
              if MapKey(ref) == MapKey(key) { MapKeyInjective(ref, key); }
            }
          }
          versions := versions[MapKey(key) := resourceVersion];
      }
    }
    assert refs[..|refs|] == refs;
    r := Some(versions);
  }

  // ---------------------------------------------------------------- the lists are maps

  predicate NamesDistinct(refs: seq<Reference>) {
    forall i, j :: 0 <= i < j < |refs| ==> refs[i].name != refs[j].name
  }

  predicate IsMap(c: Config) {
    NamesDistinct(c.trace) && NamesDistinct(c.log) && NamesDistinct(c.metric)
  }

  /** A list read as a finite map from names. */
  function Find(refs: seq<Reference>, name: string): Option<Reference> {
    if refs == [] then None
    else if refs[0].name == name then Some(refs[0])
    else Find(refs[1..], name)
  }

  function Lookup(c: Config, t: SignalType, name: string): Option<Reference>
    requires HasSlice(t)
  {
    Find(Refs(c, t), name)
  }

  lemma {:induction false} FindMember(refs: seq<Reference>, x: Reference)
    ensures Find(refs, x.name) == Some(x) ==> x in refs
    ensures NamesDistinct(refs) && x in refs ==> Find(refs, x.name) == Some(x)
  {
    if refs != [] {
      assert refs == [refs[0]] + refs[1..];
      FindMember(refs[1..], x);
      if NamesDistinct(refs) && x in refs && refs[0].name == x.name {
        assert x == refs[0];
      }
    }
  }

  lemma {:induction false} FindNone(refs: seq<Reference>, name: string)
    ensures Find(refs, name).None? <==> forall x :: x in refs ==> x.name != name
  {
    if refs != [] {
      assert refs == [refs[0]] + refs[1..];
      FindNone(refs[1..], name);
    }
  }

  lemma {:induction false} UpsertedFind(refs: seq<Reference>, x: Reference, name: string)
    ensures Find(Upserted(refs, x), name) == if name == x.name then Some(x) else Find(refs, name)
  {
    if refs != [] && refs[0].name != x.name {
      UpsertedFind(refs[1..], x, name);
    }
  }

  lemma {:induction false} WithoutNameFind(refs: seq<Reference>, gone: string, name: string)
    ensures Find(WithoutName(refs, gone), name) == if name == gone then None else Find(refs, name)
  {
    if refs != [] {
      WithoutNameFind(refs[1..], gone, name);
    }
  }

  lemma TailDistinct(refs: seq<Reference>)
    requires refs != [] && NamesDistinct(refs)
    ensures forall y :: y in refs[1..] ==> y.name != refs[0].name
  {
    forall y | y in refs[1..] ensures y.name != refs[0].name {
      var j :| 1 <= j < |refs| && refs[j] == y;
    }
  }

  lemma {:induction false} UpsertedDistinct(refs: seq<Reference>, x: Reference)
    requires NamesDistinct(refs)
    ensures NamesDistinct(Upserted(refs, x))
    ensures forall y :: y in Upserted(refs, x) ==> y == x || y in refs
  {
    if refs != [] && refs[0].name != x.name {
      UpsertedDistinct(refs[1..], x);
      TailDistinct(refs);
    }
  }

  lemma {:induction false} WithoutNameDistinct(refs: seq<Reference>, name: string)
    requires NamesDistinct(refs)
    ensures NamesDistinct(WithoutName(refs, name))
    ensures forall y :: y in WithoutName(refs, name) ==> y in refs
  {
    if refs != [] {
      WithoutNameDistinct(refs[1..], name);
      TailDistinct(refs);
    }
  }

  /** One update, read as a finite map over (signal, name): it sets or clears its own entry and no other. */
  lemma ApplyLookup(c: Config, u: Update, t: SignalType, name: string)
    requires HasSlice(u.signal) && HasSlice(t)
    ensures Lookup(Apply(c, u), t, name) ==
            if !u.Touches(t, name) then Lookup(c, t, name)
            else if u.Add? then Some(u.ref) else None
  {
    match u
    case Add(_, x) => UpsertedFind(Refs(c, u.signal), x, name);
    case Remove(_, gone) => WithoutNameFind(Refs(c, u.signal), gone, name);
  }

  lemma ApplyKeepsMap(c: Config, u: Update)
    requires HasSlice(u.signal) && IsMap(c)
    ensures IsMap(Apply(c, u))
  {
    match u
    case Add(t, x) => UpsertedDistinct(Refs(c, t), x);
    case Remove(t, name) => WithoutNameDistinct(Refs(c, t), name);
  }

  /** The entry of (t, name) after an update, when it was `entry` before. */
  function EntryAfter(u: Update, t: SignalType, name: string, entry: Option<Reference>): Option<Reference> {
    match u
    case Add(signal, x) => if signal == t && x.name == name then Some(x) else entry
    case Remove(signal, key) => if signal == t && key == name then None else entry
  }

  /** The same list by list, and the lists of the other signals stay as they are. */
  lemma ApplyByList(c: Config, u: Update, name: string)
    requires HasSlice(u.signal)
    ensures Find(Apply(c, u).trace, name) == EntryAfter(u, Trace, name, Find(c.trace, name))
    ensures Find(Apply(c, u).log, name) == EntryAfter(u, Log, name, Find(c.log, name))
    ensures Find(Apply(c, u).metric, name) == EntryAfter(u, Metric, name, Find(c.metric, name))
    ensures u.signal != Trace ==> Apply(c, u).trace == c.trace
    ensures u.signal != Log ==> Apply(c, u).log == c.log
    ensures u.signal != Metric ==> Apply(c, u).metric == c.metric
  {
    ApplyLookup(c, u, Trace, name);
    ApplyLookup(c, u, Log, name);
    ApplyLookup(c, u, Metric, name);
  }

  /**
   Every outcome of a read-modify-write: from a missing ConfigMap or an empty text the update is
   applied to the empty config; text that does not parse, a signal without a list, and anything
   written since the read make it fail, and then nothing changes.
   */
  lemma CommitOutcome(h: History<Data>, at: nat, u: Update)
    requires at < |h|
    ensures var (h', ok) := Commit(h, at, u);
            && (ok <==> && (u.signal == Trace || u.signal == Log || u.signal == Metric)
                        && h[at] != Some(Malformed)
                        && if h[at].None? then Stored(h) == None else at == |h| - 1)
            && (!ok ==> h' == h)
            && (ok ==> && |h'| == |h| + 1 && h'[..|h|] == h && Stored(h').Some? && Stored(h').value.Document?
                       && Stored(h').value.config ==
                          Apply(if h[at].Some? && h[at].value.Document? then h[at].value.config
                                else Config([], [], []), u))
  {
  }

  /** Updates of different (signal, name) commute, entry by entry; no list of a third signal changes at all. */
  lemma UpdatesCommute(c: Config, u: Update, v: Update, t: SignalType, name: string)
    requires HasSlice(u.signal) && HasSlice(v.signal) && HasSlice(t)
    requires !u.Touches(v.signal, v.Name())
    ensures Lookup(Apply(Apply(c, u), v), t, name) == Lookup(Apply(Apply(c, v), u), t, name)
    ensures t != u.signal && t != v.signal ==> Refs(Apply(Apply(c, u), v), t) == Refs(c, t)
  {
    ApplyLookup(c, u, t, name);
    ApplyLookup(c, v, t, name);
    ApplyLookup(Apply(c, u), v, t, name);
    ApplyLookup(Apply(c, v), u, t, name);
  }

  lemma {:induction false} UpsertedTwice(refs: seq<Reference>, x: Reference)
    ensures Upserted(Upserted(refs, x), x) == Upserted(refs, x)
    ensures WithoutName(Upserted(refs, x), x.name) == WithoutName(refs, x.name)
  {
    if refs != [] {
      if refs[0].name == x.name {
        assert ([x] + refs[1..])[1..] == refs[1..];
      } else {
        UpsertedTwice(refs[1..], x);
        assert ([refs[0]] + Upserted(refs[1..], x))[1..] == Upserted(refs[1..], x);
      }
    }
  }

  /** Writing a reference twice is writing it once, and removing it undoes the write: as lists, order included. */
  lemma AddIdempotentRemoveUndoes(c: Config, t: SignalType, x: Reference)
    requires HasSlice(t)
    ensures Apply(Apply(c, Add(t, x)), Add(t, x)) == Apply(c, Add(t, x))
    ensures Apply(Apply(c, Add(t, x)), Remove(t, x.name)) == Apply(c, Remove(t, x.name))
  {
    UpsertedTwice(Refs(c, t), x);
  }

  lemma {:induction false} FoldIsMap(log: seq<Update>)
    requires forall u :: u in log ==> HasSlice(u.signal)
    ensures IsMap(Fold(log))
  {
    if log != [] {
      FoldIsMap(log[..|log| - 1]);
      ApplyKeepsMap(Fold(log[..|log| - 1]), log[|log| - 1]);
    }
  }

  /** The effect of the last update of the log that concerns (t, name). */
  function LastWrite(log: seq<Update>, t: SignalType, name: string): Option<Reference> {
    if log == [] then None
    else
      var u := log[|log| - 1];
      if !u.Touches(t, name) then LastWrite(log[..|log| - 1], t, name)
      else if u.Add? then Some(u.ref) else None
  }

  lemma {:induction false} FoldLookup(log: seq<Update>, t: SignalType, name: string)
    requires forall u :: u in log ==> HasSlice(u.signal)
    requires HasSlice(t)
    ensures Lookup(Fold(log), t, name) == LastWrite(log, t, name)
  {
    if log != [] {
      FoldLookup(log[..|log| - 1], t, name);
      ApplyLookup(Fold(log[..|log| - 1]), log[|log| - 1], t, name);
    }
  }

  /** Position `i` holds the last update of the log that concerns (t, name). */
  ghost predicate LastTouch(log: seq<Update>, i: int, t: SignalType, name: string) {
    && 0 <= i < |log| && log[i].Touches(t, name)
    && forall j :: i < j < |log| ==> !log[j].Touches(t, name)
  }

  lemma {:induction false} LastWritePosition(log: seq<Update>, t: SignalType, x: Reference) returns (i: int)
    requires LastWrite(log, t, x.name) == Some(x)
    ensures LastTouch(log, i, t, x.name) && log[i] == Add(t, x)
  {
    if log[|log| - 1].Touches(t, x.name) {
      i := |log| - 1;
    } else {
      i := LastWritePosition(log[..|log| - 1], t, x);
    }
  }

  lemma {:induction false} LastTouchWrites(log: seq<Update>, i: int, t: SignalType, x: Reference)
    requires LastTouch(log, i, t, x.name) && log[i] == Add(t, x)
    ensures LastWrite(log, t, x.name) == Some(x)
  {
    if i < |log| - 1 {
      LastTouchWrites(log[..|log| - 1], i, t, x);
    }
  }

  /**
   A reference is listed exactly when the last update of its (signal, name) in the log added
   exactly that reference.
   */
  lemma FoldMember(log: seq<Update>, t: SignalType, x: Reference)
    requires forall u :: u in log ==> HasSlice(u.signal)
    requires HasSlice(t)
    ensures x in Refs(Fold(log), t) <==> exists i :: LastTouch(log, i, t, x.name) && log[i] == Add(t, x)
  {
    FoldIsMap(log);
    FindMember(Refs(Fold(log), t), x);
    FoldLookup(log, t, x.name);
    if x in Refs(Fold(log), t) {
      var i := LastWritePosition(log, t, x);
    }
    forall i | LastTouch(log, i, t, x.name) && log[i] == Add(t, x)
      ensures x in Refs(Fold(log), t)
    {
      LastTouchWrites(log, i, t, x);
    }
  }
}
