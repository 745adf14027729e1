/**
 The OTLP gateway reconciler of internal/reconciler/otlpgateway: it reads the coordination
 config and renders the referenced pipelines whose generation is still the recorded one.
 */
module Gateway {
  import opened Common
  import opened CoordinationConfig

  /** A pipeline object; `spec` stands for everything a change of which bumps the generation. */
  datatype Pipeline = Pipeline(name: string, uid: nat, generation: int, deleting: bool, spec: string)

  datatype GetResult = Found(pipeline: Pipeline) | NotFound | Failed

  /** The Gets of one reconciliation: what each pipeline kind and name returned. */
  type Reader = (SignalType, string) -> GetResult

  predicate Renders(x: Reference, got: GetResult) {
    got.Found? && !got.pipeline.deleting && got.pipeline.generation == x.generation
  }

  function Fetched(refs: seq<Reference>, t: SignalType, get: Reader): Option<seq<Pipeline>> {
    if refs == [] then Some([])
    else
      var rest := Fetched(refs[1..], t, get);
      var got := get(t, refs[0].name);
      if got.Failed? || rest.None? then None
      else if Renders(refs[0], got) then Some([got.pipeline] + rest.value)
      else rest
  }

  function Prefixed(ps: seq<Pipeline>, rest: Option<seq<Pipeline>>): Option<seq<Pipeline>> {
    if rest.None? then None else Some(ps + rest.value)
  }

  // ---------------------------------------------------------------- the code

  /** fetchTracePipelines, fetchLogPipelines and fetchMetricPipelines, which differ only in the kind. */
  method FetchPipelines(refs: seq<Reference>, t: SignalType, get: Reader) returns (r: Option<seq<Pipeline>>)
    ensures r == Fetched(refs, t, get)
  {
    var pipelines: seq<Pipeline> := [];
    ghost var all := Fetched(refs, t, get);
    assert refs[0..] == refs && (all.Some? ==> [] + all.value == all.value);
    for i := 0 to |refs|
      invariant Fetched(refs, t, get) == Prefixed(pipelines, Fetched(refs[i..], t, get))
    {
      assert refs[i..][1..] == refs[i + 1..];
      var got := get(t, refs[i].name);
      if got.NotFound? {
        continue;
      }
      if got.Failed? {
        return None;
      }
      if got.pipeline.deleting {
        continue;
      }
      if got.pipeline.generation != refs[i].generation {
        continue;
      }
      ghost var rest := Fetched(refs[i + 1..], t, get);
      assert rest.Some? ==> pipelines + ([got.pipeline] + rest.value) == pipelines + [got.pipeline] + rest.value;
      pipelines := pipelines + [got.pipeline];
    }
    assert pipelines + [] == pipelines;
    r := Some(pipelines);
  }

  // ---------------------------------------------------------------- what is rendered

  /** A fetch fails exactly when one of its Gets fails with an error other than not found. */
  lemma {:induction false} FetchedFails(refs: seq<Reference>, t: SignalType, get: Reader)
    ensures Fetched(refs, t, get).None? <==> exists x :: x in refs && get(t, x.name).Failed?
  {
    if refs != [] {
      assert refs == [refs[0]] + refs[1..];
      FetchedFails(refs[1..], t, get);
    }
  }

  lemma {:induction false} FetchedMembers(refs: seq<Reference>, t: SignalType, get: Reader, p: Pipeline)
    requires Fetched(refs, t, get).Some?
    ensures p in Fetched(refs, t, get).value <==>
            exists x :: x in refs && get(t, x.name) == Found(p) && Renders(x, get(t, x.name))
  {
    if refs != [] {
      assert refs == [refs[0]] + refs[1..];
      FetchedMembers(refs[1..], t, get, p);
    }
  }

  ghost predicate ReturnsNamed(get: Reader) {
    forall t, name :: get(t, name).Found? ==> get(t, name).pipeline.name == name
  }

  ghost predicate Increasing(at: seq<nat>, bound: nat) {
    (forall i :: 0 <= i < |at| ==> at[i] < bound) && forall i, j :: 0 <= i < j < |at| ==> at[i] < at[j]
  }

  /** `at` places the rendered pipelines among the references they came from. */
  ghost predicate Places(at: seq<nat>, refs: seq<Reference>, ps: seq<Pipeline>) {
    && |at| == |ps| && Increasing(at, |refs|)
    && forall i :: 0 <= i < |at| ==> ps[i].name == refs[at[i]].name && ps[i].generation == refs[at[i]].generation
  }

  lemma PlacesShift(at: seq<nat>, refs: seq<Reference>, ps: seq<Pipeline>) returns (shifted: seq<nat>)
    requires refs != [] && Places(at, refs[1..], ps)
    ensures Places(shifted, refs, ps) && forall i :: 0 <= i < |shifted| ==> shifted[i] > 0
  {
    shifted := seq(|at|, i requires 0 <= i < |at| => at[i] + 1);
  }

  /** Rendering keeps the order of the references, each used at most once. */
  lemma {:induction false} FetchedInOrder(refs: seq<Reference>, t: SignalType, get: Reader) returns (at: seq<nat>)
    requires ReturnsNamed(get) && Fetched(refs, t, get).Some?
    ensures Places(at, refs, Fetched(refs, t, get).value)
  {
    if refs == [] {
      at := [];
    } else {
      var tail := FetchedInOrder(refs[1..], t, get);
      var shifted := PlacesShift(tail, refs, Fetched(refs[1..], t, get).value);
      at := if Renders(refs[0], get(t, refs[0].name)) then [0] + shifted else shifted;
    }
  }

  ghost predicate PipelineNamesDistinct(ps: seq<Pipeline>) {
    forall i, j :: 0 <= i < j < |ps| ==> ps[i].name != ps[j].name
  }

  lemma FetchedOnce(refs: seq<Reference>, t: SignalType, get: Reader)
    requires ReturnsNamed(get) && NamesDistinct(refs) && Fetched(refs, t, get).Some?
    ensures PipelineNamesDistinct(Fetched(refs, t, get).value)
  {
    var at := FetchedInOrder(refs, t, get);
  }
}
