/**
 The conversion of whole LogPipeline objects. The annotations of source and destination are
 one shared map, to which ConvertTo adds the serialized source and from which ConvertFrom
 takes it away again.
 */
module LogConversion {
  import opened Common
  import opened LogSpecs

  const DATA_ANNOTATION := "telemetry.kyma-project.io/conversion-data"

  /** A Go map; objects that were assigned the same metadata share it. */
  class AnnotationMap {
    var entries: map<string, string>

    constructor ()
      ensures entries == map[]
    {
      entries := map[];
    }
  }

  class AlphaLogPipeline {
    var annotations: AnnotationMap?
    var generation: int
    var spec: AlphaSpec

    constructor (annotations: AnnotationMap?, generation: int, spec: AlphaSpec)
      ensures this.annotations == annotations && this.generation == generation && this.spec == spec
    {
      this.annotations, this.generation, this.spec := annotations, generation, spec;
    }
  }

  class BetaLogPipeline {
    var annotations: AnnotationMap?
    var generation: int
    var spec: BetaSpec

    constructor (annotations: AnnotationMap?, generation: int, spec: BetaSpec)
      ensures this.annotations == annotations && this.generation == generation && this.spec == spec
    {
      this.annotations, this.generation, this.spec := annotations, generation, spec;
    }
  }

  /** What is serialized of the source: its metadata and spec, without the status. */
  datatype Saved = Saved(annotations: map<string, string>, generation: int, spec: AlphaSpec)

  /** JSON encoding and decoding, of which only the inverse law is known. */
  datatype Codec = Codec(encode: Saved -> string, decode: string -> Option<Saved>)

  function NilIfEmpty(l: NilableList): NilableList {
    if l == Some([]) then None else l
  }

  function WithoutEmptyLists(a: Application): Application {
    a.(containers := ContainerSelector(NilIfEmpty(a.containers.included), NilIfEmpty(a.containers.excluded)))
  }

  /** The spec with empty container lists read back as nil, which JSON does not tell apart. */
  function Reread(s: AlphaSpec): AlphaSpec {
    s.(application := MapOption(WithoutEmptyLists, s.application))
  }

  ghost predicate Inverse(codec: Codec) {
    forall s :: codec.decode(codec.encode(s)) == Some(s.(spec := Reread(s.spec)))
  }

  function Entries(annotations: AnnotationMap?): map<string, string>
    reads annotations
  {
    if annotations == null then map[] else annotations.entries
  }

  function Retained(codec: Codec, entries: map<string, string>): Option<Saved> {
    if DATA_ANNOTATION in entries then codec.decode(entries[DATA_ANNOTATION]) else None
  }

  method MarshalData(codec: Codec, src: AlphaLogPipeline, dst: BetaLogPipeline)
    modifies dst`annotations, dst.annotations
    ensures dst.annotations != null
    ensures if old(dst.annotations) == null then fresh(dst.annotations) else dst.annotations == old(dst.annotations)
    ensures dst.annotations.entries ==
            old(Entries(dst.annotations))[DATA_ANNOTATION :=
              codec.encode(Saved(old(Entries(src.annotations)), src.generation, src.spec))]
  {
    var data := codec.encode(Saved(Entries(src.annotations), src.generation, src.spec));
    var annotations := dst.annotations;
    if annotations == null {
      annotations := new AnnotationMap();
    }
    annotations.entries := annotations.entries[DATA_ANNOTATION := data];
    dst.annotations := annotations;
  }

  /** Up-conversion. A source that has annotations gets the data annotation too: the map is shared. */
  method ConvertTo(codec: Codec, src: AlphaLogPipeline, dst: BetaLogPipeline)
    modifies dst, src.annotations
    ensures src.annotations == old(src.annotations) && src.generation == old(src.generation)
            && src.spec == old(src.spec)
    ensures dst.annotations != null && dst.generation == src.generation && dst.spec == Up(src.spec)
    ensures if src.annotations == null then fresh(dst.annotations) else dst.annotations == src.annotations
    ensures dst.annotations.entries ==
            old(Entries(src.annotations))["telemetry.kyma-project.io/conversion-data" :=
              codec.encode(Saved(old(Entries(src.annotations)), src.generation, src.spec))]
  {
    dst.annotations := src.annotations;
    dst.generation := src.generation;
    dst.spec := Up(src.spec);
    MarshalData(codec, src, dst);
  }

  /** Finds the retained data, if any, and then removes it from the map it was found in. */
  method UnmarshalData(codec: Codec, from: BetaLogPipeline) returns (found: Option<Saved>, ok: bool)
    modifies from.annotations
    ensures ok <==> DATA_ANNOTATION in old(Entries(from.annotations)) ==>
                      codec.decode(old(Entries(from.annotations))[DATA_ANNOTATION]).Some?
    ensures ok ==> found == Retained(codec, old(Entries(from.annotations)))
    ensures Entries(from.annotations) ==
            if ok then old(Entries(from.annotations)) - {DATA_ANNOTATION}
            else old(Entries(from.annotations))
  {
    if from.annotations == null || DATA_ANNOTATION !in from.annotations.entries {
      return None, true;
    }
    var saved := codec.decode(from.annotations.entries[DATA_ANNOTATION]);
    if saved.None? {
      return None, false;
    }
    from.annotations.entries := from.annotations.entries - {DATA_ANNOTATION};
    return saved, true;
  }

  /**
   Down-conversion. A missing data annotation is no error; one that does not decode is. It
   vanishes from source and destination alike.
   */
  method ConvertFrom(codec: Codec, src: BetaLogPipeline, dst: AlphaLogPipeline) returns (ok: bool)
    modifies dst, src.annotations
    ensures src.annotations == old(src.annotations) && src.spec == old(src.spec)
            && src.generation == old(src.generation)
    ensures dst.annotations == src.annotations && dst.generation == src.generation
    ensures ok <==> DATA_ANNOTATION in old(Entries(src.annotations)) ==>
                      codec.decode(old(Entries(src.annotations))[DATA_ANNOTATION]).Some?
    ensures var entries := old(Entries(src.annotations));
            dst.spec == if ok && DATA_ANNOTATION in entries
                           && codec.decode(entries[DATA_ANNOTATION]).value.generation == src.generation
                        then codec.decode(entries[DATA_ANNOTATION]).value.spec
                        else Down(src.spec)
    ensures Entries(dst.annotations) ==
            if ok then old(Entries(src.annotations)) - {DATA_ANNOTATION}
            else old(Entries(src.annotations))
  {
    dst.annotations := src.annotations;
    dst.generation := src.generation;
    dst.spec := Down(src.spec);
    var saved;
    saved, ok := UnmarshalData(codec, src);
    if ok && saved.Some? && saved.value.generation == src.generation {
      dst.spec := saved.value.spec;
    }
  }

  /** The data annotation gives the saved source back, and taking it away leaves the other annotations. */
  lemma DataComesBack(codec: Codec, saved: Saved)
    requires Inverse(codec)
    ensures var entries := saved.annotations[DATA_ANNOTATION := codec.encode(saved)];
            && Retained(codec, entries) == Some(saved.(spec := Reread(saved.spec)))
            && entries - {DATA_ANNOTATION} == saved.annotations - {DATA_ANNOTATION}
  {
    assert codec.decode(codec.encode(saved)) == Some(saved.(spec := Reread(saved.spec)));
  }

  /** What a hub client may do between the two conversions: any new spec, with a new generation. */
  datatype HubEdit = NoEdit | Edited(generation: int, spec: BetaSpec)

  /**
   Spoke, hub, spoke. Without an edit the spec comes back as JSON reads it; after an edit that
   changed the generation the result is the plain conversion of the edited spec, never the
   stale copy. Either way the annotations are the original ones without the data annotation.
   */
  method SpokeHubSpoke(codec: Codec, src: AlphaLogPipeline, edit: HubEdit) returns (r: AlphaLogPipeline)
    requires Inverse(codec) && (edit.Edited? ==> edit.generation != src.generation)
    modifies src.annotations
    ensures fresh(r)
    ensures r.spec == if edit.NoEdit? then Reread(old(src.spec)) else Down(edit.spec)
    ensures r.generation == if edit.NoEdit? then old(src.generation) else edit.generation
    ensures Entries(r.annotations) == old(Entries(src.annotations)) - {DATA_ANNOTATION}
    ensures src.annotations != null ==> r.annotations == src.annotations
  {
    var hub := new BetaLogPipeline(null, 0, Up(src.spec));
    ConvertTo(codec, src, hub);
    if edit.Edited? {
      hub.spec := edit.spec;
      hub.generation := edit.generation;
    }
    r := new AlphaLogPipeline(null, 0, src.spec);
    ghost var saved := Saved(old(Entries(src.annotations)), old(src.generation), old(src.spec));
    DataComesBack(codec, saved);
    var ok := ConvertFrom(codec, hub, r);
  }

  ghost predicate NoEmptyContainerLists(s: AlphaSpec) {
    s.application.Some? ==>
      s.application.value.containers.included != Some([])
      && s.application.value.containers.excluded != Some([])
  }

  /** Exactly the specs without empty, non-nil container lists come back unchanged. */
  lemma RereadExactIff(s: AlphaSpec)
    ensures Reread(s) == s <==> NoEmptyContainerLists(s)
  {
    if s.application.Some? {
      var c := s.application.value.containers;
      assert WithoutEmptyLists(s.application.value).containers
         == ContainerSelector(NilIfEmpty(c.included), NilIfEmpty(c.excluded));
    }
  }

  /** The condition excludes something: an empty container list comes back as an absent one. */
  lemma EmptyContainerListLost()
    ensures exists s: AlphaSpec :: Reread(s) != s
  {
    var flags := Flags(None, None, None, None);
    var a := Application(flags, ApplicationNamespaces([], [], false), ContainerSelector(Some([]), None));
    var s := AlphaSpec(Some(a), None, "", None, None, Copied([], [], [], [], []));
    RereadExactIff(s);
    assert s.application.value.containers.included == Some([]) && !NoEmptyContainerLists(s);
  }
}
