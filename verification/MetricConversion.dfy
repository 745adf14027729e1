/**
 The up-conversion of MetricPipeline inputs. The generated converters make source and
 destination share one Namespaces object; the manual step for the runtime input then sanitizes
 that object in place, whereas the one for the OTLP input replaces it by a new one.
 */
module MetricConversion {
  import opened Common
  import opened NamespaceNames

  class NamespaceSelector {
    var included: seq<string>
    var excluded: seq<string>

    constructor (included: seq<string>, excluded: seq<string>)
      ensures this.included == included && this.excluded == excluded
    {
      this.included, this.excluded := included, excluded;
    }
  }

  /** MetricPipelineRuntimeInput, alike in both versions; `resources` stands for the shared resource switches. */
  class RuntimeInput {
    var enabled: Option<bool>
    var namespaces: NamespaceSelector?
    var resources: map<string, Option<bool>>
    var additionalMetrics: seq<string>

    constructor ()
      ensures namespaces == null && enabled == None && resources == map[] && additionalMetrics == []
    {
      enabled, namespaces, resources, additionalMetrics := None, null, map[], [];
    }
  }

  class AlphaOtlpInput {
    var disabled: bool
    var namespaces: NamespaceSelector?
  }

  class BetaOtlpInput {
    var enabled: Option<bool>
    var namespaces: NamespaceSelector?
  }

  datatype Lists = Lists(included: seq<string>, excluded: seq<string>)

  /** The lists of a selector, or nothing where it is nil. */
  function ListsOf(s: NamespaceSelector?): Option<Lists>
    reads s
  {
    if s == null then None else Some(Lists(s.included, s.excluded))
  }

  function SanitizedLists(l: Option<Lists>): Option<Lists> {
    if l.None? then None else Some(Lists(Sanitized(l.value.included), Sanitized(l.value.excluded)))
  }

  lemma SanitizedListsTwice(l: Option<Lists>)
    ensures SanitizedLists(SanitizedLists(l)) == SanitizedLists(l)
  {
    if l.Some? {
      SanitizeIdempotent(l.value.included);
      SanitizeIdempotent(l.value.excluded);
    }
  }

  method ConvertRuntimeInput(src: RuntimeInput, dst: RuntimeInput)
    requires src != dst
    modifies dst, src.namespaces
    ensures dst.namespaces == src.namespaces == old(src.namespaces)
    ensures ListsOf(src.namespaces) == SanitizedLists(old(ListsOf(src.namespaces)))
    ensures src.namespaces != null ==> && src.namespaces.included == Sanitized(old(src.namespaces.included))
                                       && src.namespaces.excluded == Sanitized(old(src.namespaces.excluded))
    ensures dst.enabled == src.enabled == old(src.enabled) && dst.resources == src.resources == old(src.resources)
    ensures dst.additionalMetrics == src.additionalMetrics == old(src.additionalMetrics)
  {
    dst.enabled := src.enabled;
    dst.namespaces := src.namespaces;
    dst.resources := src.resources;
    dst.additionalMetrics := src.additionalMetrics;
    if src.namespaces != null {
      var included := SanitizeNamespaceNames(src.namespaces.included);
      dst.namespaces.included := included;
      var excluded := SanitizeNamespaceNames(src.namespaces.excluded);
      dst.namespaces.excluded := excluded;
    }
  }

  /**
   Converting one heap object again and again. Although each conversion overwrites its own
   source, all results are equal: the valid names of the original lists, in order.
   */
  method ConvertRepeatedly(src: RuntimeInput, times: nat) returns (results: seq<RuntimeInput>)
    modifies src.namespaces
    ensures |results| == times && forall i :: 0 <= i < times ==> fresh(results[i])
    ensures src.namespaces == old(src.namespaces)
    ensures forall i :: 0 <= i < times ==> results[i].namespaces == src.namespaces && results[i].enabled == src.enabled
                                           && results[i].resources == src.resources
                                           && results[i].additionalMetrics == src.additionalMetrics
    ensures ListsOf(src.namespaces) ==
            if times == 0 then old(ListsOf(src.namespaces))
            else SanitizedLists(old(ListsOf(src.namespaces)))
  {
    results := [];
    SanitizedListsTwice(ListsOf(src.namespaces));
    for n := 0 to times
      invariant |results| == n && forall i :: 0 <= i < n ==> fresh(results[i])
      invariant src.namespaces == old(src.namespaces)
      invariant forall i :: 0 <= i < n ==> results[i].namespaces == src.namespaces && results[i].enabled == src.enabled
                                           && results[i].resources == src.resources
                                           && results[i].additionalMetrics == src.additionalMetrics
      invariant ListsOf(src.namespaces) ==
              if n == 0 then old(ListsOf(src.namespaces))
              else SanitizedLists(old(ListsOf(src.namespaces)))
    {
      var dst := new RuntimeInput();
      ConvertRuntimeInput(src, dst);
      results := results + [dst];
    }
  }

  /** Here the shared object is only a first step: the source keeps its own lists. */
  method ConvertOtlpInput(src: AlphaOtlpInput, dst: BetaOtlpInput)
    modifies dst
    ensures dst.enabled == Some(!src.disabled)
    ensures ListsOf(dst.namespaces) == SanitizedLists(ListsOf(src.namespaces))
    ensures dst.namespaces == null <==> src.namespaces == null
    ensures dst.namespaces != null ==> && fresh(dst.namespaces)
                                       && dst.namespaces.included == Sanitized(src.namespaces.included)
                                       && dst.namespaces.excluded == Sanitized(src.namespaces.excluded)
  {
    dst.namespaces := src.namespaces;
    dst.enabled := Some(!src.disabled);
    if src.namespaces != null {
      var included := SanitizeNamespaceNames(src.namespaces.included);
      var excluded := SanitizeNamespaceNames(src.namespaces.excluded);
      dst.namespaces := new NamespaceSelector(included, excluded);
    }
  }
}
