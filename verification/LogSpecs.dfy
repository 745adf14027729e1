/**
 The LogPipeline specs of both API versions and the conversion between them, as values.

 Parts that the two versions declare alike are one type here. A nil list and an empty list are
 one value, except for the container lists, whose nil the conversion tests.
 */
module LogSpecs {
  import opened Common
  import opened NamespaceNames

  // ---------------------------------------------------------------- parts alike in both versions

  datatype SecretKeyRef = SecretKeyRef(name: string, namespace: string, key: string)

  datatype ValueType = ValueType(value: string, valueFrom: Option<SecretKeyRef>)

  datatype BasicAuth = BasicAuth(user: ValueType, password: ValueType)

  datatype OAuth2 = OAuth2(tokenURL: ValueType, clientID: ValueType, clientSecret: ValueType,
                           scopes: seq<string>, params: map<string, string>)

  datatype Authentication = Authentication(basic: Option<BasicAuth>, oauth2: Option<OAuth2>)

  datatype Header = Header(value: ValueType, name: string, prefix: string)

  datatype NamespaceSelector = NamespaceSelector(included: seq<string>, excluded: seq<string>)

  /** None is a nil list. */
  type NilableList = Option<seq<string>>

  datatype ContainerSelector = ContainerSelector(included: NilableList, excluded: NilableList)

  datatype Variable = Variable(name: string, valueFrom: Option<SecretKeyRef>)

  datatype File = File(name: string, content: string)

  datatype Transform = Transform(conditions: seq<string>, statements: seq<string>)

  /** The spec fields that are copied as they are. */
  datatype Copied = Copied(fluentBitFilters: seq<string>, files: seq<File>, variables: seq<Variable>,
                           transforms: seq<Transform>, filters: seq<seq<string>>)

  /** The HTTP output fields that are copied as they are. */
  datatype HttpCopied = HttpCopied(host: ValueType, user: Option<ValueType>, password: Option<ValueType>,
                                   uri: string, port: string, compress: string, format: string, dedot: bool)

  /** OTLPTLS of v1alpha1 and OutputTLS of v1beta1. */
  datatype OutputTls = OutputTls(insecure: bool, insecureSkipVerify: bool,
                                 ca: Option<ValueType>, cert: Option<ValueType>, key: Option<ValueType>)

  datatype Flags = Flags(enabled: Option<bool>, keepAnnotations: Option<bool>,
                         dropLabels: Option<bool>, keepOriginalBody: Option<bool>)

  // ---------------------------------------------------------------- v1alpha1

  datatype ApplicationNamespaces = ApplicationNamespaces(included: seq<string>, excluded: seq<string>, system: bool)

  datatype Application = Application(flags: Flags, namespaces: ApplicationNamespaces, containers: ContainerSelector)

  datatype AlphaOtlpInput = AlphaOtlpInput(disabled: bool, namespaces: Option<NamespaceSelector>)

  datatype AlphaHttpTls = AlphaHttpTls(disabled: bool, skipCertificateValidation: bool,
                                       ca: Option<ValueType>, cert: Option<ValueType>, key: Option<ValueType>)

  datatype AlphaHttp = AlphaHttp(copied: HttpCopied, tls: AlphaHttpTls)

  datatype AlphaOtlpOutput = AlphaOtlpOutput(protocol: string, endpoint: ValueType, path: string,
                                             authentication: Option<Authentication>, headers: seq<Header>,
                                             tls: Option<OutputTls>)

  datatype AlphaSpec = AlphaSpec(application: Option<Application>, otlpInput: Option<AlphaOtlpInput>, custom: string,
                                 http: Option<AlphaHttp>, otlpOutput: Option<AlphaOtlpOutput>, copied: Copied)

  // ---------------------------------------------------------------- v1beta1

  datatype Runtime = Runtime(flags: Flags, namespaces: Option<NamespaceSelector>, containers: Option<ContainerSelector>)

  datatype BetaOtlpInput = BetaOtlpInput(enabled: Option<bool>, namespaces: Option<NamespaceSelector>)

  datatype BetaHttp = BetaHttp(copied: HttpCopied, tls: OutputTls)

  datatype BetaOtlpOutput = BetaOtlpOutput(protocol: string, endpoint: ValueType, path: string,
                                           authentication: Option<Authentication>, headers: seq<Header>,
                                           tls: Option<OutputTls>,
                                           compression: string)

  datatype BetaSpec = BetaSpec(runtime: Option<Runtime>, otlpInput: Option<BetaOtlpInput>, custom: string,
                               http: Option<BetaHttp>, otlpOutput: Option<BetaOtlpOutput>, copied: Copied)

  function MapOption<A, B>(f: A -> B, o: Option<A>): Option<B> {
    if o.None? then None else Some(f(o.value))
  }

  // ---------------------------------------------------------------- v1alpha1 to v1beta1

  function SanitizedSelector(s: NamespaceSelector): NamespaceSelector {
    NamespaceSelector(Sanitized(s.included), Sanitized(s.excluded))
  }

  function UpNamespaces(n: ApplicationNamespaces): NamespaceSelector {
    var excludes :=
      if |n.included| == 0 && |n.excluded| == 0 && !n.system then SYSTEM_NAMESPACES
      else Sanitized(n.excluded);
    NamespaceSelector(Sanitized(n.included), excludes)
  }

  function UpApplication(a: Application): Runtime {
    Runtime(a.flags, Some(UpNamespaces(a.namespaces)),
            if a.containers.included.Some? || a.containers.excluded.Some? then Some(a.containers) else None)
  }

  function UpOtlpInput(i: AlphaOtlpInput): BetaOtlpInput {
    BetaOtlpInput(Some(!i.disabled), MapOption(SanitizedSelector, i.namespaces))
  }

  function UpHttp(h: AlphaHttp): BetaHttp {
    BetaHttp(h.copied, OutputTls(h.tls.disabled, h.tls.skipCertificateValidation, h.tls.ca, h.tls.cert, h.tls.key))
  }

  function UpOtlpOutput(o: AlphaOtlpOutput): BetaOtlpOutput {
    BetaOtlpOutput(o.protocol, o.endpoint, o.path, o.authentication, o.headers, o.tls, "")
  }

  function Up(s: AlphaSpec): BetaSpec {
    BetaSpec(MapOption(UpApplication, s.application), MapOption(UpOtlpInput, s.otlpInput), s.custom,
             MapOption(UpHttp, s.http), MapOption(UpOtlpOutput, s.otlpOutput), s.copied)
  }

  // ---------------------------------------------------------------- v1beta1 to v1alpha1

  function DownNamespaces(n: Option<NamespaceSelector>): ApplicationNamespaces {
    match n
    case None => ApplicationNamespaces([], [], false)
    case Some(s) =>
      if |s.included| == 0 && |s.excluded| == 0 then ApplicationNamespaces([], [], true)
      else ApplicationNamespaces(s.included, s.excluded, false)
  }

  function DownRuntime(r: Runtime): Application {
    Application(r.flags, DownNamespaces(r.namespaces),
                if r.containers.Some? then r.containers.value else ContainerSelector(None, None))
  }

  function DownOtlpInput(i: BetaOtlpInput): AlphaOtlpInput {
    AlphaOtlpInput(i.enabled.Some? && !i.enabled.value, MapOption(SanitizedSelector, i.namespaces))
  }

  function DownHttp(h: BetaHttp): AlphaHttp {
    AlphaHttp(h.copied, AlphaHttpTls(h.tls.insecure, h.tls.insecureSkipVerify, h.tls.ca, h.tls.cert, h.tls.key))
  }

  /** Compression has no counterpart and is dropped. */
  function DownOtlpOutput(o: BetaOtlpOutput): AlphaOtlpOutput {
    AlphaOtlpOutput(o.protocol, o.endpoint, o.path, o.authentication, o.headers, o.tls)
  }

  function Down(s: BetaSpec): AlphaSpec {
    AlphaSpec(MapOption(DownRuntime, s.runtime), MapOption(DownOtlpInput, s.otlpInput), s.custom,
              MapOption(DownHttp, s.http), MapOption(DownOtlpOutput, s.otlpOutput), s.copied)
  }

  // ---------------------------------------------------------------- meaning

  predicate ListSelects(included: seq<string>, excluded: seq<string>, ns: string) {
    (included == [] || ns in included) && ns !in excluded
  }

  /** Logs of which namespaces a v1alpha1 pipeline collects; by default all but the system ones. */
  predicate AlphaCollects(a: Option<Application>, ns: string) {
    match a
    case None => !SystemNamespace(ns)
    case Some(app) =>
      var n := app.namespaces;
      if n.included == [] && n.excluded == [] && !n.system then !SystemNamespace(ns)
      else ListSelects(n.included, n.excluded, ns)
  }

  /** The same of a v1beta1 pipeline, as the log agent's include and exclude paths have it. */
  predicate BetaCollects(r: Option<Runtime>, ns: string) {
    match r
    case None => !SystemNamespace(ns)
    case Some(runtime) =>
      if runtime.namespaces.None? then !SystemNamespace(ns)
      else ListSelects(runtime.namespaces.value.included, runtime.namespaces.value.excluded, ns)
  }

  /** Whether pushed data of a namespace passes; without a selector all does. */
  predicate SelectorPasses(s: Option<NamespaceSelector>, ns: string) {
    s.None? || ListSelects(s.value.included, s.value.excluded, ns)
  }

  /** The include list is absent, or sanitizing leaves some of it. */
  predicate IncludeSurvives(included: seq<string>) {
    included == [] || exists n :: n in included && ValidName(n)
  }

  lemma SanitizedEmptyIff(names: seq<string>)
    ensures Sanitized(names) == [] <==> forall n :: n in names ==> !ValidName(n)
  {
    if Sanitized(names) != [] {
      SanitizedMembers(names, Sanitized(names)[0]);
    }
    forall n | n in names && ValidName(n) ensures Sanitized(names) != [] {
      SanitizedMembers(names, n);
    }
  }

  /** For one legal namespace: sanitizing keeps its selection exactly in these cases. */
  lemma SanitizedSelects(included: seq<string>, excluded: seq<string>, ns: string)
    requires ValidName(ns)
    ensures (ListSelects(Sanitized(included), Sanitized(excluded), ns) <==> ListSelects(included, excluded, ns))
            <==> IncludeSurvives(included) || ns in excluded
  {
    SanitizedMembers(included, ns);
    SanitizedMembers(excluded, ns);
    SanitizedEmptyIff(included);
  }

  /**
   Up-conversion keeps what an application input collects from a legal namespace if and only
   if its include list survives sanitizing or the namespace is excluded anyway.
   */
  lemma UpKeepsCollection(a: Option<Application>, ns: string)
    requires ValidName(ns)
    ensures (BetaCollects(MapOption(UpApplication, a), ns) <==> AlphaCollects(a, ns)) <==>
            a.None? || IncludeSurvives(a.value.namespaces.included) || ns in a.value.namespaces.excluded
  {
    if a.Some? {
      var n := a.value.namespaces;
      SanitizedSelects(n.included, n.excluded, ns);
    }
  }

  /** The failing family is not empty: an include list of one invalid name turns into all namespaces. */
  lemma InvalidIncludeWidens()
    ensures exists a, ns :: ValidName(ns) && !AlphaCollects(Some(a), ns) && BetaCollects(Some(UpApplication(a)), ns)
  {
    var flags := Flags(None, None, None, None);
    var a := Application(flags, ApplicationNamespaces(["Not_A_Name"], [], false), ContainerSelector(None, None));
    var ns := "default";
    assert "Not_A_Name"[0] == 'N' && !Alphanumeric('N') && !ValidName("Not_A_Name");
    assert ValidName(ns);
    assert Sanitized(["Not_A_Name"]) == Sanitized(["Not_A_Name"][1..]) == [];
    assert ns !in ["Not_A_Name"];
    assert !AlphaCollects(Some(a), ns) && BetaCollects(Some(UpApplication(a)), ns);
  }

  /** Down-conversion always keeps it, for every namespace name: nil, empty struct and lists alike. */
  lemma DownKeepsCollection(r: Option<Runtime>, ns: string)
    ensures AlphaCollects(MapOption(DownRuntime, r), ns) <==> BetaCollects(r, ns)
  {
    if r.Some? && r.value.namespaces.Some? {
      var s := r.value.namespaces.value;
      assert DownRuntime(r.value).namespaces ==
         if s == NamespaceSelector([], []) then ApplicationNamespaces([], [], true)
                                                else ApplicationNamespaces(s.included, s.excluded, false);
    }
  }

  /** OTLP selectors are sanitized both ways, with the same exact condition; the enabled value never changes. */
  lemma OtlpInputKeepsMeaning(alpha: AlphaOtlpInput, beta: BetaOtlpInput, ns: string)
    requires ValidName(ns)
    ensures (SelectorPasses(UpOtlpInput(alpha).namespaces, ns) <==> SelectorPasses(alpha.namespaces, ns)) <==>
            alpha.namespaces.None? || IncludeSurvives(alpha.namespaces.value.included)
            || ns in alpha.namespaces.value.excluded
    ensures (SelectorPasses(DownOtlpInput(beta).namespaces, ns) <==> SelectorPasses(beta.namespaces, ns)) <==>
            beta.namespaces.None? || IncludeSurvives(beta.namespaces.value.included)
            || ns in beta.namespaces.value.excluded
    ensures OtlpEnabled(Some(UpOtlpInput(alpha))) == !alpha.disabled
    ensures OtlpEnabled(Some(beta)) == !DownOtlpInput(beta).disabled
  {
    if alpha.namespaces.Some? {
      SanitizedSelects(alpha.namespaces.value.included, alpha.namespaces.value.excluded, ns);
    }
    if beta.namespaces.Some? {
      SanitizedSelects(beta.namespaces.value.included, beta.namespaces.value.excluded, ns);
    }
  }

  // ---------------------------------------------------------------- which field is which

  predicate SameTls(a: AlphaHttpTls, b: OutputTls) {
    && a.disabled == b.insecure && a.skipCertificateValidation == b.insecureSkipVerify
    && a.ca == b.ca && a.cert == b.cert && a.key == b.key
  }

  predicate SameOtlpOutput(a: AlphaOtlpOutput, b: BetaOtlpOutput) {
    && a.protocol == b.protocol && a.endpoint == b.endpoint && a.path == b.path
    && a.authentication == b.authentication && a.headers == b.headers && a.tls == b.tls
  }

  /** Containers without any list and no container selector are the same. */
  predicate SameInput(a: Application, b: Runtime) {
    && a.flags == b.flags
    && a.containers.included == (if b.containers.None? then None else b.containers.value.included)
    && a.containers.excluded == (if b.containers.None? then None else b.containers.value.excluded)
  }

  /** Field by field, namespaces and the OTLP input aside. */
  predicate Corresponds(a: AlphaSpec, b: BetaSpec) {
    && (a.application.Some? <==> b.runtime.Some?)
    && (a.application.Some? && b.runtime.Some? ==> SameInput(a.application.value, b.runtime.value))
    && (a.otlpInput.Some? <==> b.otlpInput.Some?) && a.custom == b.custom
    && (a.http.Some? <==> b.http.Some?)
    && (a.http.Some? && b.http.Some? ==>
          a.http.value.copied == b.http.value.copied && SameTls(a.http.value.tls, b.http.value.tls))
    && (a.otlpOutput.Some? <==> b.otlpOutput.Some?)
    && (a.otlpOutput.Some? && b.otlpOutput.Some? ==> SameOtlpOutput(a.otlpOutput.value, b.otlpOutput.value))
    && a.copied == b.copied
  }

  /** Both directions respect one correspondence; up-conversion sets no compression. */
  lemma ConversionsCorrespond(a: AlphaSpec, b: BetaSpec)
    ensures Corresponds(a, Up(a)) && Corresponds(Down(b), b)
    ensures a.otlpOutput.Some? ==> Up(a).otlpOutput.value.compression == ""
    ensures a.application.Some? ==>
              (Up(a).runtime.value.containers.None? <==>
               a.application.value.containers == ContainerSelector(None, None))
  {
    if a.application.Some? {
      assert Up(a).runtime.value == UpApplication(a.application.value);
    }
    if b.runtime.Some? {
      assert Down(b).application.value == DownRuntime(b.runtime.value);
    }
    if a.http.Some? {
      assert Up(a).http.value == UpHttp(a.http.value);
    }
    if b.http.Some? {
      assert Down(b).http.value == DownHttp(b.http.value);
    }
    if a.otlpOutput.Some? {
      assert Up(a).otlpOutput.value == UpOtlpOutput(a.otlpOutput.value);
    }
    if b.otlpOutput.Some? {
      assert Down(b).otlpOutput.value == DownOtlpOutput(b.otlpOutput.value);
    }
  }

  // ---------------------------------------------------------------- hub, spoke, hub

  /** Whether the gateway treats the OTLP input as enabled. */
  predicate OtlpEnabled(i: Option<BetaOtlpInput>) {
    i.None? || i.value.enabled.None? || i.value.enabled.value
  }

  function NormalNamespaces(n: Option<NamespaceSelector>): NamespaceSelector {
    if n.None? then NamespaceSelector([], SYSTEM_NAMESPACES) else SanitizedSelector(n.value)
  }

  function NormalContainers(c: Option<ContainerSelector>): Option<ContainerSelector> {
    if c == Some(ContainerSelector(None, None)) then None else c
  }

  function NormalRuntime(r: Runtime): Runtime {
    Runtime(r.flags, Some(NormalNamespaces(r.namespaces)), NormalContainers(r.containers))
  }

  function NormalOtlpInput(i: BetaOtlpInput): BetaOtlpInput {
    BetaOtlpInput(Some(OtlpEnabled(Some(i))), MapOption(SanitizedSelector, i.namespaces))
  }

  function Uncompressed(o: BetaOtlpOutput): BetaOtlpOutput {
    o.(compression := "")
  }

  /** Defaults made explicit, names sanitized, compression dropped; everything else kept. */
  function Normal(s: BetaSpec): BetaSpec {
    s.(runtime := MapOption(NormalRuntime, s.runtime),
       otlpInput := MapOption(NormalOtlpInput, s.otlpInput),
       otlpOutput := MapOption(Uncompressed, s.otlpOutput))
  }

  lemma NormalNamespacesOf(n: Option<NamespaceSelector>)
    ensures UpNamespaces(DownNamespaces(n)) == NormalNamespaces(n)
    ensures NormalNamespaces(Some(NormalNamespaces(n))) == NormalNamespaces(n)
  {
    SystemNamespacesValid();
    if n.Some? {
      SanitizeIdempotent(n.value.included);
      SanitizeIdempotent(n.value.excluded);
    }
  }

  lemma SanitizedSelectorTwice(s: NamespaceSelector)
    ensures SanitizedSelector(SanitizedSelector(s)) == SanitizedSelector(s)
  {
    SanitizeIdempotent(s.included);
    SanitizeIdempotent(s.excluded);
  }

  /** The trip down and up gives the normal form, and a second trip changes nothing more. */
  lemma HubSpokeHub(s: BetaSpec)
    ensures Up(Down(s)) == Normal(s)
    ensures Up(Down(Normal(s))) == Normal(s)
    ensures OtlpEnabled(Normal(s).otlpInput) == OtlpEnabled(s.otlpInput)
  {
    TripOnce(s);
    TripOnce(Normal(s));
    if s.runtime.Some? { NormalNamespacesOf(s.runtime.value.namespaces); }
    if s.otlpInput.Some? && s.otlpInput.value.namespaces.Some? {
      SanitizedSelectorTwice(s.otlpInput.value.namespaces.value);
    }
  }

  lemma RuntimeTrip(r: Runtime)
    ensures UpApplication(DownRuntime(r)) == NormalRuntime(r)
  {
    NormalNamespacesOf(r.namespaces);
  }

  lemma OtlpInputTrip(i: BetaOtlpInput)
    ensures UpOtlpInput(DownOtlpInput(i)) == NormalOtlpInput(i)
  {
    if i.namespaces.Some? { SanitizedSelectorTwice(i.namespaces.value); }
  }

  lemma TripOnce(s: BetaSpec)
    ensures Up(Down(s)) == Normal(s)
  {
    if s.runtime.Some? { RuntimeTrip(s.runtime.value); }
    if s.otlpInput.Some? { OtlpInputTrip(s.otlpInput.value); }
    assert Up(Down(s)).http == s.http;
  }

  // ---------------------------------------------------------------- spoke, hub, spoke without the saved copy

  predicate AllValid(names: seq<string>) {
    forall n :: n in names ==> ValidName(n)
  }

  /** `system` is set exactly where both lists are empty, and every name is valid. */
  predicate PlainApplication(a: Application) {
    && (a.namespaces.system <==> a.namespaces.included == [] && a.namespaces.excluded == [])
    && AllValid(a.namespaces.included) && AllValid(a.namespaces.excluded)
  }

  predicate PlainOtlpInput(i: AlphaOtlpInput) {
    i.namespaces.Some? ==> AllValid(i.namespaces.value.included) && AllValid(i.namespaces.value.excluded)
  }

  lemma ApplicationTripIff(a: Application)
    ensures DownRuntime(UpApplication(a)) == a <==> PlainApplication(a)
  {
    SanitizedSameIff(a.namespaces.included);
    SanitizedSameIff(a.namespaces.excluded);
    assert SYSTEM_NAMESPACES[0] in SYSTEM_NAMESPACES;
    assert DownRuntime(UpApplication(a)).containers == a.containers;
  }

  lemma OtlpInputTripIff(i: AlphaOtlpInput)
    ensures DownOtlpInput(UpOtlpInput(i)) == i <==> PlainOtlpInput(i)
  {
    if i.namespaces.Some? {
      var s := i.namespaces.value;
      SanitizedSelectorTwice(s);
      SanitizedSameIff(s.included);
      SanitizedSameIff(s.excluded);
      assert SanitizedSelector(s) == s <==> Sanitized(s.included) == s.included && Sanitized(s.excluded) == s.excluded;
    }
  }

  /**
   What the saved copy is kept for: exactly these v1alpha1 specs survive the plain trip up and
   down, so for example every spec with the default selector does not.
   */
  lemma PlainTripIff(s: AlphaSpec)
    ensures Down(Up(s)) == s <==>
            && (s.application.Some? ==> PlainApplication(s.application.value))
            && (s.otlpInput.Some? ==> PlainOtlpInput(s.otlpInput.value))
  {
    if s.application.Some? { ApplicationTripIff(s.application.value); }
    if s.otlpInput.Some? { OtlpInputTripIff(s.otlpInput.value); }
    assert Down(Up(s)).http == s.http && Down(Up(s)).otlpOutput == s.otlpOutput;
  }

  /** The default selector is one that does not. */
  lemma DefaultSelectorLost()
    ensures exists s: AlphaSpec :: Down(Up(s)) != s
  {
    var flags := Flags(None, None, None, None);
    var a := Application(flags, ApplicationNamespaces([], [], false), ContainerSelector(None, None));
    var s := AlphaSpec(Some(a), None, "", None, None, Copied([], [], [], [], []));
    PlainTripIff(s);
    assert !PlainApplication(s.application.value);
  }
}
