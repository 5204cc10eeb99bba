/**
 * The values that flow through the extension cache: the configuration, what
 * the host loader hands back, the typed extension records and the
 * diagnostics. JavaScript values are reduced to what the cache inspects:
 * truthiness, `typeof`, the string-valued `"extension-kind"` field, and an
 * opaque identity.
 */
module ExtensionTypes {
  import opened Wrappers

  /** The two recognised kind tags (`ExtensionKind.SemanticLint`, `ExtensionKind.SyntacticLint`). */
  const SemanticLint: string := "semantic-lint"
  const SyntacticLint: string := "syntactic-lint"

  /** The export key whose extension takes the bare configured name. */
  const DefaultExportKey: string := "default"

  /** The `typeof` a lint provider must have. */
  const FunctionType: string := "function"

  predicate IsLintKind(tag: string) {
    tag == SemanticLint || tag == SyntacticLint
  }

  /** An argument payload from the configuration, passed through unexamined. */
  type ArgPayload = nat

  /**
   * One exported value: whether it is truthy, its `typeof`, its
   * `"extension-kind"` field when that field is a string (None when it is
   * missing or not a string), and an identity standing for the value itself.
   */
  datatype ExportValue = ExportValue(truthy: bool, typeOf: string, kindTag: Option<string>, payload: nat)

  /**
   * What a module evaluates to: a falsy value, or a truthy one whose own
   * enumerable keys, in enumeration order, map to the given values (a truthy
   * primitive has none).
   */
  datatype ModuleResult = Falsy | Exports(members: seq<(string, ExportValue)>)

  /** A value thrown by the loader: its truthiness and its message. */
  datatype Thrown = Thrown(truthy: bool, message: string)

  /** What one call of `host.loadExtension(path)` does. */
  datatype LoadOutcome = Returned(result: ModuleResult) | Threw(thrown: Thrown)

  /** The host: whether it has `loadExtension` at all, and what that does for each resolved path. */
  datatype Host = Host(canLoad: bool, load: string -> LoadOutcome)

  /** `options.extensions`: an array of names, or an object mapping each name to its argument payload. */
  datatype ExtensionConfig = Names(names: seq<string>) | WithArgs(entries: seq<(string, ArgPayload)>)

  /** The error a failed load is reported with. */
  datatype LoadError =
    | NotLocated(name: string)    // "Host could not locate extension '<name>'."
    | LoadingNotImplemented       // "Extension loading not implemented in host!"
    | Raised(message: string)     // whatever the loader threw

  /** A diagnostic, kept as the tuple of its template's arguments. */
  datatype Diagnostic =
    | LoadFailed(error: LoadError)
    | KindMismatch(extension: string, member: string, kindLabel: Option<string>, actualType: string, expectedType: string)

  /** A lint record's validated constructor, or the raw value of an export of any other kind. */
  datatype Provider = Ctor(ctor: nat) | Unchecked(value: nat)

  /** One typed extension record. */
  datatype Extension = Extension(name: string, args: Option<ArgPayload>, kind: string, provider: Provider)

  /** Records grouped by kind tag. */
  type Collection = map<string, seq<Extension>>

  /** The outcome of loading one configured name. */
  datatype LoadResult = LoadResult(name: string, result: ModuleResult, error: Option<LoadError>)

  /** `extensionNames`: the array itself, or the object's keys in order. */
  function ExtensionNames(config: ExtensionConfig): (names: seq<string>)
    ensures config.Names? ==> names == config.names
    ensures config.WithArgs? ==> |names| == |config.entries| && forall i :: 0 <= i < |names| ==> names[i] == config.entries[i].0
  {
    match config
    case Names(names) => names
    case WithArgs(entries) => seq(|entries|, i requires 0 <= i < |entries| => entries[i].0)
  }

  /** Property lookup on the configuration object (`undefined`, here None, for a missing key). */
  function Lookup(entries: seq<(string, ArgPayload)>, name: string): (a: Option<ArgPayload>)
    ensures a.None? <==> forall i :: 0 <= i < |entries| ==> entries[i].0 != name
    ensures a.Some? ==> exists i :: 0 <= i < |entries| && entries[i] == (name, a.value)
  {
    if |entries| == 0 then None
    else if entries[0].0 == name then Some(entries[0].1)
    else
      var a := Lookup(entries[1..], name);
      assert forall i :: 1 <= i < |entries| ==> entries[i] == entries[1..][i - 1];
      a
  }

  /** The `args` of every record of the named extension: undefined for an array configuration. */
  function ArgsFor(config: ExtensionConfig, name: string): (a: Option<ArgPayload>)
    ensures config.Names? ==> a.None?
    ensures config.WithArgs? ==> (a.None? <==> forall i :: 0 <= i < |config.entries| ==> config.entries[i].0 != name)
  {
    match config
    case Names(_) => None
    case WithArgs(entries) => Lookup(entries, name)
  }

  /** An object's keys are distinct. */
  predicate DistinctKeys(entries: seq<(string, ArgPayload)>) {
    forall i, j :: 0 <= i < j < |entries| ==> entries[i].0 != entries[j].0
  }

  /** A name configured with an argument payload gets exactly that payload. */
  lemma {:induction false} ArgsForConfiguredName(entries: seq<(string, ArgPayload)>, i: nat)
    requires DistinctKeys(entries)
    requires i < |entries|
    ensures ArgsFor(WithArgs(entries), entries[i].0) == Some(entries[i].1)
  {
    if i > 0 {
      assert entries[1..][i - 1] == entries[i];
      ArgsForConfiguredName(entries[1..], i - 1);
    }
  }

  /** The record name: the configured name for the `default` export, `name[key]` for any other. */
  function QualifiedName(name: string, key: string): (q: string)
    ensures key == DefaultExportKey ==> q == name
    ensures key != DefaultExportKey ==> q == name + "[" + key + "]"
  {
    if key != DefaultExportKey then name + "[" + key + "]" else name
  }

  /**
   * The runtime object behind `ts.ExtensionKind`: a namespace whose
   * properties are the constants' names, not their values.
   */
  const ExtensionKindNamespace: map<string, string> := map["SemanticLint" := SemanticLint, "SyntacticLint" := SyntacticLint]

  /** The kind label as the source computes it, by indexing the namespace with the tag value itself. */
  function KindLabelAsWritten(tag: string): (name: Option<string>)
    ensures name.Some? <==> tag == "SemanticLint" || tag == "SyntacticLint"
  {
    if tag in ExtensionKindNamespace then Some(ExtensionKindNamespace[tag]) else None
  }

  /** For either recognised tag the source's label lookup comes back undefined. */
  lemma KindLabelAsWrittenIsUndefined(tag: string)
    requires IsLintKind(tag)
    ensures KindLabelAsWritten(tag) == None
  {
  }

  /** The evidently intended label: the name under which the namespace declares the tag (an enum-style reverse lookup). */
  function KindLabel(tag: string): (name: Option<string>)
    requires IsLintKind(tag)
    ensures name.Some? && name.value in ExtensionKindNamespace && ExtensionKindNamespace[name.value] == tag
  {
    if tag == SemanticLint then Some("SemanticLint") else Some("SyntacticLint")
  }
}
