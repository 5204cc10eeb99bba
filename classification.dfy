/**
 * Validation and classification of one loaded module's exports: the body of
 * the `forEachKey` callback in `collectCompilerExtensions`, and the records
 * and diagnostics one module contributes.
 */
module Classification {
  import opened Wrappers
  import opened ExtensionTypes
  import Profiling

  /** What happens to one export: silently skipped, kept as a record, or rejected with a diagnostic. */
  datatype Verdict = Skip | Keep(ext: Extension) | Reject(diag: Diagnostic)

  /**
   * Classifies the export `key` of the module configured as `name`. Untagged
   * and falsy exports are skipped without a diagnostic; a lint-tagged export
   * must be a function; any other string tag is accepted with the raw value.
   */
  function Classify(name: string, args: Option<ArgPayload>, key: string, v: ExportValue): (out: Verdict)
    ensures out.Skip? <==> !v.truthy || v.kindTag.None?
    ensures out.Keep? ==> out.ext.name == QualifiedName(name, key) && out.ext.args == args && Some(out.ext.kind) == v.kindTag
    ensures out.Reject? ==> out.diag.KindMismatch? && out.diag.extension == name && out.diag.member == key && out.diag.actualType == v.typeOf && v.typeOf != FunctionType
  {
    if !v.truthy then Skip
    else match v.kindTag
      case None => Skip
      case Some(tag) =>
        if IsLintKind(tag) then
          if v.typeOf != FunctionType then Reject(KindMismatch(name, key, KindLabel(tag), v.typeOf, FunctionType))
          else Keep(Extension(QualifiedName(name, key), args, tag, Ctor(v.payload)))
        else Keep(Extension(QualifiedName(name, key), args, tag, Unchecked(v.payload)))
  }

  /**
   * The classification table: skipped exactly when falsy or untagged;
   * rejected exactly when lint-tagged but not a function, with a diagnostic
   * naming the module, the export key, the kind, the actual and the expected
   * type; otherwise kept as a record named after the export, carrying the
   * module's args, the tag as its kind, and the value as a validated
   * constructor (lint kinds) or as an unchecked payload (any other kind).
   */
  lemma ClassifyTable(name: string, args: Option<ArgPayload>, key: string, v: ExportValue)
    ensures var out := Classify(name, args, key, v);
            (out.Skip? <==> !v.truthy || v.kindTag.None?) &&
            (out.Reject? <==> v.truthy && v.kindTag.Some? && IsLintKind(v.kindTag.value) && v.typeOf != FunctionType) &&
            (out.Reject? ==> out.diag == KindMismatch(name, key, KindLabel(v.kindTag.value), v.typeOf, FunctionType)) &&
            (out.Keep? ==>
               v.kindTag == Some(out.ext.kind) &&
               out.ext.name == QualifiedName(name, key) && out.ext.args == args &&
               out.ext.provider == (if IsLintKind(out.ext.kind) then Ctor(v.payload) else Unchecked(v.payload)))
  {
  }

  /** The records a module's exports yield, in key order. */
  function ModuleRecords(name: string, args: Option<ArgPayload>, members: seq<(string, ExportValue)>): seq<Extension>
    decreases |members|
  {
    if |members| == 0 then []
    else
      var last := members[|members| - 1];
      var verdict := Classify(name, args, last.0, last.1);
      ModuleRecords(name, args, members[..|members| - 1]) + (if verdict.Keep? then [verdict.ext] else [])
  }

  /** The diagnostics a module's exports yield, in key order. */
  function ModuleDiagnostics(name: string, args: Option<ArgPayload>, members: seq<(string, ExportValue)>): seq<Diagnostic>
    decreases |members|
  {
    if |members| == 0 then []
    else
      var last := members[|members| - 1];
      var verdict := Classify(name, args, last.0, last.1);
      ModuleDiagnostics(name, args, members[..|members| - 1]) + (if verdict.Reject? then [verdict.diag] else [])
  }

  /** The records of one successfully loaded module: none for a falsy module value. */
  function PreparedRecords(config: ExtensionConfig, res: LoadResult): (records: seq<Extension>)
    ensures res.result.Falsy? ==> records == []
  {
    match res.result
    case Falsy => []
    case Exports(members) => ModuleRecords(res.name, ArgsFor(config, res.name), members)
  }

  /** The diagnostics of one successfully loaded module: none for a falsy module value. */
  function PreparedDiagnostics(config: ExtensionConfig, res: LoadResult): (diags: seq<Diagnostic>)
    ensures res.result.Falsy? ==> diags == []
  {
    match res.result
    case Falsy => []
    case Exports(members) => ModuleDiagnostics(res.name, ArgsFor(config, res.name), members)
  }

  /**
   * Exports are classified independently: the records and diagnostics of a
   * module are those of its first exports followed by those of the rest, so
   * a rejected export never hides a sibling.
   */
  lemma {:induction false} ModuleSplit(name: string, args: Option<ArgPayload>, m1: seq<(string, ExportValue)>, m2: seq<(string, ExportValue)>)
    ensures ModuleRecords(name, args, m1 + m2) == ModuleRecords(name, args, m1) + ModuleRecords(name, args, m2)
    ensures ModuleDiagnostics(name, args, m1 + m2) == ModuleDiagnostics(name, args, m1) + ModuleDiagnostics(name, args, m2)
    decreases |m2|
  {
    if |m2| > 0 {
      var m2' := m2[..|m2| - 1];
      assert (m1 + m2)[..|m1 + m2| - 1] == m1 + m2';
      assert (m1 + m2)[|m1 + m2| - 1] == m2[|m2| - 1];
      ModuleSplit(name, args, m1, m2');
    } else {
      assert m1 + m2 == m1;
    }
  }

  /**
   * Every record of a module comes from one of its exports: it carries that
   * export's qualified name and tag, the module's args, and, for a lint
   * kind, a validated constructor. Each export yields at most one record or
   * diagnostic.
   */
  lemma {:induction false} ModuleRecordsShape(name: string, args: Option<ArgPayload>, members: seq<(string, ExportValue)>)
    ensures |ModuleRecords(name, args, members)| + |ModuleDiagnostics(name, args, members)| <= |members|
    ensures forall e :: e in ModuleRecords(name, args, members) ==>
              e.args == args && (IsLintKind(e.kind) ==> e.provider.Ctor?) &&
              exists i :: 0 <= i < |members| && members[i].1.truthy && members[i].1.kindTag == Some(e.kind) &&
                          e.name == QualifiedName(name, members[i].0)
    ensures forall d :: d in ModuleDiagnostics(name, args, members) ==> d.KindMismatch? && d.extension == name
    decreases |members|
  {
    if |members| > 0 {
      var init := members[..|members| - 1];
      var last := members[|members| - 1];
      ModuleRecordsShape(name, args, init);
      ClassifyTable(name, args, last.0, last.1);
      forall e | e in ModuleRecords(name, args, members)
        ensures exists i :: 0 <= i < |members| && members[i].1.truthy && members[i].1.kindTag == Some(e.kind) &&
                            e.name == QualifiedName(name, members[i].0)
      {
        if e in ModuleRecords(name, args, init) {
          var i :| 0 <= i < |init| && init[i].1.truthy && init[i].1.kindTag == Some(e.kind) &&
                   e.name == QualifiedName(name, init[i].0);
          assert members[i] == init[i];
        } else {
          assert members[|members| - 1].1.kindTag == Some(e.kind);
        }
      }
    }
  }

  /**
   * The aggregation bucket of a record's profile span is its configured
   * name, whichever export it came from, as long as that name is non-empty
   * and has no `[` of its own.
   */
  lemma RootOfQualifiedName(name: string, key: string)
    requires name != "" && '[' !in name
    ensures Profiling.ExtensionRootName(QualifiedName(name, key)) == name
  {
    if key != DefaultExportKey {
      var q := QualifiedName(name, key);
      assert q[|name|] == '[';
      assert q[..|name|] == name;
    }
  }

  /**
   * A module exporting a constructible syntactic lint, an untagged helper
   * function and a constructible semantic lint yields one record per lint,
   * named after its export key, and no diagnostic.
   */
  lemma MixedModuleExample(name: string, args: Option<ArgPayload>)
    ensures var members := [("lintA", ExportValue(true, FunctionType, Some(SyntacticLint), 1)),
                            ("helper", ExportValue(true, FunctionType, None, 2)),
                            ("lintB", ExportValue(true, FunctionType, Some(SemanticLint), 3))];
            ModuleRecords(name, args, members) ==
              [Extension(name + "[lintA]", args, SyntacticLint, Ctor(1)), Extension(name + "[lintB]", args, SemanticLint, Ctor(3))] &&
            ModuleDiagnostics(name, args, members) == []
  {
    var members := [("lintA", ExportValue(true, FunctionType, Some(SyntacticLint), 1)),
                    ("helper", ExportValue(true, FunctionType, None, 2)),
                    ("lintB", ExportValue(true, FunctionType, Some(SemanticLint), 3))];
    assert "lintA" != DefaultExportKey && "lintB" != DefaultExportKey;
    assert name + "[" + "lintA" + "]" == name + "[lintA]";
    assert name + "[" + "lintB" + "]" == name + "[lintB]";
    assert members[..2][..1] == members[..1];
    assert members[..1][..0] == [];
    assert ModuleRecords(name, args, members[..1]) == [Extension(name + "[lintA]", args, SyntacticLint, Ctor(1))];
    assert ModuleRecords(name, args, members[..2]) == ModuleRecords(name, args, members[..1]);
    assert ModuleDiagnostics(name, args, members[..1]) == [];
    assert ModuleDiagnostics(name, args, members[..2]) == [];
  }

  /**
   * A default export tagged as a semantic lint that is a plain object, not a
   * function, yields no record and one diagnostic naming module, key, kind
   * and actual type.
   */
  lemma NonFunctionLintExample(name: string, args: Option<ArgPayload>)
    ensures var members := [(DefaultExportKey, ExportValue(true, "object", Some(SemanticLint), 7))];
            ModuleRecords(name, args, members) == [] &&
            ModuleDiagnostics(name, args, members) == [KindMismatch(name, DefaultExportKey, Some("SemanticLint"), "object", FunctionType)]
  {
    var members := [(DefaultExportKey, ExportValue(true, "object", Some(SemanticLint), 7))];
    assert members[..0] == [];
  }
}
