/**
 * `createExtensionCache`: extension names are resolved eagerly when the
 * cache is created; loading, validation and classification run once, on
 * the first call of either accessor, and their results are kept.
 */
module ExtensionCaching {
  import opened Wrappers
  import opened ExtensionTypes
  import opened Classification
  import opened CollectionPass
  import opened Profiling
  import Sequences

  /**
   * `resolveExtensionNames`: the map from each configured name that the
   * module resolver locates to the file it resolved to; unresolved names
   * have no entry. `resolver` stands for `resolveModuleName` against
   * `tsconfig.json` in the host's current directory.
   */
  method ResolveExtensionNames(names: seq<string>, resolver: string -> Option<string>) returns (extMap: map<string, string>)
    ensures forall n :: n in extMap <==> n in names && resolver(n).Some?
    ensures forall n :: n in extMap ==> extMap[n] == resolver(n).value
  {
    extMap := map[];
    for i := 0 to |names|
      invariant forall n :: n in extMap <==> n in names[..i] && resolver(n).Some?
      invariant forall n :: n in extMap ==> extMap[n] == resolver(n).value
    {
      assert names[..i + 1] == names[..i] + [names[i]];
      var resolved := resolver(names[i]);
      if resolved.Some? {
        extMap := extMap[names[i] := resolved.value];
      }
    }
    assert names[..|names|] == names;
  }

  /**
   * `groupBy(records, elem => elem.kind)`: an entry exactly for each kind
   * that occurs, holding that kind's records in their original order.
   */
  method GroupByKind(records: seq<Extension>) returns (groups: Collection)
    ensures groups == Grouped(records)
    ensures forall k :: k in groups <==> exists i :: 0 <= i < |records| && records[i].kind == k
    ensures forall k :: k in groups ==> groups[k] == OfKind(records, k)
  {
    groups := map[];
    for i := 0 to |records|
      invariant groups == Grouped(records[..i])
    {
      assert records[..i + 1][..i] == records[..i];
      var e := records[i];
      var bucket := if e.kind in groups then groups[e.kind] else [];
      groups := groups[e.kind := bucket + [e]];
    }
    assert records[..|records|] == records;
    GroupedMeaning(records);
  }

  class ExtensionCache {
    const config: ExtensionConfig
    const host: Host
    /** `options.extendedDiagnostics`: whether loads are profiled. */
    const profilingEnabled: bool
    const clock: Clock
    /** The process-wide span table. */
    const profiler: Profiler
    /** The resolved-name map, fixed when the cache is created. */
    const resolved: map<string, string>

    /** The memoized collection (`extensions`), absent until the first pass. */
    var extensions: Option<Collection>
    var diagnostics: seq<Diagnostic>
    /** How many collection passes have run. */
    ghost var passes: nat

    /** Before the first pass nothing is recorded; afterwards exactly one pass's results are. */
    ghost predicate Valid()
      reads this
    {
      match extensions
      case None => diagnostics == [] && passes == 0
      case Some(c) =>
        c == Collected(config, resolved, host) && diagnostics == PassDiagnostics(config, resolved, host) && passes == 1
    }

    /**
     * `createExtensionCache(options, host, resolvedExtensionNames?)`: uses the
     * given resolved-name map when there is one, and otherwise resolves every
     * configured name now.
     */
    constructor (config: ExtensionConfig, host: Host, profilingEnabled: bool, clock: Clock, profiler: Profiler,
                 resolvedExtensionNames: Option<map<string, string>>, resolver: string -> Option<string>)
      ensures Valid() && extensions.None?
      ensures this.config == config && this.host == host && this.profilingEnabled == profilingEnabled
      ensures this.clock == clock && this.profiler == profiler
      ensures resolvedExtensionNames.Some? ==> resolved == resolvedExtensionNames.value
      ensures resolvedExtensionNames.None? ==>
                (forall n :: n in resolved <==> n in ExtensionNames(config) && resolver(n).Some?) &&
                (forall n :: n in resolved ==> resolved[n] == resolver(n).value)
    {
      var extMap;
      if resolvedExtensionNames.Some? {
        extMap := resolvedExtensionNames.value;
      } else {
        extMap := ResolveExtensionNames(ExtensionNames(config), resolver);
      }
      this.config := config;
      this.host := host;
      this.profilingEnabled := profilingEnabled;
      this.clock := clock;
      this.profiler := profiler;
      this.resolved := extMap;
      extensions := None;
      diagnostics := [];
      passes := 0;
    }

    /** `getCompilerExtensions`: runs the collection pass on the first call only; every call returns the same collection. */
    method GetCompilerExtensions() returns (c: Collection)
      requires Valid()
      modifies this, profiler
      ensures Valid() && extensions == Some(c)
      ensures c == Collected(config, resolved, host)
      ensures diagnostics == PassDiagnostics(config, resolved, host)
      ensures old(extensions).Some? ==>
                c == old(extensions).value && diagnostics == old(diagnostics) && passes == old(passes) &&
                profiler.traces == old(profiler.traces)
      ensures old(extensions).None? ==>
                profiler.traces == LoadSpans(old(profiler.traces), ExtensionNames(config), resolved, host, clock, profilingEnabled)
    {
      if extensions.None? {
        var collected := CollectCompilerExtensions();
        extensions := Some(collected);
        passes := passes + 1;
      }
      c := extensions.value;
    }

    /** `getExtensionLoadingDiagnostics`: forces the pass, then returns the diagnostics it accumulated. */
    method GetExtensionLoadingDiagnostics() returns (d: seq<Diagnostic>)
      requires Valid()
      modifies this, profiler
      ensures Valid() && extensions.Some?
      ensures d == diagnostics == PassDiagnostics(config, resolved, host)
      ensures old(extensions).Some? ==>
                extensions == old(extensions) && diagnostics == old(diagnostics) && passes == old(passes) &&
                profiler.traces == old(profiler.traces)
      ensures old(extensions).None? ==>
                profiler.traces == LoadSpans(old(profiler.traces), ExtensionNames(config), resolved, host, clock, profilingEnabled)
    {
      var _ := GetCompilerExtensions();
      d := diagnostics;
    }

    /** `collectCompilerExtensions`: load every name, classify the exports of the modules that loaded, group by kind. */
    method CollectCompilerExtensions() returns (c: Collection)
      modifies this`diagnostics, profiler
      ensures c == Collected(config, resolved, host)
      ensures diagnostics == old(diagnostics) + PassDiagnostics(config, resolved, host)
      ensures profiler.traces == LoadSpans(old(profiler.traces), ExtensionNames(config), resolved, host, clock, profilingEnabled)
    {
      var results := LoadExtensions();
      c := PrepareLoaded(results);
      PassOfResults(config, resolved, host, results);
      Sequences.AppendAssociative(old(diagnostics), LoadDiagnostics(results), ExportDiagnostics(config, Successful(results)));
    }

    /** Classifies the exports of the modules that loaded and groups the records by kind. */
    method PrepareLoaded(results: seq<LoadResult>) returns (c: Collection)
      requires results == Attempts(ExtensionNames(config), resolved, host)
      modifies this`diagnostics
      ensures c == Collected(config, resolved, host)
      ensures diagnostics == old(diagnostics) + ExportDiagnostics(config, Successful(results))
    {
      var all := PrepareAll(Successful(results));
      PassOfResults(config, resolved, host, results);
      c := GroupByKind(all);
    }

    /** The second `map` of `collectCompilerExtensions` over the modules that loaded, flattened. */
    method PrepareAll(successful: seq<LoadResult>) returns (all: seq<Extension>)
      modifies this`diagnostics
      ensures all == ExportedRecords(config, successful)
      ensures diagnostics == old(diagnostics) + ExportDiagnostics(config, successful)
    {
      all := [];
      for j := 0 to |successful|
        invariant all == ExportedRecords(config, successful[..j])
        invariant diagnostics == old(diagnostics) + ExportDiagnostics(config, successful[..j])
      {
        assert successful[..j + 1][..j] == successful[..j];
        ghost var before := diagnostics;
        var records := PrepareExtensionObjects(successful[j]);
        Sequences.AppendAssociative(old(diagnostics), ExportDiagnostics(config, successful[..j]), diagnostics[|before|..]);
        all := all + records;
      }
      assert successful[..|successful|] == successful;
    }

    /**
     * The first `map` of `collectCompilerExtensions`: loads each configured
     * name in order, pushing one diagnostic per failed load, and brackets
     * each call of the loader with a profile span keyed by the name.
     */
    method LoadExtensions() returns (results: seq<LoadResult>)
      modifies this`diagnostics, profiler
      ensures results == Attempts(ExtensionNames(config), resolved, host)
      ensures diagnostics == old(diagnostics) + LoadDiagnostics(results)
      ensures profiler.traces == LoadSpans(old(profiler.traces), ExtensionNames(config), resolved, host, clock, profilingEnabled)
    {
      var names := ExtensionNames(config);
      results := [];
      for i := 0 to |names|
        invariant results == Attempts(names[..i], resolved, host)
        invariant diagnostics == old(diagnostics) + LoadDiagnostics(results)
        invariant profiler.traces == LoadSpans(old(profiler.traces), names[..i], resolved, host, clock, profilingEnabled)
      {
        LoadStep(names, i, old(profiler.traces), resolved, host, clock, profilingEnabled);
        ghost var before := diagnostics;
        var res := LoadExtension(names[i]);
        Sequences.AppendAssociative(old(diagnostics), LoadDiagnostics(results), diagnostics[|before|..]);
        results := results + [res];
      }
      assert names[..|names|] == names;
    }

    /** The callback of that `map` for one name. */
    method LoadExtension(name: string) returns (res: LoadResult)
      modifies this`diagnostics, profiler
      ensures res == Attempt(name, resolved, host)
      ensures diagnostics == old(diagnostics) + (if res.error.Some? then [LoadFailed(res.error.value)] else [])
      ensures profiler.traces == NameSpan(old(profiler.traces), name, resolved, host, clock, profilingEnabled)
    {
      var path := if name in resolved then resolved[name] else "";
      var result: ModuleResult := Falsy;
      var error: Option<LoadError> := None;
      if path == "" {
        error := Some(NotLocated(name));
      }
      if path != "" && host.canLoad {
        profiler.StartProfile(profilingEnabled, name, Some(name), clock.mark(name));
        match host.load(path) {
          case Returned(m) =>
            result := m;
            profiler.CompleteProfile(profilingEnabled, name, clock.measure(name));
          case Threw(e) =>
            // a falsy thrown value leaves no error behind
            error := if e.truthy then Some(Raised(e.message)) else None;
        }
      } else if !host.canLoad {
        error := Some(LoadingNotImplemented);
      }
      if error.Some? {
        diagnostics := diagnostics + [LoadFailed(error.value)];
      }
      res := LoadResult(name, result, error);
    }

    /**
     * The second `map` of `collectCompilerExtensions`: validates and
     * classifies each export of one loaded module, pushing a diagnostic for
     * each lint export that is not a function.
     */
    method PrepareExtensionObjects(res: LoadResult) returns (aggregate: seq<Extension>)
      modifies this`diagnostics
      ensures aggregate == PreparedRecords(config, res)
      ensures diagnostics == old(diagnostics) + PreparedDiagnostics(config, res)
    {
      aggregate := [];
      if res.result.Falsy? {
        return;
      }
      var members := res.result.members;
      var args := ArgsFor(config, res.name);
      for i := 0 to |members|
        invariant aggregate == ModuleRecords(res.name, args, members[..i])
        invariant diagnostics == old(diagnostics) + ModuleDiagnostics(res.name, args, members[..i])
      {
        assert members[..i + 1][..i] == members[..i];
        var (key, potentialExtension) := members[i];
        if !potentialExtension.truthy || potentialExtension.kindTag.None? {
          continue;
        }
        var annotatedKind := potentialExtension.kindTag.value;
        var provider;
        if IsLintKind(annotatedKind) {
          if potentialExtension.typeOf != FunctionType {
            diagnostics := diagnostics +
              [KindMismatch(res.name, key, KindLabel(annotatedKind), potentialExtension.typeOf, FunctionType)];
            continue;
          }
          provider := Ctor(potentialExtension.payload);
        } else {
          provider := Unchecked(potentialExtension.payload);
        }
        aggregate := aggregate + [Extension(QualifiedName(res.name, key), args, annotatedKind, provider)];
      }
      assert members[..|members|] == members;
    }
  }
}
