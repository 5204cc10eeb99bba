/**
 * What one run of `collectCompilerExtensions` computes, as functions of the
 * configuration, the resolved-name map, the host and the clock: the load
 * results, the diagnostics in the order they are pushed, the records before
 * grouping, the grouped collection and the spans left in the profiling table.
 */
module CollectionPass {
  import opened Wrappers
  import opened ExtensionTypes
  import opened Classification
  import opened Profiling
  import Sequences

  /** Readings of the performance clock: the mark taken when a task's span starts and the length measured when it completes. */
  datatype Clock = Clock(mark: string -> nat, measure: string -> nat)

  /** `resolvedExtensionNames[name]` is truthy: present, and not the empty path. */
  predicate Located(resolved: map<string, string>, name: string) {
    name in resolved && resolved[name] != ""
  }

  /**
   * Loading one configured name. A missing loader is reported as such
   * whether or not the name was located; a located name with a loader is
   * loaded, and what the loader throws becomes the error (a falsy thrown
   * value is no error, and leaves no module value).
   */
  function Attempt(name: string, resolved: map<string, string>, host: Host): (r: LoadResult)
    ensures r.name == name
    ensures r.error.None? ==> host.canLoad && Located(resolved, name)
  {
    if !host.canLoad then LoadResult(name, Falsy, Some(LoadingNotImplemented))
    else if !Located(resolved, name) then LoadResult(name, Falsy, Some(NotLocated(name)))
    else match host.load(resolved[name])
      case Returned(m) => LoadResult(name, m, None)
      case Threw(e) => LoadResult(name, Falsy, if e.truthy then Some(Raised(e.message)) else None)
  }

  /**
   * A load succeeds only for a located name on a host with a loader, and a
   * module value is kept only when the loader returned it; a located name on
   * a host with a loader that returns a module loads that module; a failure is
   * reported as a missing loader first, then as a name that was not located.
   */
  lemma AttemptOutcome(name: string, resolved: map<string, string>, host: Host)
    ensures var r := Attempt(name, resolved, host);
            r.name == name &&
            (r.error.None? ==> host.canLoad && Located(resolved, name)) &&
            (r.result.Exports? ==> host.canLoad && Located(resolved, name) && host.load(resolved[name]) == Returned(r.result)) &&
            (!host.canLoad ==> r.error == Some(LoadingNotImplemented)) &&
            (host.canLoad && !Located(resolved, name) ==> r.error == Some(NotLocated(name))) &&
            (host.canLoad && Located(resolved, name) && host.load(resolved[name]).Returned? ==>
               r.error.None? && r.result == host.load(resolved[name]).result) &&
            (host.canLoad && Located(resolved, name) && host.load(resolved[name]).Threw? ==>
               r.error == (if host.load(resolved[name]).thrown.truthy then Some(Raised(host.load(resolved[name]).thrown.message)) else None))
  {
  }

  /** The load results of all names, in configuration order (the first `map`). */
  function Attempts(names: seq<string>, resolved: map<string, string>, host: Host): (rs: seq<LoadResult>)
    decreases |names|
  {
    if |names| == 0 then []
    else Attempts(names[..|names| - 1], resolved, host) + [Attempt(names[|names| - 1], resolved, host)]
  }

  /** The diagnostics pushed while loading: one per result that carries an error. */
  function LoadDiagnostics(results: seq<LoadResult>): seq<Diagnostic>
    decreases |results|
  {
    if |results| == 0 then []
    else
      var last := results[|results| - 1];
      LoadDiagnostics(results[..|results| - 1]) + (if last.error.Some? then [LoadFailed(last.error.value)] else [])
  }

  /** The results without an error (the `filter`). */
  function Successful(results: seq<LoadResult>): (ok: seq<LoadResult>)
    ensures |ok| <= |results|
    ensures forall i :: 0 <= i < |ok| ==> ok[i].error.None? && ok[i] in results
    decreases |results|
  {
    if |results| == 0 then []
    else
      var last := results[|results| - 1];
      Successful(results[..|results| - 1]) + (if last.error.None? then [last] else [])
  }

  /** The records of the given modules, concatenated in order (the second `map`, then `flatten`). */
  function ExportedRecords(config: ExtensionConfig, results: seq<LoadResult>): seq<Extension>
    decreases |results|
  {
    if |results| == 0 then []
    else ExportedRecords(config, results[..|results| - 1]) + PreparedRecords(config, results[|results| - 1])
  }

  /** The validation diagnostics of the given modules, in order. */
  function ExportDiagnostics(config: ExtensionConfig, results: seq<LoadResult>): seq<Diagnostic>
    decreases |results|
  {
    if |results| == 0 then []
    else ExportDiagnostics(config, results[..|results| - 1]) + PreparedDiagnostics(config, results[|results| - 1])
  }

  /** The records contributed by the given configured names. */
  function NameRecords(config: ExtensionConfig, names: seq<string>, resolved: map<string, string>, host: Host): seq<Extension> {
    ExportedRecords(config, Successful(Attempts(names, resolved, host)))
  }

  /** The diagnostics contributed by the given configured names: every load diagnostic, then every validation diagnostic. */
  function NameDiagnostics(config: ExtensionConfig, names: seq<string>, resolved: map<string, string>, host: Host): seq<Diagnostic> {
    var results := Attempts(names, resolved, host);
    LoadDiagnostics(results) + ExportDiagnostics(config, Successful(results))
  }

  /** The records of the whole pass, before grouping. */
  function PassRecords(config: ExtensionConfig, resolved: map<string, string>, host: Host): seq<Extension> {
    NameRecords(config, ExtensionNames(config), resolved, host)
  }

  /** The diagnostics of the whole pass, in the order they are pushed. */
  function PassDiagnostics(config: ExtensionConfig, resolved: map<string, string>, host: Host): seq<Diagnostic> {
    NameDiagnostics(config, ExtensionNames(config), resolved, host)
  }

  /** The records of one kind, in their original order. */
  function OfKind(records: seq<Extension>, kind: string): seq<Extension>
    decreases |records|
  {
    if |records| == 0 then []
    else
      var last := records[|records| - 1];
      OfKind(records[..|records| - 1], kind) + (if last.kind == kind then [last] else [])
  }

  /**
   * `groupBy(records, elem => elem.kind)`, record by record: each record is
   * pushed onto its kind's list, which is created on the kind's first record.
   */
  function Grouped(records: seq<Extension>): (g: Collection)
    ensures records == [] <==> g == map[]
    ensures |records| > 0 ==> records[|records| - 1].kind in g
    decreases |records|
  {
    if |records| == 0 then map[]
    else
      var g := Grouped(records[..|records| - 1]);
      var e := records[|records| - 1];
      g[e.kind := (if e.kind in g then g[e.kind] else []) + [e]]
  }

  /** The pass's records and diagnostics, from the load results of the configured names. */
  lemma PassOfResults(config: ExtensionConfig, resolved: map<string, string>, host: Host, results: seq<LoadResult>)
    requires results == Attempts(ExtensionNames(config), resolved, host)
    ensures ExportedRecords(config, Successful(results)) == PassRecords(config, resolved, host)
    ensures LoadDiagnostics(results) + ExportDiagnostics(config, Successful(results)) == PassDiagnostics(config, resolved, host)
  {
  }

  /** The collection the pass returns. */
  function Collected(config: ExtensionConfig, resolved: map<string, string>, host: Host): Collection {
    Grouped(PassRecords(config, resolved, host))
  }

  /** The profiling table after one name's load: a span keyed and bucketed by the name, completed unless the loader threw. */
  function NameSpan(traces: Traces, name: string, resolved: map<string, string>, host: Host, clock: Clock, enabled: bool): Traces {
    if enabled && host.canLoad && Located(resolved, name) then
      var started := Opened(traces, name, Some(name), clock.mark(name));
      if host.load(resolved[name]).Returned? then Closed(started, name, clock.measure(name)) else started
    else traces
  }

  /**
   * One name's load touches only the span keyed by the name: it is added,
   * bucketed by the name and stamped with the mark, exactly when the name is
   * loaded with profiling on, and it gets a length exactly when the loader
   * returned; every other span is left as it was.
   */
  lemma NameSpanEffect(traces: Traces, name: string, resolved: map<string, string>, host: Host, clock: Clock, enabled: bool)
    ensures var r := NameSpan(traces, name, resolved, host, clock, enabled);
            (r.Keys == if enabled && host.canLoad && Located(resolved, name) then traces.Keys + {name} else traces.Keys) &&
            (forall k :: k in traces && k != name ==> r[k] == traces[k]) &&
            (enabled && host.canLoad && Located(resolved, name) ==>
               r[name].globalBucket == Some(name) && r[name].start == clock.mark(name) &&
               (r[name].length.Some? <==> host.load(resolved[name]).Returned?))
  {
  }

  /** The profiling table after loading the given names in order. */
  function LoadSpans(traces: Traces, names: seq<string>, resolved: map<string, string>, host: Host, clock: Clock, enabled: bool): Traces
    decreases |names|
  {
    if |names| == 0 then traces
    else NameSpan(LoadSpans(traces, names[..|names| - 1], resolved, host, clock, enabled), names[|names| - 1], resolved, host, clock, enabled)
  }

  // ---------------------------------------------------------------------------
  // Per-name isolation

  lemma {:induction false} AttemptsAppend(n1: seq<string>, n2: seq<string>, resolved: map<string, string>, host: Host)
    ensures Attempts(n1 + n2, resolved, host) == Attempts(n1, resolved, host) + Attempts(n2, resolved, host)
    decreases |n2|
  {
    if |n2| == 0 {
      assert n1 + n2 == n1;
    } else {
      Sequences.DropLastOfAppend(n1, n2);
      AttemptsAppend(n1, n2[..|n2| - 1], resolved, host);
    }
  }

  /** One more name: one more load result, at most one more load diagnostic, one more span step. */
  lemma LoadStep(names: seq<string>, i: nat, traces: Traces, resolved: map<string, string>, host: Host, clock: Clock, enabled: bool)
    requires i < |names|
    ensures var r := Attempt(names[i], resolved, host);
            Attempts(names[..i + 1], resolved, host) == Attempts(names[..i], resolved, host) + [r] &&
            LoadDiagnostics(Attempts(names[..i + 1], resolved, host)) ==
              LoadDiagnostics(Attempts(names[..i], resolved, host)) + (if r.error.Some? then [LoadFailed(r.error.value)] else []) &&
            LoadSpans(traces, names[..i + 1], resolved, host, clock, enabled) ==
              NameSpan(LoadSpans(traces, names[..i], resolved, host, clock, enabled), names[i], resolved, host, clock, enabled)
  {
    var rs := Attempts(names[..i], resolved, host);
    var r := Attempt(names[i], resolved, host);
    assert names[..i + 1][..i] == names[..i];
    assert (rs + [r])[..|rs + [r]| - 1] == rs;
  }

  lemma {:induction false} LoadDiagnosticsAppend(r1: seq<LoadResult>, r2: seq<LoadResult>)
    ensures LoadDiagnostics(r1 + r2) == LoadDiagnostics(r1) + LoadDiagnostics(r2)
    decreases |r2|
  {
    if |r2| == 0 {
      assert r1 + r2 == r1;
    } else {
      Sequences.DropLastOfAppend(r1, r2);
      LoadDiagnosticsAppend(r1, r2[..|r2| - 1]);
    }
  }

  lemma {:induction false} SuccessfulAppend(r1: seq<LoadResult>, r2: seq<LoadResult>)
    ensures Successful(r1 + r2) == Successful(r1) + Successful(r2)
    decreases |r2|
  {
    if |r2| == 0 {
      assert r1 + r2 == r1;
    } else {
      Sequences.DropLastOfAppend(r1, r2);
      SuccessfulAppend(r1, r2[..|r2| - 1]);
    }
  }

  lemma {:induction false} ExportedRecordsAppend(config: ExtensionConfig, r1: seq<LoadResult>, r2: seq<LoadResult>)
    ensures ExportedRecords(config, r1 + r2) == ExportedRecords(config, r1) + ExportedRecords(config, r2)
    decreases |r2|
  {
    if |r2| == 0 {
      assert r1 + r2 == r1;
    } else {
      var init, last := r2[..|r2| - 1], r2[|r2| - 1];
      Sequences.DropLastOfAppend(r1, r2);
      ExportedRecordsAppend(config, r1, init);
      var a, b, c := ExportedRecords(config, r1), ExportedRecords(config, init), PreparedRecords(config, last);
      assert ExportedRecords(config, r1 + r2) == (a + b) + c;
      assert ExportedRecords(config, r2) == b + c;
      assert (a + b) + c == a + (b + c);
    }
  }

  lemma {:induction false} ExportDiagnosticsAppend(config: ExtensionConfig, r1: seq<LoadResult>, r2: seq<LoadResult>)
    ensures ExportDiagnostics(config, r1 + r2) == ExportDiagnostics(config, r1) + ExportDiagnostics(config, r2)
    decreases |r2|
  {
    if |r2| == 0 {
      assert r1 + r2 == r1;
    } else {
      var init, last := r2[..|r2| - 1], r2[|r2| - 1];
      Sequences.DropLastOfAppend(r1, r2);
      ExportDiagnosticsAppend(config, r1, init);
      calc {
        ExportDiagnostics(config, r1 + r2);
        ExportDiagnostics(config, r1 + init) + PreparedDiagnostics(config, last);
        ExportDiagnostics(config, r1) + (ExportDiagnostics(config, init) + PreparedDiagnostics(config, last));
      }
    }
  }

  /**
   * Configured names are processed independently: the records and
   * diagnostics of `n1 + n2` are those of `n1` followed by those of `n2`
   * (load diagnostics of both first), so a failing name never stops the
   * names after it.
   */
  lemma NamesSplit(config: ExtensionConfig, n1: seq<string>, n2: seq<string>, resolved: map<string, string>, host: Host)
    ensures NameRecords(config, n1 + n2, resolved, host) == NameRecords(config, n1, resolved, host) + NameRecords(config, n2, resolved, host)
    ensures var a1, a2 := Attempts(n1, resolved, host), Attempts(n2, resolved, host);
            NameDiagnostics(config, n1 + n2, resolved, host) ==
              LoadDiagnostics(a1) + LoadDiagnostics(a2) + ExportDiagnostics(config, Successful(a1)) + ExportDiagnostics(config, Successful(a2))
  {
    var a1, a2 := Attempts(n1, resolved, host), Attempts(n2, resolved, host);
    AttemptsAppend(n1, n2, resolved, host);
    LoadDiagnosticsAppend(a1, a2);
    SuccessfulAppend(a1, a2);
    ExportedRecordsAppend(config, Successful(a1), Successful(a2));
    ExportDiagnosticsAppend(config, Successful(a1), Successful(a2));
  }

  /** A configured name whose load fails contributes exactly one diagnostic, its load error, and no record. */
  lemma FailedNameContribution(config: ExtensionConfig, name: string, resolved: map<string, string>, host: Host)
    requires Attempt(name, resolved, host).error.Some?
    ensures NameRecords(config, [name], resolved, host) == []
    ensures NameDiagnostics(config, [name], resolved, host) == [LoadFailed(Attempt(name, resolved, host).error.value)]
  {
    var r := Attempt(name, resolved, host);
    assert Attempts([name], resolved, host) == [r];
    assert [r][..0] == [];
    assert Successful([r]) == [];
    assert LoadDiagnostics([r]) == [LoadFailed(r.error.value)];
  }

  /** A configured name that loads contributes no load diagnostic, and exactly its module's records and validation diagnostics. */
  lemma LoadedNameContribution(config: ExtensionConfig, name: string, resolved: map<string, string>, host: Host)
    requires Attempt(name, resolved, host).error.None?
    ensures NameRecords(config, [name], resolved, host) == PreparedRecords(config, Attempt(name, resolved, host))
    ensures NameDiagnostics(config, [name], resolved, host) == PreparedDiagnostics(config, Attempt(name, resolved, host))
  {
    var r := Attempt(name, resolved, host);
    assert Attempts([name], resolved, host) == [r];
    assert [r][..0] == [];
    assert Successful([r]) == [r];
    assert LoadDiagnostics([r]) == [];
    assert ExportedRecords(config, [r]) == PreparedRecords(config, r);
    assert ExportDiagnostics(config, [r]) == PreparedDiagnostics(config, r);
  }

  /** The positions of the results without an error, in increasing order. */
  ghost function ErrorFreePositions(results: seq<LoadResult>): seq<nat>
    decreases |results|
  {
    if |results| == 0 then []
    else
      var n := |results| - 1;
      ErrorFreePositions(results[..n]) + (if results[n].error.None? then [n] else [])
  }

  /**
   * `Successful` is the `filter` it stands for: its elements are the
   * results at exactly the error-free positions, in their original order,
   * so every error-free result is kept and nothing else is.
   */
  lemma {:induction false} SuccessfulIsFilter(results: seq<LoadResult>)
    ensures |Successful(results)| == |ErrorFreePositions(results)|
    ensures forall k :: 0 <= k < |ErrorFreePositions(results)| ==>
              ErrorFreePositions(results)[k] < |results| &&
              Successful(results)[k] == results[ErrorFreePositions(results)[k]]
    ensures forall k, l :: 0 <= k < l < |ErrorFreePositions(results)| ==>
              ErrorFreePositions(results)[k] < ErrorFreePositions(results)[l]
    ensures forall i :: 0 <= i < |results| ==> (results[i].error.None? <==> i in ErrorFreePositions(results))
    decreases |results|
  {
    if |results| > 0 {
      var n := |results| - 1;
      var init, last := results[..n], results[n];
      SuccessfulIsFilter(init);
      var ok0, ps0 := Successful(init), ErrorFreePositions(init);
      var tail := if last.error.None? then [n] else [];
      var ok, ps := ok0 + (if last.error.None? then [last] else []), ps0 + tail;
      assert Successful(results) == ok;
      assert ErrorFreePositions(results) == ps;
      forall k | 0 <= k < |ps| ensures ps[k] < |results| && ok[k] == results[ps[k]] {
        if k < |ps0| {
          assert ps[k] == ps0[k] && ok[k] == ok0[k];
          assert results[ps0[k]] == init[ps0[k]];
        }
      }
      forall k, l | 0 <= k < l < |ps| ensures ps[k] < ps[l] {
        if l >= |ps0| {
          assert ps[k] == ps0[k] < n;
        }
      }
      forall i | 0 <= i < |results| ensures results[i].error.None? <==> i in ps {
        if i < n {
          assert results[i] == init[i];
          assert i !in tail;
        } else {
          assert forall k :: 0 <= k < |ps0| ==> ps0[k] < n;
        }
      }
    }
  }


  /** Every load result is either reported by exactly one diagnostic or kept as successful. */
  lemma {:induction false} LoadAccounting(results: seq<LoadResult>)
    ensures |LoadDiagnostics(results)| + |Successful(results)| == |results|
    ensures forall d :: d in LoadDiagnostics(results) ==> d.LoadFailed?
    ensures forall r :: r in Successful(results) ==> r.error.None? && r in results
    decreases |results|
  {
    if |results| > 0 {
      LoadAccounting(results[..|results| - 1]);
    }
  }

  /** Every validation diagnostic is a kind mismatch, and every lint record carries a validated constructor. */
  lemma {:induction false} ExportedShape(config: ExtensionConfig, results: seq<LoadResult>)
    ensures forall d :: d in ExportDiagnostics(config, results) ==> d.KindMismatch?
    ensures forall e :: e in ExportedRecords(config, results) && IsLintKind(e.kind) ==> e.provider.Ctor?
    decreases |results|
  {
    if |results| > 0 {
      var last := results[|results| - 1];
      ExportedShape(config, results[..|results| - 1]);
      if last.result.Exports? {
        ModuleRecordsShape(last.name, ArgsFor(config, last.name), last.result.members);
      }
    }
  }

  /** All load diagnostics come before every validation diagnostic. */
  lemma LoadDiagnosticsFirst(config: ExtensionConfig, resolved: map<string, string>, host: Host)
    ensures var d := PassDiagnostics(config, resolved, host);
            forall i, j :: 0 <= i < j < |d| && d[j].LoadFailed? ==> d[i].LoadFailed?
  {
    var results := Attempts(ExtensionNames(config), resolved, host);
    var loads, exports := LoadDiagnostics(results), ExportDiagnostics(config, Successful(results));
    LoadAccounting(results);
    ExportedShape(config, Successful(results));
    var d := loads + exports;
    forall j | |loads| <= j < |d| ensures d[j].KindMismatch? {
      assert d[j] == exports[j - |loads|] && d[j] in exports;
    }
    forall i, j | 0 <= i < j < |d| && d[j].LoadFailed? ensures d[i].LoadFailed? {
      if j < |loads| {
        assert d[i] == loads[i] && d[i] in loads;
      }
    }
  }

  /**
   * The returned collection is well typed: each kind maps to a non-empty
   * list of records of that kind, and a lint kind's records all carry a
   * validated constructor.
   */
  lemma CollectedWellTyped(config: ExtensionConfig, resolved: map<string, string>, host: Host)
    ensures var c := Collected(config, resolved, host);
            forall k :: k in c ==> c[k] != [] && forall e :: e in c[k] ==> e.kind == k && (IsLintKind(k) ==> e.provider.Ctor?)
  {
    ExportedShape(config, Successful(Attempts(ExtensionNames(config), resolved, host)));
    GroupedWellFormed(PassRecords(config, resolved, host));
  }

  /** With profiling disabled the pass leaves the table alone; enabled, it adds exactly the located names it loaded. */
  lemma {:induction false} LoadSpansKeys(traces: Traces, names: seq<string>, resolved: map<string, string>, host: Host, clock: Clock, enabled: bool)
    ensures !enabled ==> LoadSpans(traces, names, resolved, host, clock, enabled) == traces
    ensures enabled ==> LoadSpans(traces, names, resolved, host, clock, enabled).Keys ==
                          traces.Keys + (set n | n in names && host.canLoad && Located(resolved, n))
    decreases |names|
  {
    if |names| > 0 {
      var init := names[..|names| - 1];
      LoadSpansKeys(traces, init, resolved, host, clock, enabled);
      assert names == init + [names[|names| - 1]];
      assert (set n | n in names && host.canLoad && Located(resolved, n)) ==
             (set n | n in init && host.canLoad && Located(resolved, n)) +
             (if host.canLoad && Located(resolved, names[|names| - 1]) then {names[|names| - 1]} else {});
    }
  }

  /** A kind's list holds exactly the records of that kind. */
  lemma {:induction false} OfKindMembers(records: seq<Extension>, kind: string)
    ensures |OfKind(records, kind)| <= |records|
    ensures forall e :: e in OfKind(records, kind) <==> e in records && e.kind == kind
    ensures OfKind(records, kind) == [] <==> forall i :: 0 <= i < |records| ==> records[i].kind != kind
    decreases |records|
  {
    if |records| > 0 {
      var init, last := records[..|records| - 1], records[|records| - 1];
      OfKindMembers(init, kind);
      assert records == init + [last];
    }
  }

  /**
   * The grouping has an entry exactly for the kinds that occur, and each
   * entry is the list of that kind's records in their original order.
   */
  lemma {:induction false} GroupedMeaning(records: seq<Extension>)
    ensures forall k :: k in Grouped(records) <==> exists i :: 0 <= i < |records| && records[i].kind == k
    ensures forall k :: k in Grouped(records) ==> Grouped(records)[k] == OfKind(records, k)
    decreases |records|
  {
    if |records| > 0 {
      var init, e := records[..|records| - 1], records[|records| - 1];
      GroupedMeaning(init);
      var g := Grouped(init);
      forall k ensures k in Grouped(records) <==> exists i :: 0 <= i < |records| && records[i].kind == k {
        if k in g {
          var i :| 0 <= i < |init| && init[i].kind == k;
          assert records[i] == init[i];
        }
        if k != e.kind && exists i :: 0 <= i < |records| && records[i].kind == k {
          var i :| 0 <= i < |records| && records[i].kind == k;
          assert i < |init| && init[i] == records[i];
        }
      }
      forall k | k in Grouped(records) ensures Grouped(records)[k] == OfKind(records, k) {
        if k == e.kind && k !in g {
          OfKindMembers(init, k);
        }
      }
    }
  }

  /** Every entry of the grouping is non-empty and holds only records of its own kind. */
  lemma GroupedWellFormed(records: seq<Extension>)
    ensures forall k :: k in Grouped(records) ==>
              Grouped(records)[k] != [] && forall e :: e in Grouped(records)[k] ==> e.kind == k && e in records
  {
    GroupedMeaning(records);
    forall k | k in Grouped(records)
      ensures Grouped(records)[k] != [] && forall e :: e in Grouped(records)[k] ==> e.kind == k && e in records
    {
      OfKindMembers(records, k);
      var i :| 0 <= i < |records| && records[i].kind == k;
      assert records[i] in OfKind(records, k);
    }
  }
}
