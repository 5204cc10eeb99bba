# Compiler extension loading, modelled in Dafny

This project models the extension-loading boundary of the TypeScript compiler
fork in `src/compiler/extensions.ts`. It has two stateful parts.

**The extension cache** (`createExtensionCache`). The configured extension
names are resolved to files when the cache is created. On the first call of
either accessor, each configured name is loaded through the host's loader.
The exports of every module that loaded are then validated and classified by
their `"extension-kind"` tag, and the resulting records are grouped by kind.
The collection and the diagnostics list are kept and returned unchanged by
every later call. No failure escapes the cache; each one becomes a
diagnostic.

**The profiler span table** (`perfTraces`). It is a process-wide map from a
task key to a span. `startProfile` and `completeProfile` do nothing when
disabled. Completing a span that was never started is a failed internal
assertion. The extension wrappers build the key `task|qualifiedName` and the
bucket from the extension's root name.

Files and modules:

- `wrappers.dfy` (`Wrappers`): `Option`.
- `sequences.dfy` (`Sequences`): two generic facts about concatenation used by the proofs.
- `js_strings.dfy` (`JsStrings`): `String.prototype.indexOf` and `substring`,
  with JavaScript's clamping and swapping.
- `profiler.dfy` (`Profiling`): the span table as class `Profiler` and the
  key and bucket helpers.
- `extension_types.dfy` (`ExtensionTypes`): the configuration, the host,
  exported values, records, diagnostics and the two kind tags.
- `classification.dfy` (`Classification`): what one export and one module
  contribute.
- `collection_pass.dfy` (`CollectionPass`): the whole collection pass as
  functions of its inputs, with the lemmas about it.
- `extension_cache.dfy` (`ExtensionCaching`): class `ExtensionCache` and the
  loops of the pass, each proved equal to the functions above.

JavaScript values are reduced to what the cache inspects: truthiness,
`typeof`, the `"extension-kind"` field when it is a string, and an opaque
identity. The collaborators appear as inputs:

- the module resolver is a function from name to optional path;
- `host.loadExtension` is a flag saying whether it exists, plus a function
  from path to `Returned(module)` or `Threw(value)`;
- performance-clock readings are naturals: parameters of the profiler
  methods, and a `Clock` for the pass.

The model keeps these details of the code, which are easy to miss:

- An unresolved name on a host without a loader is reported as "loading not
  implemented". The second assignment to `error` overwrites the first
  (extensions.ts:259-274).
- Only the "could not locate" error carries the extension's name. The other
  load errors do not.
- A truthy primitive, such as a string, has no `"extension-kind"` property.
  So a plain-string export is skipped silently rather than diagnosed. The
  mismatch diagnostic needs a tagged object that is not a function.
- A thrown falsy value produces no diagnostic. The name then counts as loaded
  and contributes no records (extensions.ts:275, 280-284).
- A resolved path that is the empty string is falsy, so the name counts as
  not located (extensions.ts:259).

## Model

| member | source | states |
|---|---|---|
| `JsStrings.IndexOf` | src/compiler/extensions.ts:180 | the result is -1 exactly when `[` is absent, and otherwise the index of its first occurrence |
| `JsStrings.Substring` | src/compiler/extensions.ts:180 | agrees with slicing for in-range positions and swaps reversed ones; clamps out-of-range positions: empty when both are at most 0 or both at least the length, the whole string when they straddle it, a prefix when one is in range and the other negative, and a suffix when one is in range and the other beyond the length |
| `Profiling.ExtensionRootName` | src/compiler/extensions.ts:179-181 | the prefix before the first `[` when that prefix is non-empty; the whole name when there is no `[` or it is at index 0 |
| `Profiling.TaskName` | src/compiler/extensions.ts:183-185 | the key is the task label, then the separator bar, then the qualified name |
| `Profiling.TaskNameInjective` | src/compiler/extensions.ts:183-185 | for task labels without the separator bar, equal keys mean equal task and equal name |
| `Profiling.Opened` | src/compiler/extensions.ts:190-195 | starting a span leaves `key` holding `{task: key, globalBucket: bucket, start: stamp, length: undefined}`, adds no key but `key`, and leaves every other entry unchanged |
| `Profiling.Closed` | src/compiler/extensions.ts:201 | completing a span sets the length of the entry for `key`, keeps the same keys, and leaves every other entry unchanged |
| `Profiling.StartThenComplete` | src/compiler/extensions.ts:187-203 | start followed by complete gives a span with its length recorded, adds only `key` and leaves every other entry unchanged |
| `Profiling.Profiler.constructor` | src/compiler/extensions.ts:177 | the table starts empty |
| `Profiling.Profiler.StartProfile` | src/compiler/extensions.ts:187-196 | no change when disabled; otherwise the new table is `Opened(old table, ...)` and the start event for `key` is emitted |
| `Profiling.Profiler.CompleteProfile` | src/compiler/extensions.ts:198-203 | no change when disabled; otherwise requires the key to be started (the assertion), sets the new table to `Closed(old table, ...)` and emits the end event for `key` |
| `Profiling.Profiler.StartExtensionProfile` | src/compiler/extensions.ts:205-209 | when enabled, opens the span keyed by `TaskName(qualifiedName, task)` in the bucket `ExtensionRootName(qualifiedName)`, which puts that key in the table and so meets the completion's precondition |
| `Profiling.Profiler.CompleteExtensionProfile` | src/compiler/extensions.ts:211-215 | completes the span with the same composite key |
| `Profiling.ExtensionSpansIndependent` | src/compiler/extensions.ts:205-215 | starting one extension task's span never disturbs another task's span |
| `ExtensionTypes.ExtensionNames` | src/compiler/extensions.ts:221 | an array configuration gives its names; an object configuration gives its keys, one per entry, in order |
| `ExtensionTypes.Lookup` | src/compiler/extensions.ts:297 | the lookup is undefined exactly when no entry has the name, and otherwise returns the payload of an entry with that name |
| `ExtensionTypes.ArgsFor` | src/compiler/extensions.ts:297 | an array configuration gives no args; an object configuration gives undefined exactly when no key equals the name |
| `ExtensionTypes.ArgsForConfiguredName` | src/compiler/extensions.ts:297 | with an object configuration, every configured name gets exactly its own payload |
| `ExtensionTypes.QualifiedName` | src/compiler/extensions.ts:296 | the configured name for the `default` export, `name[key]` for any other |
| `ExtensionTypes.KindLabelAsWritten` | src/compiler/extensions.ts:308 | indexing the namespace object gives a label exactly for the property names `SemanticLint` and `SyntacticLint` |
| `ExtensionTypes.KindLabelAsWrittenIsUndefined` | src/compiler/extensions.ts:308 | the label lookup as written is undefined for both recognised tags |
| `ExtensionTypes.KindLabel` | src/compiler/extensions.ts:308 | the corrected label is the namespace member that declares the tag |
| `Classification.Classify` | src/compiler/extensions.ts:287-322 | an export is skipped exactly when it is falsy or has no string tag; a kept record has the export's qualified name, the module's args and the tag as kind; a rejection is a kind mismatch naming the module, the key and a type other than `"function"` |
| `Classification.ClassifyTable` | src/compiler/extensions.ts:287-322 | falsy or untagged exports are skipped with no diagnostic; a lint-tagged non-function gets one diagnostic (module, key, corrected kind label, actual type, `"function"`) and no record; a lint-tagged function becomes a record with a constructor; any other tag becomes a record with the raw value |
| `Classification.PreparedRecords` | src/compiler/extensions.ts:282-284 | a falsy module value contributes no records |
| `Classification.PreparedDiagnostics` | src/compiler/extensions.ts:282-284 | a falsy module value contributes no diagnostics |
| `Classification.ModuleSplit` | src/compiler/extensions.ts:286-323 | a module's records and diagnostics are those of its first exports followed by the rest, so a rejected export never hides a sibling |
| `Classification.ModuleRecordsShape` | src/compiler/extensions.ts:295-322 | each record comes from a truthy tagged export: it has that export's qualified name and tag, the module's args and, for lint kinds, a constructor; each export yields at most one record or diagnostic |
| `Classification.RootOfQualifiedName` | src/compiler/extensions.ts:179-181 | the root name of `name` or `name[key]` is `name` when `name` is non-empty and has no `[` |
| `Classification.MixedModuleExample` | src/compiler/extensions.ts:286-323 | two tagged lint functions beside an untagged helper give exactly two records and no diagnostics |
| `Classification.NonFunctionLintExample` | src/compiler/extensions.ts:300-313 | a lint-tagged object gives no record and one diagnostic naming module, key, kind and actual type |
| `CollectionPass.Attempt` | src/compiler/extensions.ts:256-278 | the result carries the configured name, and has no error only for a located name on a host with a loader |
| `CollectionPass.AttemptOutcome` | src/compiler/extensions.ts:256-278 | a load succeeds only for a located name on a host with a loader, and such a name whose loader returns a module succeeds with that module; a missing loader is reported first, an unlocated name second, and otherwise the thrown value (none if it is falsy) |
| `CollectionPass.Successful` | src/compiler/extensions.ts:280 | keeps only results without an error, each one a result of the input, and never more than the input |
| `CollectionPass.SuccessfulIsFilter` | src/compiler/extensions.ts:280 | the kept results are exactly the error-free results, in their original order: the results at the increasing list of positions that hold no error |
| `CollectionPass.NameSpanEffect` | src/compiler/extensions.ts:262-267 | one name's load adds the span keyed by the name exactly when profiling is on and the name is located on a host with a loader, bucketed by the name and stamped with its mark; the span gets a length exactly when the loader returned; every other span is unchanged |
| `CollectionPass.LoadStep` | src/compiler/extensions.ts:255-279 | one more configured name adds one load result, at most one diagnostic and one span step |
| `CollectionPass.NamesSplit` | src/compiler/extensions.ts:255-326 | names are processed independently: the records of `n1 + n2` are those of `n1` then `n2`, and all load diagnostics come before all validation diagnostics |
| `CollectionPass.FailedNameContribution` | src/compiler/extensions.ts:259-280 | a name whose load fails contributes exactly one diagnostic, its load error, and no record |
| `CollectionPass.LoadedNameContribution` | src/compiler/extensions.ts:280-325 | a name that loads contributes no load diagnostic, and exactly its module's records and validation diagnostics |
| `CollectionPass.LoadAccounting` | src/compiler/extensions.ts:275-280 | each load result is either reported by exactly one diagnostic or kept as successful |
| `CollectionPass.ExportedShape` | src/compiler/extensions.ts:300-322 | every validation diagnostic is a kind mismatch, and every lint record carries a constructor |
| `CollectionPass.LoadDiagnosticsFirst` | src/compiler/extensions.ts:253-327 | in the pass's diagnostics, every load diagnostic precedes every validation diagnostic |
| `CollectionPass.CollectedWellTyped` | src/compiler/extensions.ts:326 | each kind in the collection maps to a non-empty list of records of that kind, and lint kinds hold only constructors |
| `CollectionPass.LoadSpansKeys` | src/compiler/extensions.ts:262-267 | with profiling disabled the pass leaves the span table alone; when enabled it adds exactly the located names it loaded |
| `CollectionPass.OfKindMembers` | src/compiler/extensions.ts:326 | a kind's list holds exactly the records of that kind, and is empty exactly when no record has that kind |
| `CollectionPass.Grouped` | src/compiler/extensions.ts:326 | the grouping is empty exactly when there are no records, and the last record's kind always has an entry |
| `CollectionPass.GroupedMeaning` | src/compiler/extensions.ts:326 | the grouping has an entry exactly for each kind that occurs, holding that kind's records in their original order |
| `CollectionPass.GroupedWellFormed` | src/compiler/extensions.ts:326 | no kind has an empty entry, and each entry holds only its own kind's records |
| `ExtensionCaching.ResolveExtensionNames` | src/compiler/extensions.ts:241-251 | the map holds exactly the configured names that resolved, each mapped to its resolved file |
| `ExtensionCaching.GroupByKind` | src/compiler/extensions.ts:326 | the loop computes the grouping: an entry exactly for each kind present, holding that kind's records in order |
| `ExtensionCaching.ExtensionCache.constructor` | src/compiler/extensions.ts:217-223 | the resolved-name map is the given one if any, otherwise the configured names that resolved; no pass has run yet |
| `ExtensionCaching.ExtensionCache.GetCompilerExtensions` | src/compiler/extensions.ts:227-232 | always returns the collection the pass defines; the pass runs on the first call only (`passes` never exceeds 1); a later call changes nothing |
| `ExtensionCaching.ExtensionCache.GetExtensionLoadingDiagnostics` | src/compiler/extensions.ts:233-237 | forces the pass, returns its diagnostics, and changes nothing once the pass has run |
| `ExtensionCaching.ExtensionCache.CollectCompilerExtensions` | src/compiler/extensions.ts:253-327 | returns the grouped records of the pass, appends the pass's diagnostics, and leaves the span table as the loads define |
| `ExtensionCaching.ExtensionCache.LoadExtensions` | src/compiler/extensions.ts:255-279 | loads every configured name in order, pushing one diagnostic per failed load |
| `ExtensionCaching.ExtensionCache.LoadExtension` | src/compiler/extensions.ts:256-278 | loads one name and brackets the loader call with a span keyed and bucketed by the name; the span stays open if the loader throws |
| `ExtensionCaching.ExtensionCache.PrepareLoaded` | src/compiler/extensions.ts:280-326 | from the load results of the configured names, returns the collection the pass defines and appends the validation diagnostics of the modules that loaded |
| `ExtensionCaching.ExtensionCache.PrepareAll` | src/compiler/extensions.ts:281-326 | classifies the loaded modules in order and concatenates their records |
| `ExtensionCaching.ExtensionCache.PrepareExtensionObjects` | src/compiler/extensions.ts:281-325 | the export loop of one module yields that module's records and pushes its validation diagnostics |

## Left out

- Module resolution: `resolveModuleName`, `combinePaths` and
  `host.getCurrentDirectory` (extensions.ts:242-248) are external. The
  resolver is an input function from name to optional path.
- `host.loadExtension` runs foreign code. It is an input function from path
  to outcome. The model assumes each call for a given path gives the same
  outcome.
- A loader that calls back into the cache during the pass would start a
  second pass, because `extensions` is still unset then. The model has no
  re-entrancy.
- `performance.emit`, `performance.mark` and `performance.measure` are
  external:
  - the marks and lengths are naturals supplied by the caller or by `Clock`;
  - emitted events are kept only as the ghost log `Profiler.events`;
  - the pass's effect on that log is not specified.
- Diagnostic rendering, the `Diagnostics` catalog, categories and spans: a
  diagnostic is the tuple of its arguments, and a load error is one of three
  variants standing for the `Error` messages.
- Key enumeration order of JavaScript objects: integer-like keys come first.
  A module's exports and an object configuration's entries are taken in
  their enumeration order, as given.
- An absent `options.extensions` yields no names and behaves like an empty
  array. It is not a separate configuration shape.
- Prototype-chain lookups and values other than own properties are not
  modelled.
- `LintErrorMethod`, `LintWalker`, the provider interfaces, `Program` and
  `TypeCheckerHost` (extensions.ts:2-175) are type declarations with no
  behaviour.
- The library helpers `map`, `filter`, `forEachKey`, `groupBy` and `flatten`
  are not part of this model. Their effect is specified directly by the
  loops and functions that use them.
- `Classification.Classify`, `ExtensionCaching.ExtensionCache.PrepareExtensionObjects`:
  the kind-mismatch diagnostic carries the corrected kind label
  (`ExtensionTypes.KindLabel`, the namespace member that declares the tag),
  not the `undefined` that extensions.ts:308 computes as written. The
  as-written lookup is modelled separately; see "## Findings".
- `ExtensionCaching.ExtensionCache.GetCompilerExtensions`,
  `ExtensionCaching.ExtensionCache.GetExtensionLoadingDiagnostics`: the
  source returns the cache's own `extensions` object and `diagnostics` array,
  shared with the caller rather than copied (extensions.ts:231, 236). A
  caller that mutates either changes what later calls return. The model
  returns values, so its promise that a later call returns the same
  collection and diagnostics holds only for callers that do not mutate them.
- `ExtensionCaching.ExtensionCache.GetCompilerExtensions`: does not state the
  effect of the pass on the ghost event log.

## Findings

| source | as written | input that shows it | evidently intended | confidence | as-written member | corrected member |
|---|---|---|---|---|---|---|
| src/compiler/extensions.ts:308 | the kind label is `(ts as any).ExtensionKind[annotatedKind]`. This indexes the `ExtensionKind` namespace object, whose properties are `SemanticLint` and `SyntacticLint`, with the tag value itself | an export that is a plain object tagged `"semantic-lint"`: the diagnostic's kind argument is `undefined` | the diagnostic names the declared kind (`SemanticLint`) | medium, not executed | `ExtensionTypes.KindLabelAsWritten`, `ExtensionTypes.KindLabelAsWrittenIsUndefined` | `ExtensionTypes.KindLabel` |
