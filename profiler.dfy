/**
 * The process-wide profiling span table (`perfTraces`) and the helpers that
 * derive span keys and aggregation buckets from extension names.
 *
 * Readings of the performance clock (`performance.mark()` and
 * `performance.measure(...)`) are abstract naturals passed in by the caller;
 * the events sent to the external event sink (`performance.emit`) are kept
 * as a ghost log.
 */
module Profiling {
  import opened Wrappers
  import JsStrings

  /** One span: its aggregation bucket, its task key, its start mark and, once completed, its length. */
  datatype ProfileData = ProfileData(globalBucket: Option<string>, task: string, start: nat, length: Option<nat>)

  type Traces = map<string, ProfileData>

  /**
   * `getExtensionRootName`: the part of a qualified name before its first
   * `[`, unless that part is empty (no `[` at all, or `[` at index 0), in
   * which case the whole name.
   */
  function ExtensionRootName(qualifiedName: string): (root: string)
    ensures '[' !in qualifiedName ==> root == qualifiedName
    ensures |qualifiedName| > 0 && qualifiedName[0] == '[' ==> root == qualifiedName
    ensures forall i :: 0 < i < |qualifiedName| && qualifiedName[i] == '[' && '[' !in qualifiedName[..i] ==>
              root == qualifiedName[..i]
  {
    var prefix := JsStrings.Substring(qualifiedName, 0, JsStrings.IndexOf(qualifiedName, '['));
    // `||` falls back to the whole name when the prefix is the (falsy) empty string.
    if prefix != "" then prefix else qualifiedName
  }

  /** `createTaskName`: the task label, a `|` separator, then the qualified name. */
  function TaskName(qualifiedName: string, task: string): (key: string)
    ensures |key| == |task| + 1 + |qualifiedName|
    ensures key[..|task|] == task && key[|task|] == '|' && key[|task| + 1..] == qualifiedName
  {
    task + "|" + qualifiedName
  }

  /** The table after a span for `key` is (re)started: that entry is replaced, no other entry changes. */
  function Opened(traces: Traces, key: string, bucket: Option<string>, stamp: nat): (r: Traces)
    ensures key in r && r[key] == ProfileData(bucket, key, stamp, None)
    ensures r.Keys == traces.Keys + {key}
    ensures forall k :: k in traces && k != key ==> r[k] == traces[k]
  {
    traces[key := ProfileData(bucket, key, stamp, None)]
  }

  /** The table after the span for `key` is completed: only that entry's length changes. */
  function Closed(traces: Traces, key: string, elapsed: nat): (r: Traces)
    requires key in traces
    ensures key in r && r[key] == traces[key].(length := Some(elapsed))
    ensures r.Keys == traces.Keys
    ensures forall k :: k in traces && k != key ==> r[k] == traces[k]
  {
    traces[key := traces[key].(length := Some(elapsed))]
  }

  /** The process-wide span table. */
  class Profiler {
    var traces: Traces
    /** What has been sent to the external event sink, in order. */
    ghost var events: seq<string>

    constructor ()
      ensures traces == map[] && events == []
    {
      traces := map[];
      events := [];
    }

    /** `startProfile`: a no-op when disabled; otherwise emits `start|key` and opens a fresh span. */
    method StartProfile(enabled: bool, key: string, bucket: Option<string>, stamp: nat)
      modifies this
      ensures traces == if enabled then Opened(old(traces), key, bucket, stamp) else old(traces)
      ensures events == if enabled then old(events) + ["start|" + key] else old(events)
    {
      if !enabled {
        return;
      }
      events := events + ["start|" + key];
      traces := traces[key := ProfileData(bucket, key, stamp, None)];
    }

    /**
     * `completeProfile`: a no-op when disabled; otherwise the span must have
     * been started (a failed internal assertion otherwise), its length is
     * recorded and `end|key` is emitted.
     */
    method CompleteProfile(enabled: bool, key: string, elapsed: nat)
      requires enabled ==> key in traces
      modifies this
      ensures traces == if enabled then Closed(old(traces), key, elapsed) else old(traces)
      ensures events == if enabled then old(events) + ["end|" + key] else old(events)
    {
      if !enabled {
        return;
      }
      traces := traces[key := traces[key].(length := Some(elapsed))];
      events := events + ["end|" + key];
    }

    /** `startExtensionProfile`: a span keyed `task|qualifiedName`, bucketed under the extension's root name. */
    method StartExtensionProfile(enabled: bool, qualifiedName: string, task: string, stamp: nat)
      modifies this
      ensures enabled ==> TaskName(qualifiedName, task) in traces
      ensures traces == if enabled
                        then Opened(old(traces), TaskName(qualifiedName, task), Some(ExtensionRootName(qualifiedName)), stamp)
                        else old(traces)
      ensures events == if enabled then old(events) + ["start|" + TaskName(qualifiedName, task)] else old(events)
    {
      if !enabled {
        return;
      }
      var longTask := TaskName(qualifiedName, task);
      StartProfile(true, longTask, Some(ExtensionRootName(qualifiedName)), stamp);
    }

    /** `completeExtensionProfile`: completes the span `startExtensionProfile` opened for the same name and task. */
    method CompleteExtensionProfile(enabled: bool, qualifiedName: string, task: string, elapsed: nat)
      requires enabled ==> TaskName(qualifiedName, task) in traces
      modifies this
      ensures traces == if enabled then Closed(old(traces), TaskName(qualifiedName, task), elapsed) else old(traces)
      ensures events == if enabled then old(events) + ["end|" + TaskName(qualifiedName, task)] else old(events)
    {
      if !enabled {
        return;
      }
      var longTask := TaskName(qualifiedName, task);
      CompleteProfile(true, longTask, elapsed);
    }
  }

  /** Task keys built from `|`-free task labels identify their task and name uniquely. */
  lemma TaskNameInjective(q1: string, task1: string, q2: string, task2: string)
    requires '|' !in task1 && '|' !in task2
    requires TaskName(q1, task1) == TaskName(q2, task2)
    ensures q1 == q2 && task1 == task2
  {
  }

  /**
   * Starting the span of one extension task never disturbs the span of a
   * different extension task, so a later `completeExtensionProfile` for that
   * other task still finds its entry.
   */
  lemma ExtensionSpansIndependent(traces: Traces, q1: string, task1: string, q2: string, task2: string, stamp: nat)
    requires '|' !in task1 && '|' !in task2
    requires q1 != q2 || task1 != task2
    requires TaskName(q2, task2) in traces
    ensures var r := Opened(traces, TaskName(q1, task1), Some(ExtensionRootName(q1)), stamp);
            TaskName(q2, task2) in r && r[TaskName(q2, task2)] == traces[TaskName(q2, task2)]
  {
    if TaskName(q1, task1) == TaskName(q2, task2) {
      TaskNameInjective(q1, task1, q2, task2);
    }
  }

  /** Completing a just-started span yields that span with its length recorded and leaves the rest of the table alone. */
  lemma StartThenComplete(traces: Traces, key: string, bucket: Option<string>, stamp: nat, elapsed: nat)
    ensures key in Opened(traces, key, bucket, stamp)
    ensures var r := Closed(Opened(traces, key, bucket, stamp), key, elapsed);
            r.Keys == traces.Keys + {key} && r[key] == ProfileData(bucket, key, stamp, Some(elapsed)) &&
            forall k :: k in traces && k != key ==> r[k] == traces[k]
  {
  }
}
