/** The benchmark service's own run bookkeeping: an immutable per-source
    status record with one with-er per field, the initial statuses of a run,
    and the placeholder run that steps each source through in-progress and
    completed. The file system is the two parameters `execConfigs` (the
    config files present) and `taskSources` (per task-source file present,
    the length of its `tasks` list, or `None` when it has none). */
module BenchmarkService {
  import opened Wrappers

  /** The record `TaskSourceStatus`. Its with-ers return a new record. */
  datatype SourceStatus = SourceStatus(total: int, completed: int, inProgress: int, filteredOut: int, error: int)

  /** `new TaskSourceStatus(total)`. */
  function NewSourceStatus(total: int): (s: SourceStatus)
    ensures s.total == total && s.completed == 0 && s.inProgress == 0 && s.filteredOut == 0 && s.error == 0
  {
    SourceStatus(total, 0, 0, 0, 0)
  }

  /** The with-ers, each a copy with one field replaced. */
  function WithCompleted(s: SourceStatus, count: int): (r: SourceStatus)
    ensures r.completed == count && r == s.(completed := r.completed)
  {
    SourceStatus(s.total, count, s.inProgress, s.filteredOut, s.error)
  }

  function WithInProgress(s: SourceStatus, count: int): (r: SourceStatus)
    ensures r.inProgress == count && r == s.(inProgress := r.inProgress)
  {
    SourceStatus(s.total, s.completed, count, s.filteredOut, s.error)
  }

  function WithFilteredOut(s: SourceStatus, count: int): (r: SourceStatus)
    ensures r.filteredOut == count && r == s.(filteredOut := r.filteredOut)
  {
    SourceStatus(s.total, s.completed, s.inProgress, count, s.error)
  }

  function WithError(s: SourceStatus, count: int): (r: SourceStatus)
    ensures r.error == count && r == s.(error := r.error)
  {
    SourceStatus(s.total, s.completed, s.inProgress, s.filteredOut, count)
  }

  /** The with-ers of different fields commute, and a with-er's own value is
      all that a second call of it keeps. */
  lemma WithersIndependent(s: SourceStatus, a: int, b: int)
    ensures WithInProgress(WithCompleted(s, a), b) == WithCompleted(WithInProgress(s, b), a)
    ensures WithCompleted(WithCompleted(s, a), b) == WithCompleted(s, b)
    ensures WithError(WithFilteredOut(s, a), b) == WithFilteredOut(WithError(s, b), a)
  {
  }

  /** The record `BenchmarkStatus`. */
  datatype RunStatus = RunStatus(execConfigFile: string, taskSourceFiles: seq<string>, resultFilename: string,
                                 taskSourceStatuses: map<string, SourceStatus>)

  function ConfigNotFound(execConfigFile: string): string
  {
    "Execution config file not found: " + execConfigFile
  }

  function SourceNotFound(taskSource: string): string
  {
    "Task source file not found: " + taskSource
  }

  /** `tasks != null ? tasks.size() : 0`. */
  function TotalOf(tasks: Option<nat>): (total: nat)
    ensures tasks.Some? ==> total == tasks.value
    ensures tasks.None? ==> total == 0
  {
    if tasks.Some? then tasks.value else 0
  }

  /** The index of the first listed task-source file that is missing, if any. */
  function FirstMissing(taskSources: map<string, Option<nat>>, files: seq<string>, from: nat): (r: Option<nat>)
    requires from <= |files|
    ensures r.None? <==> forall i :: from <= i < |files| ==> files[i] in taskSources
    ensures r.Some? ==> from <= r.value < |files| && files[r.value] !in taskSources
                        && forall i :: from <= i < r.value ==> files[i] in taskSources
    decreases |files| - from
  {
    if from == |files| then None
    else if files[from] !in taskSources then Some(from)
    else FirstMissing(taskSources, files, from + 1)
  }

  /** `startBenchmark` up to starting the run: the status it creates, or the
      `IllegalArgumentException` message it throws. */
  method StartBenchmark(execConfigs: set<string>, taskSources: map<string, Option<nat>>,
                        execConfigFile: string, taskSourceFiles: seq<string>, resultFilename: string)
    returns (r: Result<RunStatus, string>)
    ensures execConfigFile !in execConfigs ==> r == Failure(ConfigNotFound(execConfigFile))
    ensures execConfigFile in execConfigs && FirstMissing(taskSources, taskSourceFiles, 0).Some? ==>
              r == Failure(SourceNotFound(taskSourceFiles[FirstMissing(taskSources, taskSourceFiles, 0).value]))
    ensures r.Success? <==> execConfigFile in execConfigs && FirstMissing(taskSources, taskSourceFiles, 0).None?
    ensures r.Success? ==>
              r.value.execConfigFile == execConfigFile && r.value.taskSourceFiles == taskSourceFiles
              && r.value.resultFilename == resultFilename
              && r.value.taskSourceStatuses.Keys == set f | f in taskSourceFiles
              && forall f :: f in r.value.taskSourceStatuses ==>
                   f in taskSources && r.value.taskSourceStatuses[f] == NewSourceStatus(TotalOf(taskSources[f]))
  {
    if execConfigFile !in execConfigs {
      return Failure(ConfigNotFound(execConfigFile));
    }
    var statuses: map<string, SourceStatus> := map[];
    var i := 0;
    while i < |taskSourceFiles|
      invariant 0 <= i <= |taskSourceFiles|
      invariant forall k :: 0 <= k < i ==> taskSourceFiles[k] in taskSources
      invariant FirstMissing(taskSources, taskSourceFiles, 0) == FirstMissing(taskSources, taskSourceFiles, i)
      invariant statuses.Keys == set f | f in taskSourceFiles[..i]
      invariant forall f :: f in statuses ==> f in taskSources && statuses[f] == NewSourceStatus(TotalOf(taskSources[f]))
    {
      var file := taskSourceFiles[i];
      if file !in taskSources {
        return Failure(SourceNotFound(file));
      }
      assert taskSourceFiles[..i + 1] == taskSourceFiles[..i] + [file];
      statuses := statuses[file := NewSourceStatus(TotalOf(taskSources[file]))];
      i := i + 1;
    }
    assert taskSourceFiles[..i] == taskSourceFiles;
    return Success(RunStatus(execConfigFile, taskSourceFiles, resultFilename, statuses));
  }

  /** The run loop as written: each with-er builds a new record and the
      result is dropped, so the stored statuses are never updated, and the
      status file is saved twice per source with the status unchanged. A
      listed source without a status makes `sourceStatus.total()` throw,
      which the `catch` swallows, ending the loop after `stepped` sources. */
  method RunAsWritten(status: RunStatus) returns (final: RunStatus, saved: seq<RunStatus>, stepped: nat)
    ensures final == status
    ensures stepped <= |status.taskSourceFiles|
    ensures forall k :: 0 <= k < stepped ==> status.taskSourceFiles[k] in status.taskSourceStatuses
    ensures stepped < |status.taskSourceFiles| ==> status.taskSourceFiles[stepped] !in status.taskSourceStatuses
    ensures |saved| == 2 * stepped && forall s :: s in saved ==> s == status
  {
    saved := [];
    var i := 0;
    while i < |status.taskSourceFiles|
      invariant 0 <= i <= |status.taskSourceFiles|
      invariant forall k :: 0 <= k < i ==> status.taskSourceFiles[k] in status.taskSourceStatuses
      invariant |saved| == 2 * i && forall s :: s in saved ==> s == status
    {
      if status.taskSourceFiles[i] !in status.taskSourceStatuses {
        break;
      }
      var sourceStatus := status.taskSourceStatuses[status.taskSourceFiles[i]];
      var _ := WithInProgress(sourceStatus, sourceStatus.total);
      saved := saved + [status];
      var _ := WithCompleted(sourceStatus, sourceStatus.total);
      var _ := WithInProgress(sourceStatus, 0);
      saved := saved + [status];
      i := i + 1;
    }
    final, stepped := status, i;
  }

  /** A run over one source of three tasks ends with that source still at
      zero completed, so the status never reaches its total. */
  method RunAsWrittenNeverCompletes() returns (final: RunStatus)
    ensures "a.yaml" in final.taskSourceStatuses
    ensures final.taskSourceStatuses["a.yaml"].completed == 0 != final.taskSourceStatuses["a.yaml"].total
  {
    var start := StartBenchmark({"exec.yaml"}, map["a.yaml" := Some(3)], "exec.yaml", ["a.yaml"], "run.yaml");
    assert FirstMissing(map["a.yaml" := Some(3)], ["a.yaml"], 1) == None;
    assert (set f | f in ["a.yaml"]) == {"a.yaml"};
    var saved, stepped;
    final, saved, stepped := RunAsWritten(start.value);
  }

  /** The run loop with the with-ers' results stored back: each source goes
      to in-progress with its total, then to completed with its total and
      none in progress. */
  method Run(status: RunStatus) returns (final: RunStatus)
    requires forall f :: f in status.taskSourceFiles ==> f in status.taskSourceStatuses
    ensures final.execConfigFile == status.execConfigFile && final.taskSourceFiles == status.taskSourceFiles
    ensures final.resultFilename == status.resultFilename
    ensures final.taskSourceStatuses.Keys == status.taskSourceStatuses.Keys
    ensures forall f :: f in status.taskSourceStatuses ==>
              if f in status.taskSourceFiles then
                final.taskSourceStatuses[f] == status.taskSourceStatuses[f].(completed := status.taskSourceStatuses[f].total, inProgress := 0)
              else final.taskSourceStatuses[f] == status.taskSourceStatuses[f]
  {
    var statuses := status.taskSourceStatuses;
    var i := 0;
    while i < |status.taskSourceFiles|
      invariant 0 <= i <= |status.taskSourceFiles|
      invariant statuses.Keys == status.taskSourceStatuses.Keys
      invariant forall f :: f in status.taskSourceStatuses ==>
                  if f in status.taskSourceFiles[..i] then
                    statuses[f] == status.taskSourceStatuses[f].(completed := status.taskSourceStatuses[f].total, inProgress := 0)
                  else statuses[f] == status.taskSourceStatuses[f]
    {
      var file := status.taskSourceFiles[i];
      assert status.taskSourceFiles[..i + 1] == status.taskSourceFiles[..i] + [file];
      var sourceStatus := statuses[file];
      statuses := statuses[file := WithInProgress(sourceStatus, sourceStatus.total)];
      sourceStatus := statuses[file];
      statuses := statuses[file := WithInProgress(WithCompleted(sourceStatus, sourceStatus.total), 0)];
      i := i + 1;
    }
    assert status.taskSourceFiles[..i] == status.taskSourceFiles;
    final := status.(taskSourceStatuses := statuses);
  }

  /** After the corrected run of a freshly started benchmark every listed
      source has accounted for all of its tasks and none is in progress. */
  lemma StartedRunCompletes(start: RunStatus, final: RunStatus)
    requires forall f :: f in start.taskSourceStatuses ==> start.taskSourceStatuses[f].filteredOut == 0 && start.taskSourceStatuses[f].error == 0
    requires final.taskSourceStatuses.Keys == start.taskSourceStatuses.Keys
    requires forall f :: f in start.taskSourceStatuses ==>
               final.taskSourceStatuses[f] == start.taskSourceStatuses[f].(completed := start.taskSourceStatuses[f].total, inProgress := 0)
    ensures forall f :: f in final.taskSourceStatuses ==>
              var s := final.taskSourceStatuses[f];
              s.completed + s.error + s.filteredOut == s.total && s.inProgress == 0
  {
  }

  /** The service's registry of the runs in progress, keyed by result file. */
  class Service {
    var activeRuns: map<string, RunStatus>

    constructor ()
      ensures activeRuns == map[]
    {
      activeRuns := map[];
    }

    /** `runBenchmarkAsync` as written: the run is registered, stepped
        through (with the statuses unchanged) and, in the `finally`, removed
        again, so the registry ends without that result file. */
    method RunBenchmarkAsync(status: RunStatus) returns (final: RunStatus)
      modifies this
      ensures final == status
      ensures activeRuns == old(activeRuns) - {status.resultFilename}
    {
      activeRuns := activeRuns[status.resultFilename := status];
      var saved, stepped;
      final, saved, stepped := RunAsWritten(status);
      activeRuns := activeRuns - {status.resultFilename};
    }
  }
}
