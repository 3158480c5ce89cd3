/** The run-progress tracker: per task source a record of mutable counters,
    per run a record of those keyed by task-source name, and the registry of
    the runs in progress keyed by result file. Writing a status to disk is
    not part of this model. */
module ProgressTracker {
  import opened Wrappers
  import opened BenchConfig

  /** One task source's counters; only the three counters ever change. */
  class TaskSourceStatus {
    const total: int
    var completed: int
    var filteredOut: int
    var error: int

    constructor (total: int)
      ensures this.total == total && completed == 0 && filteredOut == 0 && error == 0
    {
      this.total := total;
      completed := 0;
      filteredOut := 0;
      error := 0;
    }

    /** The number of tasks accounted for so far. */
    function Counted(): int
      reads this
    {
      completed + filteredOut + error
    }

    method IncrementFilteredOut()
      modifies this
      ensures filteredOut == old(filteredOut) + 1
      ensures completed == old(completed) && error == old(error)
      ensures Counted() == old(Counted()) + 1
    {
      filteredOut := filteredOut + 1;
    }

    method IncrementCompleted()
      modifies this
      ensures completed == old(completed) + 1
      ensures filteredOut == old(filteredOut) && error == old(error)
      ensures Counted() == old(Counted()) + 1
    {
      completed := completed + 1;
    }

    method IncrementError()
      modifies this
      ensures error == old(error) + 1
      ensures completed == old(completed) && filteredOut == old(filteredOut)
      ensures Counted() == old(Counted()) + 1
    {
      error := error + 1;
    }
  }

  /** One run: its config file, result file and per-source counters. */
  class BenchmarkStatus {
    const execConfigFile: string
    const resultFilename: string
    var taskSourceStatuses: map<string, TaskSourceStatus>

    constructor (execConfigFile: string, taskSourceStatuses: map<string, TaskSourceStatus>, resultFilename: string)
      ensures this.execConfigFile == execConfigFile && this.resultFilename == resultFilename
      ensures this.taskSourceStatuses == taskSourceStatuses
    {
      this.execConfigFile := execConfigFile;
      this.resultFilename := resultFilename;
      this.taskSourceStatuses := taskSourceStatuses;
    }

    /** `getTaskSourceStatus`: the entry already kept under the source's name,
        or a new one, with the source's task count as total, put there. */
    method GetTaskSourceStatus(taskSource: TaskSource) returns (s: TaskSourceStatus)
      modifies this
      ensures taskSource.name in old(taskSourceStatuses) ==>
                s == old(taskSourceStatuses)[taskSource.name] && taskSourceStatuses == old(taskSourceStatuses)
      ensures taskSource.name !in old(taskSourceStatuses) ==>
                fresh(s) && s.total == |taskSource.tasks| && s.completed == 0 && s.filteredOut == 0 && s.error == 0
                && taskSourceStatuses == old(taskSourceStatuses)[taskSource.name := s]
    {
      if taskSource.name in taskSourceStatuses {
        s := taskSourceStatuses[taskSource.name];
      } else {
        s := new TaskSourceStatus(|taskSource.tasks|);
        taskSourceStatuses := taskSourceStatuses[taskSource.name := s];
      }
    }
  }

  /** The names of the given sources. */
  function Names(sources: seq<TaskSource>): (names: set<string>)
    ensures forall n :: n in names <==> exists i :: 0 <= i < |sources| && sources[i].name == n
    decreases |sources|
  {
    if sources == [] then {}
    else Names(sources[..|sources| - 1]) + {sources[|sources| - 1].name}
  }

  /** The task count of the last source with name `n`, the one whose entry a
      later `put` under the same name leaves in place. */
  function LastCount(sources: seq<TaskSource>, n: string): (count: int)
    requires n in Names(sources)
    ensures exists i :: 0 <= i < |sources| && sources[i].name == n && count == |sources[i].tasks|
                        && forall j :: i < j < |sources| ==> sources[j].name != n
    decreases |sources|
  {
    var last := sources[|sources| - 1];
    if last.name == n then |last.tasks|
    else
      var r := LastCount(sources[..|sources| - 1], n);
      assert sources[..|sources| - 1] + [last] == sources;
      r
  }

  lemma NamesSnoc(sources: seq<TaskSource>, i: nat)
    requires i < |sources|
    ensures Names(sources[..i + 1]) == Names(sources[..i]) + {sources[i].name}
  {
    assert sources[..i + 1][..i] == sources[..i];
  }

  lemma LastCountSnoc(sources: seq<TaskSource>, i: nat, n: string)
    requires i < |sources| && n in Names(sources[..i + 1])
    ensures sources[i].name != n ==> n in Names(sources[..i])
    ensures LastCount(sources[..i + 1], n) == if sources[i].name == n then |sources[i].tasks| else LastCount(sources[..i], n)
  {
    NamesSnoc(sources, i);
    assert sources[..i + 1][..i] == sources[..i];
  }

  /** The loop of `createStatus`: a new record per source, a later source
      with the same name replacing the earlier one's record. */
  method NewStatuses(taskSources: seq<TaskSource>) returns (statuses: map<string, TaskSourceStatus>)
    ensures statuses.Keys == Names(taskSources)
    ensures forall n :: n in statuses ==>
              fresh(statuses[n]) && statuses[n].total == LastCount(taskSources, n)
              && statuses[n].completed == 0 && statuses[n].filteredOut == 0 && statuses[n].error == 0
  {
    statuses := map[];
    var i := 0;
    while i < |taskSources|
      invariant 0 <= i <= |taskSources|
      invariant statuses.Keys == Names(taskSources[..i])
      invariant forall n :: n in statuses ==>
                  fresh(statuses[n]) && statuses[n].total == LastCount(taskSources[..i], n)
                  && statuses[n].completed == 0 && statuses[n].filteredOut == 0 && statuses[n].error == 0
    {
      var s := new TaskSourceStatus(|taskSources[i].tasks|);
      NamesSnoc(taskSources, i);
      statuses := statuses[taskSources[i].name := s];
      forall n | n in statuses
        ensures statuses[n].total == LastCount(taskSources[..i + 1], n)
      {
        LastCountSnoc(taskSources, i, n);
      }
      i := i + 1;
    }
    assert taskSources[..i] == taskSources;
  }

  class Tracker {
    var activeRuns: map<string, BenchmarkStatus>

    constructor ()
      ensures activeRuns == map[]
    {
      activeRuns := map[];
    }

    /** `createStatus`: one entry per task-source name, total the task count
        and every counter 0, registered under the result file. */
    method CreateStatus(execConfigFile: string, taskSources: seq<TaskSource>, resultFilename: string)
      returns (status: BenchmarkStatus)
      modifies this
      ensures fresh(status)
      ensures status.execConfigFile == execConfigFile && status.resultFilename == resultFilename
      ensures status.taskSourceStatuses.Keys == Names(taskSources)
      ensures forall i :: 0 <= i < |taskSources| ==> taskSources[i].name in status.taskSourceStatuses
      ensures forall n :: n in status.taskSourceStatuses ==>
                fresh(status.taskSourceStatuses[n]) && status.taskSourceStatuses[n].total == LastCount(taskSources, n)
                && status.taskSourceStatuses[n].Counted() == 0
      ensures activeRuns == old(activeRuns)[resultFilename := status]
    {
      var statuses := NewStatuses(taskSources);
      status := new BenchmarkStatus(execConfigFile, statuses, resultFilename);
      activeRuns := activeRuns[resultFilename := status];
    }

    /** `getStatus`: the registered run, or null for an unknown file. */
    function GetStatus(statusFile: string): (r: Option<BenchmarkStatus>)
      reads this
      ensures r.Some? <==> statusFile in activeRuns
      ensures r.Some? ==> r.value == activeRuns[statusFile]
    {
      if statusFile in activeRuns then Some(activeRuns[statusFile]) else None
    }

    /** `completeRun`: the run leaves the registry; nothing happens for an
        unknown file. */
    method CompleteRun(statusFile: string)
      modifies this
      ensures activeRuns == old(activeRuns) - {statusFile}
      ensures GetStatus(statusFile) == None
      ensures forall f :: f != statusFile ==> GetStatus(f) == old(GetStatus(f))
    {
      activeRuns := activeRuns - {statusFile};
    }
  }

  /** A second lookup of the same source returns the entry the first one put
      there, so all increments for one source reach one record. */
  method GetTwiceSameRecord(status: BenchmarkStatus, taskSource: TaskSource) returns (first: TaskSourceStatus, second: TaskSourceStatus)
    modifies status
    ensures first == second
    ensures taskSource.name in status.taskSourceStatuses && status.taskSourceStatuses[taskSource.name] == first
  {
    first := status.GetTaskSourceStatus(taskSource);
    second := status.GetTaskSourceStatus(taskSource);
  }
}
