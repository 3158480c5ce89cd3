/** The results view: a parsed result document, a list of run entries each
    holding task records, is flattened into one table row per run entry, and
    any failure while loading, parsing or flattening leaves an empty table and
    an error message. Property reads on missing data that JavaScript turns
    into a `TypeError` are the `Failure` path of `TransformResults`. */
module BenchResultsView {
  import opened Wrappers
  import opened Text
  import opened ResultRecords

  /** One evaluation result inside an attempt; only `error` is read. */
  datatype RawEval = RawEval(error: Option<string>)

  datatype RawAttempt = RawAttempt(language: string, evaluationResult: Option<seq<RawEval>>)

  datatype RawTaskDefinition = RawTaskDefinition(domain: Option<string>, difficulty: Option<string>)

  datatype RawDetails = RawDetails(
    taskResults: Option<seq<RawAttempt>>,
    taskDefinition: Option<RawTaskDefinition>,
    skipReasons: Option<seq<string>>)

  datatype RawResult = RawResult(name: string, details: Option<RawDetails>)

  /** One run entry of the document: the task source it ran and its task records. */
  datatype RawRun = RawRun(taskSourceName: string, results: Option<seq<RawResult>>)

  /** What `parseYaml` hands back: an array of (possibly null) run entries, or
      anything else. */
  datatype RawDocument = NotArray | Array(runs: seq<Option<RawRun>>)

  /** One row of the results table. */
  datatype Row = Row(
    taskSourceName: string,
    taskName: string,
    languages: seq<string>,
    domain: string,
    difficulty: string,
    isSkipped: bool,
    hasErrors: bool,
    details: RawDetails)

  const NotAvailable := "N/A"

  /** `x || 'N/A'` on an optional string. */
  function OrNotAvailable(s: Option<string>): (r: string)
    ensures TruthyText(s) ==> r == s.value
    ensures !TruthyText(s) ==> r == NotAvailable
  {
    if TruthyText(s) then s.value else NotAvailable
  }

  /** `task_results?.map(tr => tr.language)`, in attempt order. */
  function Languages(attempts: seq<RawAttempt>): (langs: seq<string>)
    ensures |langs| == |attempts|
    ensures forall i :: 0 <= i < |attempts| ==> langs[i] == attempts[i].language
    decreases |attempts|
  {
    if attempts == [] then []
    else Languages(attempts[..|attempts| - 1]) + [attempts[|attempts| - 1].language]
  }

  /** `evaluation_result?.some(er => er.error)` for a present list. */
  function SomeError(evals: seq<RawEval>): (b: bool)
    ensures b <==> exists i :: 0 <= i < |evals| && TruthyText(evals[i].error)
    decreases |evals|
  {
    if evals == [] then false
    else SomeError(evals[..|evals| - 1]) || TruthyText(evals[|evals| - 1].error)
  }

  /** An attempt has an error: its evaluation list is present and some entry
      of it has a truthy error. */
  predicate AttemptHasError(a: RawAttempt)
  {
    a.evaluationResult.Some? && SomeError(a.evaluationResult.value)
  }

  /** `task_results.some(...)` for a present list. */
  function SomeAttemptHasError(attempts: seq<RawAttempt>): (b: bool)
    ensures b <==> exists i :: 0 <= i < |attempts| && AttemptHasError(attempts[i])
    decreases |attempts|
  {
    if attempts == [] then false
    else SomeAttemptHasError(attempts[..|attempts| - 1]) || AttemptHasError(attempts[|attempts| - 1])
  }

  /** A run entry can be flattened when it is not null, has a non-empty
      `results` list, and that list's first record has `details`; any other
      run entry makes the property reads throw. */
  predicate Readable(run: Option<RawRun>)
  {
    run.Some? && run.value.results.Some? && |run.value.results.value| > 0
    && run.value.results.value[0].details.Some?
  }

  /** The row of one readable run entry, built from its first task record. */
  function RowOf(run: RawRun): (row: Row)
    requires Readable(Some(run))
    ensures row.taskSourceName == run.taskSourceName
    ensures row.taskName == run.results.value[0].name
    ensures row.details == run.results.value[0].details.value
    ensures row.isSkipped <==>
              run.results.value[0].details.value.skipReasons.Some?
              && |run.results.value[0].details.value.skipReasons.value| > 0
  {
    var first := run.results.value[0];
    var d := first.details.value;
    Row(
      run.taskSourceName,
      first.name,
      if d.taskResults.Some? then Languages(d.taskResults.value) else [],
      OrNotAvailable(if d.taskDefinition.Some? then d.taskDefinition.value.domain else None),
      OrNotAvailable(if d.taskDefinition.Some? then d.taskDefinition.value.difficulty else None),
      d.skipReasons.Some? && |d.skipReasons.value| > 0,
      d.taskResults.Some? && SomeAttemptHasError(d.taskResults.value),
      d)
  }

  /** `data.map(...)` over the run entries; the first unreadable one throws. */
  function TransformRuns(runs: seq<Option<RawRun>>): (r: Result<seq<Row>, string>)
    ensures r.Success? <==> forall i :: 0 <= i < |runs| ==> Readable(runs[i])
    ensures r.Success? ==> |r.value| == |runs|
    ensures r.Success? ==> forall i :: 0 <= i < |runs| ==> r.value[i] == RowOf(runs[i].value)
    decreases |runs|
  {
    if runs == [] then Success([])
    else
      var init := TransformRuns(runs[..|runs| - 1]);
      var last := runs[|runs| - 1];
      if init.Failure? then init
      else if !Readable(last) then Failure("TypeError")
      else Success(init.value + [RowOf(last.value)])
  }

  /** `transformResults`: no rows for anything but an array. */
  function TransformResults(data: RawDocument): (r: Result<seq<Row>, string>)
    ensures data.NotArray? ==> r == Success([])
    ensures data.Array? ==> r == TransformRuns(data.runs)
  {
    match data
    case NotArray => Success([])
    case Array(runs) => TransformRuns(runs)
  }

  /** Records after the first one of a run entry never reach its row. */
  lemma OnlyFirstResultRead(run: RawRun, others: seq<RawResult>)
    requires Readable(Some(run))
    ensures RowOf(RawRun(run.taskSourceName, Some([run.results.value[0]] + others))) == RowOf(run)
  {
  }

  /** The content of a row's derived columns, read from the first record's details. */
  lemma RowColumns(run: RawRun)
    requires Readable(Some(run))
    ensures var d := run.results.value[0].details.value;
            && (d.taskResults.None? ==> RowOf(run).languages == [])
            && (d.taskResults.Some? ==>
                  |RowOf(run).languages| == |d.taskResults.value|
                  && forall i :: 0 <= i < |d.taskResults.value| ==>
                       RowOf(run).languages[i] == d.taskResults.value[i].language)
            && (d.taskDefinition.None? ==> RowOf(run).domain == NotAvailable && RowOf(run).difficulty == NotAvailable)
            && (d.taskDefinition.Some? && !TruthyText(d.taskDefinition.value.domain) ==> RowOf(run).domain == NotAvailable)
            && (d.taskDefinition.Some? && TruthyText(d.taskDefinition.value.domain) ==>
                  RowOf(run).domain == d.taskDefinition.value.domain.value)
            && (d.taskDefinition.Some? && !TruthyText(d.taskDefinition.value.difficulty) ==>
                  RowOf(run).difficulty == NotAvailable)
            && (d.taskDefinition.Some? && TruthyText(d.taskDefinition.value.difficulty) ==>
                  RowOf(run).difficulty == d.taskDefinition.value.difficulty.value)
  {
  }

  /** `hasErrors` holds exactly when some attempt of the first record has some
      evaluation result with a truthy error, and is false without attempts. */
  lemma HasErrorsMeaning(run: RawRun)
    requires Readable(Some(run))
    ensures var d := run.results.value[0].details.value;
            RowOf(run).hasErrors <==>
              d.taskResults.Some? && exists i, j ::
                0 <= i < |d.taskResults.value| && d.taskResults.value[i].evaluationResult.Some?
                && 0 <= j < |d.taskResults.value[i].evaluationResult.value|
                && TruthyText(d.taskResults.value[i].evaluationResult.value[j].error)
  {
    var d := run.results.value[0].details.value;
    if d.taskResults.Some? {
      var ts := d.taskResults.value;
      if RowOf(run).hasErrors {
        var i :| 0 <= i < |ts| && AttemptHasError(ts[i]);
        var j :| 0 <= j < |ts[i].evaluationResult.value| && TruthyText(ts[i].evaluationResult.value[j].error);
      } else {
        forall i, j | 0 <= i < |ts| && ts[i].evaluationResult.Some? && 0 <= j < |ts[i].evaluationResult.value|
          ensures !TruthyText(ts[i].evaluationResult.value[j].error)
        {
          assert !AttemptHasError(ts[i]);
        }
      }
    }
  }

  const LoadFailedMessage := "Failed to load benchmark results"

  /** The view's state that `loadResults` drives. */
  class ResultsView {
    var results: seq<Row>
    var loading: bool
    var error: Option<string>

    constructor ()
      ensures results == [] && loading && error == None
    {
      results := [];
      loading := true;
      error := None;
    }

    /** `loadResults`: `fetched` is what reading and parsing the chosen file
        produced (the file read and the YAML parser are outside the model). A
        failure there or in the flattening empties the table and records the
        message; either way loading ends. */
    method LoadResults(fetched: Result<RawDocument, string>)
      modifies this
      ensures !loading
      ensures fetched.Success? && TransformResults(fetched.value).Success? ==>
                results == TransformResults(fetched.value).value && error == None
      ensures fetched.Failure? || TransformResults(fetched.value).Failure? ==>
                results == [] && error == Some(LoadFailedMessage)
    {
      loading := true;
      error := None;
      var outcome := if fetched.Success? then TransformResults(fetched.value) else Failure(fetched.error);
      if outcome.Success? {
        results := outcome.value;
      } else {
        error := Some(LoadFailedMessage);
        results := [];
      }
      loading := false;
    }
  }
}
