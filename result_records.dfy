/** The records of a benchmark result document as the frontend reads them
    (a run's task records, their attempts and the per-criteria evaluation
    results), and the one three-way classification of an evaluation result
    that the counters and the status browser share. */
module ResultRecords {
  import opened Wrappers
  import opened Text

  /** One criteria evaluation. `error` and `output` are optional strings. */
  datatype CriteriaResult = CriteriaResult(
    criteria: string,
    score: real,
    unit: string,
    error: Option<string>,
    output: Option<string>,
    timeMillis: real,
    executorClass: string,
    preparedCode: Option<string>)

  /** The LLM's answer attached to an attempt; carried along, never inspected. */
  datatype LlmResponse = LlmResponse(modelName: string, prompt: string, language: string, responseText: string)

  /** One (language, model) attempt at a task. */
  datatype Attempt = Attempt(
    language: string,
    providerName: string,
    modelName: string,
    llmResponse: LlmResponse,
    evaluationResult: seq<CriteriaResult>)

  datatype Details = Details(
    taskSourcePath: string,
    taskSourceName: string,
    taskDefinitionName: string,
    skipReasons: seq<string>,
    taskResults: seq<Attempt>)

  /** One task of a result document. */
  datatype TaskRecord = TaskRecord(area: string, name: string, details: Details)

  /** What the status browser and the counters hold per evaluation result. */
  datatype Entry = Entry(taskName: string, result: CriteriaResult, llmResponse: LlmResponse)

  predicate HasError(r: CriteriaResult)
  {
    TruthyText(r.error)
  }

  datatype Outcome = Complete | Skipped | Errored

  /** The three-way classification: an error wins whatever the score; without
      one a negative score means the criteria was skipped. */
  function Classify(r: CriteriaResult): (o: Outcome)
    ensures o == Errored <==> HasError(r)
    ensures o == Skipped <==> !HasError(r) && r.score < 0.0
    ensures o == Complete <==> !HasError(r) && r.score >= 0.0
  {
    if HasError(r) then Errored
    else if r.score < 0.0 then Skipped
    else Complete
  }
}
