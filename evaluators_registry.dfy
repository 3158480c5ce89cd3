/** The registry that selects the evaluators applying to a task. An
    evaluator's `matches` is the parameter `matches`. */
module EvaluatorsRegistry {
  import opened Seqs
  import opened BenchConfig

  /** An evaluator is known here only by its name. */
  datatype Evaluator = Evaluator(name: string)

  /** `getEvaluators`: the registered evaluators that match, in registration order. */
  function GetEvaluators(evaluators: seq<Evaluator>, matches: (Evaluator, ExecConfig, TaskDefinition) -> bool,
                         config: ExecConfig, task: TaskDefinition): (r: seq<Evaluator>)
    ensures |r| <= |evaluators|
    ensures forall e :: e in r <==> e in evaluators && matches(e, config, task)
    ensures Subsequence(r, evaluators)
  {
    var p := (e: Evaluator) => matches(e, config, task);
    var r := Filter(evaluators, p);
    FilterSubsequence(evaluators, p);
    FilterMultiset(evaluators, p);
    assert forall e :: e in r <==> multiset(r)[e] > 0;
    r
  }

  /** Each registered evaluator appears in the result as often as it is
      registered when it matches, and not at all otherwise. */
  lemma GetEvaluatorsCounts(evaluators: seq<Evaluator>, matches: (Evaluator, ExecConfig, TaskDefinition) -> bool,
                            config: ExecConfig, task: TaskDefinition)
    ensures forall e :: multiset(GetEvaluators(evaluators, matches, config, task))[e]
                        == if matches(e, config, task) then multiset(evaluators)[e] else 0
  {
    FilterMultiset(evaluators, (e: Evaluator) => matches(e, config, task));
  }
}
