/** The older executor: a stricter filter chain per task, then per allowed
    task language and per model of the default LLM client one result, whose
    response the client generates. The default client is the parameters
    `available` (its model list) and `generate`; handing each result to the
    default code executor has no effect that is modelled. The result list is
    returned, because it is also the order in which the client is called. */
module BenchExecutor {
  import opened Wrappers
  import opened BenchConfig
  import TaskFilter
  import Service = BenchExecutorService

  /** The `TaskResult` this executor builds. */
  datatype TaskResult = TaskResult(taskSource: TaskSource, task: TaskDefinition, config: ExecConfig,
                                   language: string, llmName: string, prompt: Option<string>, llmResponse: string)

  // ---------------------------------------------------------------- filter

  /** Every configured entry is offered by the task exactly when it is
      enabled; an empty configuration matches every task. */
  predicate AllMatch(entries: seq<ExecParam>, offered: seq<string>)
  {
    forall i :: 0 <= i < |entries| ==> (entries[i].name in offered) == entries[i].enabled
  }

  /** The filter chain: difficulty, area, one shared language, then the
      parameters and the criteria with availability equal to the switch. */
  predicate Kept(config: ExecConfig, task: TaskDefinition)
  {
    && (config.difficulties == {} || task.difficulty in config.difficulties)
    && (config.areas == {} || (task.area.Some? && task.area.value in config.areas))
    && (config.languages == {} || exists l :: l in task.languages && l in config.languages)
    && AllMatch(config.parameters, task.availableParameters)
    && AllMatch(config.criteria, task.availableCriteria)
  }

  /** The `continue` checks of the task loop, the language check scanning
      the task's languages until one is configured. */
  method Keep(config: ExecConfig, task: TaskDefinition) returns (keep: bool)
    ensures keep == Kept(config, task)
  {
    if config.difficulties != {} && task.difficulty !in config.difficulties {
      return false;
    }
    if config.areas != {} && (task.area.None? || task.area.value !in config.areas) {
      return false;
    }
    if config.languages != {} {
      var found := false;
      var i := 0;
      while i < |task.languages|
        invariant 0 <= i <= |task.languages|
        invariant !found
        invariant forall k :: 0 <= k < i ==> task.languages[k] !in config.languages
      {
        if task.languages[i] in config.languages {
          found := true;
          break;
        }
        i := i + 1;
      }
      if !found {
        return false;
      }
    }
    if config.parameters != [] && !AllMatch(config.parameters, task.availableParameters) {
      return false;
    }
    if config.criteria != [] && !AllMatch(config.criteria, task.availableCriteria) {
      return false;
    }
    return true;
  }

  /** Whatever this filter keeps, the service's filter keeps too. */
  lemma StricterThanService(config: ExecConfig, task: TaskDefinition)
    requires Kept(config, task)
    ensures TaskFilter.Passes(config, task)
  {
    forall i | 0 <= i < |config.criteria| && config.criteria[i].enabled
      ensures config.criteria[i].name in task.availableCriteria
    {
      assert (config.criteria[i].name in task.availableCriteria) == config.criteria[i].enabled;
    }
  }

  /** A task offering a parameter the config switches off passes the
      service's filter but not this one. */
  lemma DisabledOfferedParameterSkipped()
    ensures var config := ExecConfig("c.yaml", {}, {}, {}, [ExecParam("p", false)], [], []);
            var task := TaskDefinition("t", "easy", None, ["java"], ["p"], [], TaskDescription(None, None));
            TaskFilter.Passes(config, task) && !Kept(config, task)
  {
    var config := ExecConfig("c.yaml", {}, {}, {}, [ExecParam("p", false)], [], []);
    var task := TaskDefinition("t", "easy", None, ["java"], ["p"], [], TaskDescription(None, None));
    assert (config.parameters[0].name in task.availableParameters) != config.parameters[0].enabled;
  }

  // ------------------------------------------------------------ the results

  /** The model filter: every model when no model is configured. */
  predicate ModelAllowed(config: ExecConfig, llmName: string)
  {
    config.llms == [] || llmName in config.llms
  }

  /** The client's models the config allows, in the client's order. */
  function Models(config: ExecConfig, available: seq<string>): (models: seq<string>)
    ensures forall m :: m in models <==> m in available && ModelAllowed(config, m)
    ensures config.llms == [] ==> models == available
    decreases |available|
  {
    if available == [] then []
    else
      var init := Models(config, available[..|available| - 1]);
      var m := available[|available| - 1];
      assert available == available[..|available| - 1] + [m];
      if ModelAllowed(config, m) then init + [m] else init
  }

  /** The result for one language and one model. */
  function Run(source: TaskSource, task: TaskDefinition, config: ExecConfig, lang: string, llmName: string,
               generate: (string, Option<string>, string) -> string): TaskResult
  {
    var prompt := Service.PromptTemplate(task, lang);
    TaskResult(source, task, config, lang, llmName, prompt, generate(llmName, prompt, lang))
  }

  /** The results of one language over the client's models. */
  function LanguageRuns(source: TaskSource, task: TaskDefinition, config: ExecConfig, lang: string,
                        available: seq<string>, generate: (string, Option<string>, string) -> string): seq<TaskResult>
    decreases |available|
  {
    if available == [] then []
    else
      var init := LanguageRuns(source, task, config, lang, available[..|available| - 1], generate);
      var m := available[|available| - 1];
      if ModelAllowed(config, m) then init + [Run(source, task, config, lang, m, generate)] else init
  }

  /** The results over the given task languages, the allowed ones each
      adding their language's results. */
  function TaskRuns(source: TaskSource, task: TaskDefinition, config: ExecConfig, langs: seq<string>,
                    available: seq<string>, generate: (string, Option<string>, string) -> string): seq<TaskResult>
    decreases |langs|
  {
    if langs == [] then []
    else
      var init := TaskRuns(source, task, config, langs[..|langs| - 1], available, generate);
      var lang := langs[|langs| - 1];
      if Service.LanguageAllowed(config, lang) then init + LanguageRuns(source, task, config, lang, available, generate)
      else init
  }

  /** The results of one task: none for a task the filter skips. */
  function TaskSpec(source: TaskSource, task: TaskDefinition, config: ExecConfig, available: seq<string>,
                    generate: (string, Option<string>, string) -> string): seq<TaskResult>
  {
    if Kept(config, task) then TaskRuns(source, task, config, task.languages, available, generate) else []
  }

  /** The results of the given tasks of one source, in order. */
  function SourceRuns(source: TaskSource, tasks: seq<TaskDefinition>, config: ExecConfig, available: seq<string>,
                      generate: (string, Option<string>, string) -> string): seq<TaskResult>
    decreases |tasks|
  {
    if tasks == [] then []
    else SourceRuns(source, tasks[..|tasks| - 1], config, available, generate)
         + TaskSpec(source, tasks[|tasks| - 1], config, available, generate)
  }

  /** The results over the given sources, in order. */
  function AllRuns(config: ExecConfig, sources: seq<TaskSource>, available: seq<string>,
                   generate: (string, Option<string>, string) -> string): seq<TaskResult>
    decreases |sources|
  {
    if sources == [] then []
    else AllRuns(config, sources[..|sources| - 1], available, generate)
         + SourceRuns(sources[|sources| - 1], sources[|sources| - 1].tasks, config, available, generate)
  }

  // ---------------------------------------------------------------- loops

  /** The model loop of one language. */
  method EvaluateLanguage(source: TaskSource, task: TaskDefinition, config: ExecConfig, lang: string,
                          available: seq<string>, generate: (string, Option<string>, string) -> string)
    returns (runs: seq<TaskResult>)
    ensures runs == LanguageRuns(source, task, config, lang, available, generate)
  {
    var prompt := Service.PromptTemplate(task, lang);
    runs := [];
    var j := 0;
    while j < |available|
      invariant 0 <= j <= |available|
      invariant runs == LanguageRuns(source, task, config, lang, available[..j], generate)
    {
      var llmName := available[j];
      assert available[..j + 1][..j] == available[..j];
      if config.llms != [] && llmName !in config.llms {
        j := j + 1;
        continue;
      }
      var llmResponse := generate(llmName, prompt, lang);
      runs := runs + [TaskResult(source, task, config, lang, llmName, prompt, llmResponse)];
      j := j + 1;
    }
    assert available[..j] == available;
  }

  /** The language loop of one task, after the filter chain. */
  method EvaluateTask(source: TaskSource, task: TaskDefinition, config: ExecConfig, available: seq<string>,
                      generate: (string, Option<string>, string) -> string)
    returns (runs: seq<TaskResult>)
    ensures runs == TaskSpec(source, task, config, available, generate)
  {
    var keep := Keep(config, task);
    if !keep {
      return [];
    }
    runs := [];
    var i := 0;
    while i < |task.languages|
      invariant 0 <= i <= |task.languages|
      invariant runs == TaskRuns(source, task, config, task.languages[..i], available, generate)
    {
      var lang := task.languages[i];
      assert task.languages[..i + 1][..i] == task.languages[..i];
      if config.languages != {} && lang !in config.languages {
        i := i + 1;
        continue;
      }
      var langRuns := EvaluateLanguage(source, task, config, lang, available, generate);
      runs := runs + langRuns;
      i := i + 1;
    }
    assert task.languages[..i] == task.languages;
  }

  /** The task loop of one source. */
  method EvaluateSource(source: TaskSource, config: ExecConfig, available: seq<string>,
                        generate: (string, Option<string>, string) -> string)
    returns (runs: seq<TaskResult>)
    ensures runs == SourceRuns(source, source.tasks, config, available, generate)
  {
    runs := [];
    var t := 0;
    while t < |source.tasks|
      invariant 0 <= t <= |source.tasks|
      invariant runs == SourceRuns(source, source.tasks[..t], config, available, generate)
    {
      assert source.tasks[..t + 1][..t] == source.tasks[..t];
      var taskRuns := EvaluateTask(source, source.tasks[t], config, available, generate);
      runs := runs + taskRuns;
      t := t + 1;
    }
    assert source.tasks[..t] == source.tasks;
  }

  /** `evaluate`: the source loop around the task loop. */
  method Evaluate(config: ExecConfig, taskSources: seq<TaskSource>, available: seq<string>,
                  generate: (string, Option<string>, string) -> string)
    returns (results: seq<TaskResult>)
    ensures results == AllRuns(config, taskSources, available, generate)
  {
    results := [];
    var s := 0;
    while s < |taskSources|
      invariant 0 <= s <= |taskSources|
      invariant results == AllRuns(config, taskSources[..s], available, generate)
    {
      assert taskSources[..s + 1][..s] == taskSources[..s];
      var sourceRuns := EvaluateSource(taskSources[s], config, available, generate);
      results := results + sourceRuns;
      s := s + 1;
    }
    assert taskSources[..s] == taskSources;
  }

  // ----------------------------------------------------------- properties

  /** The (language, model) of each result. */
  function RunPairs(runs: seq<TaskResult>): seq<(string, string)>
    decreases |runs|
  {
    if runs == [] then [] else RunPairs(runs[..|runs| - 1]) + [(runs[|runs| - 1].language, runs[|runs| - 1].llmName)]
  }

  lemma {:induction false} RunPairsAppend(a: seq<TaskResult>, b: seq<TaskResult>)
    ensures RunPairs(a + b) == RunPairs(a) + RunPairs(b)
    decreases |b|
  {
    if b != [] {
      assert (a + b)[..|a + b| - 1] == a + b[..|b| - 1];
      RunPairsAppend(a, b[..|b| - 1]);
    } else {
      assert a + b == a;
    }
  }

  /** One language gives one result per allowed model, in the client's order. */
  lemma {:induction false} LanguageRunsPairs(source: TaskSource, task: TaskDefinition, config: ExecConfig, lang: string,
                                             available: seq<string>, generate: (string, Option<string>, string) -> string)
    ensures RunPairs(LanguageRuns(source, task, config, lang, available, generate)) == Service.WithLanguage(lang, Models(config, available))
    decreases |available|
  {
    if available != [] {
      var init := available[..|available| - 1];
      LanguageRunsPairs(source, task, config, lang, init, generate);
      var m := available[|available| - 1];
      if ModelAllowed(config, m) {
        var runs := LanguageRuns(source, task, config, lang, init, generate);
        RunPairsAppend(runs, [Run(source, task, config, lang, m, generate)]);
        assert RunPairs([Run(source, task, config, lang, m, generate)]) == [(lang, m)];
      }
    }
  }

  /** A kept task gives exactly one result per allowed language and allowed
      model, languages outermost, and so their product in number. */
  lemma {:induction false} TaskRunsPairs(source: TaskSource, task: TaskDefinition, config: ExecConfig, langs: seq<string>,
                                         available: seq<string>, generate: (string, Option<string>, string) -> string)
    ensures RunPairs(TaskRuns(source, task, config, langs, available, generate)) == Service.Pairs(Service.Allowed(config, langs), Models(config, available))
    ensures |TaskRuns(source, task, config, langs, available, generate)| == |Service.Allowed(config, langs)| * |Models(config, available)|
    decreases |langs|
  {
    if langs != [] {
      var init := langs[..|langs| - 1];
      var lang := langs[|langs| - 1];
      TaskRunsPairs(source, task, config, init, available, generate);
      var allowed := Service.Allowed(config, init);
      var models := Models(config, available);
      if Service.LanguageAllowed(config, lang) {
        var runs := TaskRuns(source, task, config, init, available, generate);
        var langRuns := LanguageRuns(source, task, config, lang, available, generate);
        RunPairsAppend(runs, langRuns);
        LanguageRunsPairs(source, task, config, lang, available, generate);
        assert (allowed + [lang])[..|allowed + [lang]| - 1] == allowed;
        assert |langRuns| == |RunPairs(langRuns)| by { RunPairsLength(langRuns); }
        Service.MulStep(|allowed|, |models|);
      }
    }
  }

  lemma {:induction false} RunPairsLength(runs: seq<TaskResult>)
    ensures |RunPairs(runs)| == |runs|
    decreases |runs|
  {
    if runs != [] {
      RunPairsLength(runs[..|runs| - 1]);
    }
  }

  /** Every result of one language is for that language and an allowed model
      of the client, with the prompt chosen for the language and the response
      the client generates for it. */
  lemma {:induction false} LanguageRunsContents(source: TaskSource, task: TaskDefinition, config: ExecConfig, lang: string,
                                                available: seq<string>, generate: (string, Option<string>, string) -> string)
    ensures forall r :: r in LanguageRuns(source, task, config, lang, available, generate) ==>
              r.taskSource == source && r.task == task && r.config == config && r.language == lang
              && r.llmName in available && ModelAllowed(config, r.llmName)
              && r.prompt == Service.PromptTemplate(task, lang) && r.llmResponse == generate(r.llmName, r.prompt, lang)
    decreases |available|
  {
    if available != [] {
      LanguageRunsContents(source, task, config, lang, available[..|available| - 1], generate);
      assert available == available[..|available| - 1] + [available[|available| - 1]];
    }
  }

  /** Every result of the run is for a task of one of the sources that the
      filter keeps, in one of its allowed languages. */
  lemma {:induction false} EveryResultKept(config: ExecConfig, sources: seq<TaskSource>, available: seq<string>,
                                           generate: (string, Option<string>, string) -> string)
    ensures forall r :: r in AllRuns(config, sources, available, generate) ==>
              r.taskSource in sources && r.task in r.taskSource.tasks && Kept(config, r.task)
              && r.language in r.task.languages && Service.LanguageAllowed(config, r.language)
    decreases |sources|
  {
    if sources != [] {
      var init := sources[..|sources| - 1];
      var last := sources[|sources| - 1];
      EveryResultKept(config, init, available, generate);
      SourceRunsKept(last, last.tasks, config, available, generate);
      assert sources == init + [last];
    }
  }

  lemma {:induction false} SourceRunsKept(source: TaskSource, tasks: seq<TaskDefinition>, config: ExecConfig, available: seq<string>,
                                          generate: (string, Option<string>, string) -> string)
    ensures forall r :: r in SourceRuns(source, tasks, config, available, generate) ==>
              r.taskSource == source && r.task in tasks && Kept(config, r.task)
              && r.language in r.task.languages && Service.LanguageAllowed(config, r.language)
    decreases |tasks|
  {
    if tasks != [] {
      var init := tasks[..|tasks| - 1];
      var task := tasks[|tasks| - 1];
      SourceRunsKept(source, init, config, available, generate);
      if Kept(config, task) {
        TaskRunsLanguages(source, task, config, task.languages, available, generate);
      }
      assert tasks == init + [task];
    }
  }

  lemma {:induction false} TaskRunsLanguages(source: TaskSource, task: TaskDefinition, config: ExecConfig, langs: seq<string>,
                                             available: seq<string>, generate: (string, Option<string>, string) -> string)
    ensures forall r :: r in TaskRuns(source, task, config, langs, available, generate) ==>
              r.taskSource == source && r.task == task && r.language in langs && Service.LanguageAllowed(config, r.language)
    decreases |langs|
  {
    if langs != [] {
      var init := langs[..|langs| - 1];
      var lang := langs[|langs| - 1];
      TaskRunsLanguages(source, task, config, init, available, generate);
      LanguageRunsContents(source, task, config, lang, available, generate);
      assert langs == init + [lang];
    }
  }
}
