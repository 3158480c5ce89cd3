/** The executor service: per task the filter, then per allowed language a
    prompt and per configured model an attempt with its evaluations; per task
    source one progress counter per task; per run the tracker's status from
    creation to removal. The LLM call, the evaluators' `matches` and
    `execute`, and FreeMarker's rendering are the functions in `Env`. */
module BenchExecutorService {
  import opened Wrappers
  import opened BenchConfig
  import opened TaskFilter
  import opened LlmClientRegistry
  import opened EvaluatorsRegistry
  import opened ProgressTracker

  const NullPointer := "NullPointerException"
  const DuplicateKey := "IllegalStateException: Duplicate key"
  const EvaluationFailed := "Failed to evaluate benchmark"

  /** One evaluation of a response; only `error` matters for progress. */
  datatype EvaluationResult = EvaluationResult(criteria: string, score: real, error: Option<string>)

  /** One (language, model) attempt: `TaskResults.TaskResult`. */
  datatype Attempt = Attempt(language: string, providerName: string, modelName: string, llmResponse: string,
                             evaluationResult: seq<EvaluationResult>)

  datatype TaskResults = TaskResults(taskSourcePath: string, taskSourceName: string, taskDefinitionName: string,
                                     skipReasons: seq<SkipReason>, taskResults: seq<Attempt>)

  /** The variables handed to the prompt template; `None` is a null value. */
  datatype TemplateModel = TemplateModel(commonPrompt: Option<string>, language: string, publicTests: Option<string>,
                                         hiddenTests: Option<string>, parameters: map<string, Option<bool>>)

  /** What the service calls but does not define. */
  datatype Env = Env(
    clients: seq<Client>,
    evaluators: seq<Evaluator>,
    matches: (Evaluator, ExecConfig, TaskDefinition) -> bool,
    execute: (Evaluator, ExecConfig, TaskDefinition, string) -> seq<EvaluationResult>,
    generate: (ExecConfig, string, string, string) -> string,
    render: (string, TemplateModel) -> string)

  // ---------------------------------------------------------------- prompt

  /** `stringifyTests`: the test codes joined with newlines. */
  function JoinLines(tests: seq<string>): (r: string)
    ensures tests == [] ==> r == ""
    ensures |tests| == 1 ==> r == tests[0]
    decreases |tests|
  {
    if |tests| <= 1 then (if tests == [] then "" else tests[0])
    else JoinLines(tests[..|tests| - 1]) + "\n" + tests[|tests| - 1]
  }

  /** The joined text holds every test and one separator between each two. */
  lemma {:induction false} JoinLinesLength(tests: seq<string>)
    requires tests != []
    ensures |JoinLines(tests)| == SumLengths(tests) + |tests| - 1
    decreases |tests|
  {
    if |tests| > 1 {
      JoinLinesLength(tests[..|tests| - 1]);
    }
  }

  function SumLengths(tests: seq<string>): nat
    decreases |tests|
  {
    if tests == [] then 0 else SumLengths(tests[..|tests| - 1]) + |tests[|tests| - 1]|
  }

  /** The language-specific part of the task for `lang`, if any. */
  function LanguageEntry(task: TaskDefinition, lang: string): (e: Option<LangTask>)
    ensures e.Some? <==> task.task.languagesSpecific.Some? && lang in task.task.languagesSpecific.value
  {
    var specific := task.task.languagesSpecific;
    if specific.Some? && lang in specific.value then Some(specific.value[lang]) else None
  }

  /** The template text: the language-specific description when there is an
      entry, else the common prompt; `None` is the null that fails to render. */
  function PromptTemplate(task: TaskDefinition, lang: string): (t: Option<string>)
    ensures LanguageEntry(task, lang).Some? ==> t == LanguageEntry(task, lang).value.description
    ensures LanguageEntry(task, lang).None? ==> t == task.task.commonPrompt
  {
    var entry := LanguageEntry(task, lang);
    if entry.Some? then entry.value.description else task.task.commonPrompt
  }

  /** The flag `getExecParam` gives each available parameter, in order. */
  function Flags(config: ExecConfig, available: seq<string>): (flags: seq<Option<bool>>)
    ensures |flags| == |available|
    ensures forall i :: 0 <= i < |available| ==> flags[i] == GetExecParam(config, available[i])
  {
    seq(|available|, i requires 0 <= i < |available| => GetExecParam(config, available[i]))
  }

  /** `Collectors.toMap` over the parameters and their flags, in list order:
      a null flag throws, and so does a key met a second time. */
  function CollectAsWritten(available: seq<string>, flags: seq<Option<bool>>): (r: Result<map<string, bool>, string>)
    requires |flags| == |available|
    ensures r.Success? ==> forall p :: p in r.value <==> p in available
    ensures r.Success? ==> forall i :: 0 <= i < |available| ==> flags[i] == Some(r.value[available[i]])
    decreases |available|
  {
    if available == [] then Success(map[])
    else
      var n := |available| - 1;
      var r := CollectAsWritten(available[..n], flags[..n]);
      if r.Failure? then r
      else if flags[n].None? then Failure(NullPointer)
      else if available[n] in r.value then Failure(DuplicateKey)
      else
        assert available == available[..n] + [available[n]];
        Success(r.value[available[n] := flags[n].value])
  }

  /** The `parameters` map as written. */
  function ParametersAsWritten(config: ExecConfig, available: seq<string>): (r: Result<map<string, bool>, string>)
    ensures r.Success? ==> forall p :: p in r.value <==> p in available
    ensures r.Success? ==> forall i :: 0 <= i < |available| ==> GetExecParam(config, available[i]) == Some(r.value[available[i]])
  {
    CollectAsWritten(available, Flags(config, available))
  }

  /** A parameter that the config does not set makes the collection throw,
      wherever it is in the list. */
  lemma {:induction false} UnsetParameterThrows(available: seq<string>, flags: seq<Option<bool>>, i: nat)
    requires |flags| == |available| && i < |available| && flags[i].None?
    ensures CollectAsWritten(available, flags).Failure?
    decreases |available|
  {
    var n := |available| - 1;
    if i < n {
      assert flags[..n][i] == flags[i];
      UnsetParameterThrows(available[..n], flags[..n], i);
    }
  }

  /** So does a parameter listed twice. */
  lemma {:induction false} RepeatedParameterThrows(available: seq<string>, flags: seq<Option<bool>>, i: nat, j: nat)
    requires |flags| == |available| && i < j < |available| && available[i] == available[j]
    ensures CollectAsWritten(available, flags).Failure?
    decreases |available|
  {
    var n := |available| - 1;
    if j < n {
      assert available[..n][i] == available[i] && available[..n][j] == available[j];
      RepeatedParameterThrows(available[..n], flags[..n], i, j);
    } else if CollectAsWritten(available[..n], flags[..n]).Success? {
      assert available[..n][i] == available[i];
    }
  }

  /** The template model as written: `getOrDefault` on an absent
      language-specific map, a parameter the config does not set, and any of
      the null values `Map.of` rejects all throw. */
  function TemplateModelAsWritten(config: ExecConfig, task: TaskDefinition, lang: string): (r: Result<TemplateModel, string>)
    ensures r.Success? ==>
              && LanguageEntry(task, lang).Some?
              && task.task.commonPrompt.Some?
              && ParametersAsWritten(config, task.availableParameters).Success?
  {
    if task.task.languagesSpecific.None? then Failure(NullPointer)
    else
      var parameters := ParametersAsWritten(config, task.availableParameters);
      var entry := LanguageEntry(task, lang);
      if parameters.Failure? then Failure(parameters.error)
      else if task.task.commonPrompt.None? || entry.None? then Failure(NullPointer)
      else
        Success(TemplateModel(task.task.commonPrompt, lang, Some(JoinLines(entry.value.publicTests)),
                              Some(JoinLines(entry.value.hiddenTests)), ParameterFlags(config, task.availableParameters)))
  }

  /** A task whose language has no language-specific entry: its null guards
      on that entry are never reached, because building the model throws. */
  lemma MissingEntryThrows()
    ensures var task := TaskDefinition("t", "easy", None, ["java"], [], [], TaskDescription(Some("Solve it"), Some(map[])));
            && LanguageEntry(task, "java").None?
            && TemplateModelAsWritten(ExecConfig("exec.yaml", {}, {}, {}, [], [], ["m"]), task, "java") == Failure(NullPointer)
  {
  }

  /** A task offering a parameter the config does not set throws as well. */
  lemma UnconfiguredParameterThrows()
    ensures var task := TaskDefinition("t", "easy", None, ["java"], ["use-llm-judge"], [],
                                       TaskDescription(Some("Solve it"), Some(map["java" := LangTask(Some("In Java"), [], [])])));
            && TemplateModelAsWritten(ExecConfig("exec.yaml", {}, {}, {}, [], [], ["m"]), task, "java") == Failure(NullPointer)
  {
    var config := ExecConfig("exec.yaml", {}, {}, {}, [], [], ["m"]);
    assert GetExecParam(config, "use-llm-judge") == None;
    UnsetParameterThrows(["use-llm-judge"], Flags(config, ["use-llm-judge"]), 0);
  }

  /** The flag of each available parameter, null when the config does not set it. */
  function ParameterFlags(config: ExecConfig, available: seq<string>): (m: map<string, Option<bool>>)
    ensures m.Keys == set p | p in available
    ensures forall p :: p in m ==> m[p] == GetExecParam(config, p)
  {
    map p | p in available :: GetExecParam(config, p)
  }

  /** The template model the null guards describe: the common prompt, the
      language, the language's tests when it has an entry and null otherwise,
      and a possibly null flag per available parameter. */
  function TemplateModelOf(config: ExecConfig, task: TaskDefinition, lang: string): (m: TemplateModel)
    ensures m.commonPrompt == task.task.commonPrompt && m.language == lang
    ensures m.publicTests.Some? <==> LanguageEntry(task, lang).Some?
    ensures m.hiddenTests.Some? <==> LanguageEntry(task, lang).Some?
    ensures LanguageEntry(task, lang).Some? ==>
              m.publicTests.value == JoinLines(LanguageEntry(task, lang).value.publicTests)
              && m.hiddenTests.value == JoinLines(LanguageEntry(task, lang).value.hiddenTests)
    ensures m.parameters.Keys == set p | p in task.availableParameters
    ensures forall p :: p in m.parameters ==> m.parameters[p] == GetExecParam(config, p)
  {
    var entry := LanguageEntry(task, lang);
    TemplateModel(task.task.commonPrompt, lang,
                  if entry.Some? then Some(JoinLines(entry.value.publicTests)) else None,
                  if entry.Some? then Some(JoinLines(entry.value.hiddenTests)) else None,
                  ParameterFlags(config, task.availableParameters))
  }

  /** Wherever the written code does build a model, it is this one. */
  lemma TemplateModelAgrees(config: ExecConfig, task: TaskDefinition, lang: string)
    requires TemplateModelAsWritten(config, task, lang).Success?
    ensures TemplateModelAsWritten(config, task, lang).value == TemplateModelOf(config, task, lang)
  {
  }

  /** Whether preparing the prompt for `lang` throws: building the model
      throws, or the model builds and the template text is null (the
      `StringReader` of the template). */
  predicate PromptThrows(config: ExecConfig, task: TaskDefinition, lang: string)
  {
    TemplateModelAsWritten(config, task, lang).Failure? || PromptTemplate(task, lang).None?
  }

  /** The prompt as written: the model is built first and its exception is
      the prompt's; then a null template throws; otherwise the template is
      rendered with the model and the result rendered once more. */
  function Prompt(env: Env, config: ExecConfig, task: TaskDefinition, lang: string): (r: Result<string, string>)
    ensures r.Failure? <==> PromptThrows(config, task, lang)
    ensures TemplateModelAsWritten(config, task, lang).Failure? ==> r == Failure(TemplateModelAsWritten(config, task, lang).error)
    ensures TemplateModelAsWritten(config, task, lang).Success? && PromptTemplate(task, lang).None? ==> r == Failure(NullPointer)
    ensures r.Success? ==>
              var model := TemplateModelOf(config, task, lang);
              r.value == env.render(env.render(PromptTemplate(task, lang).value, model), model)
  {
    var model := TemplateModelAsWritten(config, task, lang);
    if model.Failure? then Failure(model.error)
    else
      var template := PromptTemplate(task, lang);
      if template.None? then Failure(NullPointer)
      else
        TemplateModelAgrees(config, task, lang);
        Success(env.render(env.render(template.value, model.value), model.value))
  }

  /** The prompt the null guards describe: rendered with `TemplateModelOf`,
      so only a null template throws. */
  function PromptCorrected(env: Env, config: ExecConfig, task: TaskDefinition, lang: string): (r: Result<string, string>)
    ensures r.Failure? <==> PromptTemplate(task, lang).None?
    ensures r.Success? ==>
              var model := TemplateModelOf(config, task, lang);
              r.value == env.render(env.render(PromptTemplate(task, lang).value, model), model)
  {
    var template := PromptTemplate(task, lang);
    var model := TemplateModelOf(config, task, lang);
    if template.None? then Failure(NullPointer) else Success(env.render(env.render(template.value, model), model))
  }

  /** Where the written code builds a model the two prompts are the same;
      elsewhere the written one throws and the corrected one throws only
      for a null template. */
  lemma PromptAgrees(env: Env, config: ExecConfig, task: TaskDefinition, lang: string)
    ensures TemplateModelAsWritten(config, task, lang).Success? ==> Prompt(env, config, task, lang) == PromptCorrected(env, config, task, lang)
    ensures TemplateModelAsWritten(config, task, lang).Failure? ==>
              Prompt(env, config, task, lang).Failure? && (PromptCorrected(env, config, task, lang).Success? <==> PromptTemplate(task, lang).Some?)
  {
    if TemplateModelAsWritten(config, task, lang).Success? {
      TemplateModelAgrees(config, task, lang);
    }
  }

  // ---------------------------------------------------------- one attempt

  /** The evaluations of a response by the given evaluators, in order. */
  function Evaluations(env: Env, config: ExecConfig, task: TaskDefinition, evaluators: seq<Evaluator>, response: string): seq<EvaluationResult>
    decreases |evaluators|
  {
    if evaluators == [] then []
    else Evaluations(env, config, task, evaluators[..|evaluators| - 1], response)
         + env.execute(evaluators[|evaluators| - 1], config, task, response)
  }

  /** The evaluations of a response by every matching evaluator. */
  method RunEvaluators(env: Env, config: ExecConfig, task: TaskDefinition, response: string) returns (results: seq<EvaluationResult>)
    ensures results == Evaluations(env, config, task, GetEvaluators(env.evaluators, env.matches, config, task), response)
  {
    var evaluators := GetEvaluators(env.evaluators, env.matches, config, task);
    results := [];
    var k := 0;
    while k < |evaluators|
      invariant 0 <= k <= |evaluators|
      invariant results == Evaluations(env, config, task, evaluators[..k], response)
    {
      assert evaluators[..k + 1][..k] == evaluators[..k];
      results := results + env.execute(evaluators[k], config, task, response);
      k := k + 1;
    }
    assert evaluators[..k] == evaluators;
  }

  function MakeAttempt(env: Env, config: ExecConfig, task: TaskDefinition, lang: string, prompt: string,
                       modelName: string, client: Client): Attempt
  {
    var response := env.generate(config, modelName, prompt, lang);
    Attempt(lang, client.className, modelName, response,
            Evaluations(env, config, task, GetEvaluators(env.evaluators, env.matches, config, task), response))
  }

  /** The skip reasons and attempts of one language. */
  datatype Outcome = Outcome(reasons: seq<SkipReason>, attempts: seq<Attempt>)

  /** One language over the given models: an unserved model adds its
      registry message as a reason, a served one an attempt. */
  function LanguageOutcome(env: Env, config: ExecConfig, task: TaskDefinition, lang: string, prompt: string,
                           models: seq<string>): Outcome
    decreases |models|
  {
    if models == [] then Outcome([], [])
    else
      var o := LanguageOutcome(env, config, task, lang, prompt, models[..|models| - 1]);
      var modelName := models[|models| - 1];
      var client := GetForModel(env.clients, modelName);
      if client.Failure? then Outcome(o.reasons + [ProviderMissing(client.error)], o.attempts)
      else Outcome(o.reasons, o.attempts + [MakeAttempt(env, config, task, lang, prompt, modelName, client.value)])
  }

  /** The inner loop of `evaluateTask` for one language. */
  method EvaluateLanguage(env: Env, config: ExecConfig, task: TaskDefinition, lang: string, prompt: string)
    returns (o: Outcome)
    ensures o == LanguageOutcome(env, config, task, lang, prompt, config.llms)
  {
    var reasons: seq<SkipReason> := [];
    var attempts: seq<Attempt> := [];
    var j := 0;
    while j < |config.llms|
      invariant 0 <= j <= |config.llms|
      invariant Outcome(reasons, attempts) == LanguageOutcome(env, config, task, lang, prompt, config.llms[..j])
    {
      var modelName := config.llms[j];
      assert config.llms[..j + 1][..j] == config.llms[..j];
      var client := GetForModel(env.clients, modelName);
      if client.Failure? {
        reasons := reasons + [ProviderMissing(client.error)];
      } else {
        var response := env.generate(config, modelName, prompt, lang);
        var evaluations := RunEvaluators(env, config, task, response);
        attempts := attempts + [Attempt(lang, client.value.className, modelName, response, evaluations)];
      }
      j := j + 1;
    }
    assert config.llms[..j] == config.llms;
    o := Outcome(reasons, attempts);
  }

  // ------------------------------------------------------------- one task

  /** Whether the language loop visits `lang`. */
  predicate LanguageAllowed(config: ExecConfig, lang: string)
  {
    config.languages == {} || lang in config.languages
  }

  /** The languages over the given task languages: the allowed ones each add
      their outcome, and the first allowed one whose prompt throws ends the
      task with that exception. */
  function TaskOutcome(env: Env, config: ExecConfig, task: TaskDefinition, langs: seq<string>): Result<Outcome, string>
    decreases |langs|
  {
    if langs == [] then Success(Outcome([], []))
    else
      var o := TaskOutcome(env, config, task, langs[..|langs| - 1]);
      var lang := langs[|langs| - 1];
      if o.Failure? || !LanguageAllowed(config, lang) then o
      else
        var prompt := Prompt(env, config, task, lang);
        if prompt.Failure? then Failure(prompt.error)
        else
          var l := LanguageOutcome(env, config, task, lang, prompt.value, config.llms);
          Success(Outcome(o.value.reasons + l.reasons, o.value.attempts + l.attempts))
  }

  /** `evaluateTask`: a filtered task with its reasons and no attempt;
      otherwise the languages' reasons and attempts. */
  function EvaluateTaskSpec(env: Env, source: TaskSource, task: TaskDefinition, config: ExecConfig): Result<TaskResults, string>
  {
    var skip := SkipReasons(config, task);
    if skip != [] then Success(TaskResults(source.path, source.name, task.name, skip, []))
    else
      var o := TaskOutcome(env, config, task, task.languages);
      if o.Failure? then Failure(o.error)
      else Success(TaskResults(source.path, source.name, task.name, o.value.reasons, o.value.attempts))
  }

  method EvaluateTask(env: Env, source: TaskSource, task: TaskDefinition, config: ExecConfig) returns (r: Result<TaskResults, string>)
    ensures r == EvaluateTaskSpec(env, source, task, config)
  {
    var skipReasons := Filter(config, task);
    if skipReasons != [] {
      return Success(TaskResults(source.path, source.name, task.name, skipReasons, []));
    }
    var reasons: seq<SkipReason> := [];
    var attempts: seq<Attempt> := [];
    var i := 0;
    while i < |task.languages|
      invariant 0 <= i <= |task.languages|
      invariant TaskOutcome(env, config, task, task.languages[..i]) == Success(Outcome(reasons, attempts))
    {
      var lang := task.languages[i];
      TaskOutcomeSnoc(env, config, task, task.languages, i);
      if !LanguageAllowed(config, lang) {
        i := i + 1;
        continue;
      }
      var prompt := Prompt(env, config, task, lang);
      if prompt.Failure? {
        assert TaskOutcome(env, config, task, task.languages[..i + 1]) == Failure(prompt.error);
        TaskOutcomeFailureSticks(env, config, task, task.languages, i + 1);
        assert task.languages[..|task.languages|] == task.languages;
        return Failure(prompt.error);
      }
      var o := EvaluateLanguage(env, config, task, lang, prompt.value);
      reasons := reasons + o.reasons;
      attempts := attempts + o.attempts;
      i := i + 1;
    }
    assert task.languages[..i] == task.languages;
    return Success(TaskResults(source.path, source.name, task.name, reasons, attempts));
  }

  lemma TaskOutcomeSnoc(env: Env, config: ExecConfig, task: TaskDefinition, langs: seq<string>, i: nat)
    requires i < |langs|
    ensures var o := TaskOutcome(env, config, task, langs[..i]);
            TaskOutcome(env, config, task, langs[..i + 1])
            == if o.Failure? || !LanguageAllowed(config, langs[i]) then o
               else if Prompt(env, config, task, langs[i]).Failure? then Failure(Prompt(env, config, task, langs[i]).error)
               else
                 var l := LanguageOutcome(env, config, task, langs[i], Prompt(env, config, task, langs[i]).value, config.llms);
                 Success(Outcome(o.value.reasons + l.reasons, o.value.attempts + l.attempts))
  {
    assert langs[..i + 1][..i] == langs[..i];
  }

  /** Once a prefix of the languages throws, every longer prefix throws the same. */
  lemma {:induction false} TaskOutcomeFailureSticks(env: Env, config: ExecConfig, task: TaskDefinition, langs: seq<string>, i: nat)
    requires i <= |langs| && TaskOutcome(env, config, task, langs[..i]).Failure?
    ensures TaskOutcome(env, config, task, langs) == TaskOutcome(env, config, task, langs[..i])
    decreases |langs| - i
  {
    if i < |langs| {
      assert langs[..i + 1][..i] == langs[..i];
      TaskOutcomeFailureSticks(env, config, task, langs, i + 1);
    } else {
      assert langs[..i] == langs;
    }
  }

  // ------------------------------------------------- properties of a task

  /** The models the registry serves, in order. */
  function Served(clients: seq<Client>, models: seq<string>): seq<string>
    decreases |models|
  {
    if models == [] then []
    else
      var init := Served(clients, models[..|models| - 1]);
      if GetForModel(clients, models[|models| - 1]).Success? then init + [models[|models| - 1]] else init
  }

  /** The registry messages of the models it does not serve, in order. */
  function Unserved(clients: seq<Client>, models: seq<string>): seq<SkipReason>
    decreases |models|
  {
    if models == [] then []
    else
      var init := Unserved(clients, models[..|models| - 1]);
      var m := models[|models| - 1];
      if GetForModel(clients, m).Failure? then init + [ProviderMissing(ProviderNotFound(m))] else init
  }

  /** The allowed task languages, in order. */
  function Allowed(config: ExecConfig, langs: seq<string>): seq<string>
    decreases |langs|
  {
    if langs == [] then []
    else
      var init := Allowed(config, langs[..|langs| - 1]);
      if LanguageAllowed(config, langs[|langs| - 1]) then init + [langs[|langs| - 1]] else init
  }

  /** The (language, model) of each attempt. */
  function PairsOf(attempts: seq<Attempt>): seq<(string, string)>
    decreases |attempts|
  {
    if attempts == [] then []
    else PairsOf(attempts[..|attempts| - 1]) + [(attempts[|attempts| - 1].language, attempts[|attempts| - 1].modelName)]
  }

  lemma {:induction false} PairsOfAppend(a: seq<Attempt>, b: seq<Attempt>)
    ensures PairsOf(a + b) == PairsOf(a) + PairsOf(b)
    decreases |b|
  {
    if b != [] {
      assert (a + b)[..|a + b| - 1] == a + b[..|b| - 1];
      PairsOfAppend(a, b[..|b| - 1]);
    } else {
      assert a + b == a;
    }
  }

  /** Every model paired with `lang`, in order. */
  function WithLanguage(lang: string, models: seq<string>): (r: seq<(string, string)>)
    ensures |r| == |models|
    ensures forall i :: 0 <= i < |models| ==> r[i] == (lang, models[i])
  {
    seq(|models|, i requires 0 <= i < |models| => (lang, models[i]))
  }

  /** Each language with each model, languages outermost: the nesting of the
      two loops. */
  function Pairs(langs: seq<string>, models: seq<string>): seq<(string, string)>
    decreases |langs|
  {
    if langs == [] then [] else Pairs(langs[..|langs| - 1], models) + WithLanguage(langs[|langs| - 1], models)
  }

  lemma {:induction false} PairsLength(langs: seq<string>, models: seq<string>)
    ensures |Pairs(langs, models)| == |langs| * |models|
    decreases |langs|
  {
    if langs != [] {
      PairsLength(langs[..|langs| - 1], models);
      MulStep(|langs| - 1, |models|);
    }
  }

  lemma MulStep(k: nat, u: nat)
    ensures (k + 1) * u == k * u + u
  {
  }

  lemma MulPositive(a: nat, u: nat)
    requires a > 0 && u > 0
    ensures a * u > 0
  {
  }

  /** One language gives one attempt per served model, in the models' order. */
  lemma {:induction false} LanguageOutcomeAttempts(env: Env, config: ExecConfig, task: TaskDefinition, lang: string, prompt: string,
                                                   models: seq<string>)
    ensures PairsOf(LanguageOutcome(env, config, task, lang, prompt, models).attempts) == WithLanguage(lang, Served(env.clients, models))
    decreases |models|
  {
    if models != [] {
      var init := models[..|models| - 1];
      LanguageOutcomeAttempts(env, config, task, lang, prompt, init);
      var o := LanguageOutcome(env, config, task, lang, prompt, init);
      var m := models[|models| - 1];
      if GetForModel(env.clients, m).Success? {
        PairsOfAppend(o.attempts, [MakeAttempt(env, config, task, lang, prompt, m, GetForModel(env.clients, m).value)]);
        assert WithLanguage(lang, Served(env.clients, init) + [m]) == WithLanguage(lang, Served(env.clients, init)) + [(lang, m)];
      }
    }
  }

  /** One language gives one reason per unserved model, in the models' order. */
  lemma {:induction false} LanguageOutcomeReasons(env: Env, config: ExecConfig, task: TaskDefinition, lang: string, prompt: string,
                                                  models: seq<string>)
    ensures LanguageOutcome(env, config, task, lang, prompt, models).reasons == Unserved(env.clients, models)
    decreases |models|
  {
    if models != [] {
      LanguageOutcomeReasons(env, config, task, lang, prompt, models[..|models| - 1]);
    }
  }

  /** A served model's attempt in one language is `MakeAttempt` of the
      client the registry picks. */
  lemma {:induction false} LanguageAttemptsServed(env: Env, config: ExecConfig, task: TaskDefinition, lang: string, prompt: string,
                                                  models: seq<string>)
    ensures forall a :: a in LanguageOutcome(env, config, task, lang, prompt, models).attempts ==>
              a.language == lang && GetForModel(env.clients, a.modelName).Success?
              && a == MakeAttempt(env, config, task, lang, prompt, a.modelName, GetForModel(env.clients, a.modelName).value)
    decreases |models|
  {
    if models != [] {
      LanguageAttemptsServed(env, config, task, lang, prompt, models[..|models| - 1]);
    }
  }

  /** Over the task languages the run throws exactly when the prompt of an
      allowed language throws. */
  lemma {:induction false} TaskOutcomeFailsAt(env: Env, config: ExecConfig, task: TaskDefinition, langs: seq<string>)
    ensures TaskOutcome(env, config, task, langs).Failure? <==>
              exists i :: 0 <= i < |langs| && LanguageAllowed(config, langs[i]) && Prompt(env, config, task, langs[i]).Failure?
    decreases |langs|
  {
    if langs != [] {
      var init := langs[..|langs| - 1];
      TaskOutcomeFailsAt(env, config, task, init);
      assert forall i :: 0 <= i < |init| ==> init[i] == langs[i];
    }
  }

  lemma TaskOutcomeFails(env: Env, config: ExecConfig, task: TaskDefinition, langs: seq<string>)
    ensures TaskOutcome(env, config, task, langs).Failure? <==>
              exists i :: 0 <= i < |langs| && LanguageAllowed(config, langs[i]) && PromptThrows(config, task, langs[i])
  {
    TaskOutcomeFailsAt(env, config, task, langs);
    forall i | 0 <= i < |langs|
      ensures Prompt(env, config, task, langs[i]).Failure? <==> PromptThrows(config, task, langs[i])
    {
    }
  }

  /** Over the task languages: the run throws exactly when preparing the
      prompt of an allowed language throws; otherwise the attempts enumerate
      each allowed language with each served model, languages outermost, and
      the reasons repeat the unserved models' messages once per allowed
      language. */
  lemma {:induction false} TaskOutcomeShape(env: Env, config: ExecConfig, task: TaskDefinition, langs: seq<string>)
    ensures TaskOutcome(env, config, task, langs).Failure? <==>
              exists i :: 0 <= i < |langs| && LanguageAllowed(config, langs[i]) && PromptThrows(config, task, langs[i])
    ensures TaskOutcome(env, config, task, langs).Success? ==>
              var o := TaskOutcome(env, config, task, langs).value;
              PairsOf(o.attempts) == Pairs(Allowed(config, langs), Served(env.clients, config.llms))
              && |o.reasons| == |Allowed(config, langs)| * |Unserved(env.clients, config.llms)|
              && forall r :: r in o.reasons ==> r in Unserved(env.clients, config.llms)
    decreases |langs|
  {
    TaskOutcomeFails(env, config, task, langs);
    if langs != [] {
      var init := langs[..|langs| - 1];
      var lang := langs[|langs| - 1];
      TaskOutcomeShape(env, config, task, init);
      var o := TaskOutcome(env, config, task, init);
      if o.Success? && LanguageAllowed(config, lang) && Prompt(env, config, task, lang).Success? {
        var prompt := Prompt(env, config, task, lang).value;
        var l := LanguageOutcome(env, config, task, lang, prompt, config.llms);
        LanguageOutcomeAttempts(env, config, task, lang, prompt, config.llms);
        LanguageOutcomeReasons(env, config, task, lang, prompt, config.llms);
        PairsOfAppend(o.value.attempts, l.attempts);
        MulStep(|Allowed(config, init)|, |Unserved(env.clients, config.llms)|);
      }
    }
  }

  /** A filtered task has its filter reasons and no attempt. */
  lemma FilteredTaskHasNoAttempts(env: Env, source: TaskSource, task: TaskDefinition, config: ExecConfig)
    requires !Passes(config, task)
    ensures EvaluateTaskSpec(env, source, task, config).Success?
    ensures EvaluateTaskSpec(env, source, task, config).value.skipReasons == SkipReasons(config, task) != []
    ensures EvaluateTaskSpec(env, source, task, config).value.taskResults == []
  {
    FilterEmptyIffPasses(config, task);
  }

  /** A task that passes the filter is attempted with every allowed language
      and served model, and with a model the registry does not know it still
      carries a skip reason. */
  lemma PassingTaskAttempts(env: Env, source: TaskSource, task: TaskDefinition, config: ExecConfig)
    requires Passes(config, task)
    requires EvaluateTaskSpec(env, source, task, config).Success?
    ensures var tr := EvaluateTaskSpec(env, source, task, config).value;
            && PairsOf(tr.taskResults) == Pairs(Allowed(config, task.languages), Served(env.clients, config.llms))
            && |tr.taskResults| == |Allowed(config, task.languages)| * |Served(env.clients, config.llms)|
            && |tr.skipReasons| == |Allowed(config, task.languages)| * |Unserved(env.clients, config.llms)|
  {
    FilterEmptyIffPasses(config, task);
    TaskOutcomeShape(env, config, task, task.languages);
    PairsLength(Allowed(config, task.languages), Served(env.clients, config.llms));
    PairsOfLength(EvaluateTaskSpec(env, source, task, config).value.taskResults);
  }

  /** A task that passes the filter and has an allowed language without a
      language-specific entry throws, whatever the models give: building
      the model for that language throws before any null guard is read. */
  lemma MissingEntryFailsTask(env: Env, source: TaskSource, task: TaskDefinition, config: ExecConfig, k: nat)
    requires Passes(config, task)
    requires k < |task.languages| && LanguageAllowed(config, task.languages[k])
    requires LanguageEntry(task, task.languages[k]).None?
    ensures EvaluateTaskSpec(env, source, task, config).Failure?
  {
    FilterEmptyIffPasses(config, task);
    TaskOutcomeShape(env, config, task, task.languages);
  }

  /** So does a task offering a parameter the config does not set, once
      some task language is allowed: every imported task offers three. */
  lemma UnsetParameterFailsTask(env: Env, source: TaskSource, task: TaskDefinition, config: ExecConfig, k: nat, i: nat)
    requires Passes(config, task)
    requires k < |task.languages| && LanguageAllowed(config, task.languages[k])
    requires i < |task.availableParameters| && GetExecParam(config, task.availableParameters[i]).None?
    ensures EvaluateTaskSpec(env, source, task, config).Failure?
  {
    FilterEmptyIffPasses(config, task);
    var flags := Flags(config, task.availableParameters);
    UnsetParameterThrows(task.availableParameters, flags, i);
    assert PromptThrows(config, task, task.languages[k]);
    TaskOutcomeShape(env, config, task, task.languages);
  }

  lemma {:induction false} PairsOfLength(attempts: seq<Attempt>)
    ensures |PairsOf(attempts)| == |attempts|
    decreases |attempts|
  {
    if attempts != [] {
      PairsOfLength(attempts[..|attempts| - 1]);
    }
  }

  // ------------------------------------------------------ one task source

  /** The number of evaluations with an error, over all attempts. */
  function ErrorsCount(attempts: seq<Attempt>): nat
    decreases |attempts|
  {
    if attempts == [] then 0
    else ErrorsCount(attempts[..|attempts| - 1]) + ErrorCount(attempts[|attempts| - 1].evaluationResult)
  }

  function ErrorCount(results: seq<EvaluationResult>): nat
    decreases |results|
  {
    if results == [] then 0
    else ErrorCount(results[..|results| - 1]) + (if results[|results| - 1].error.Some? then 1 else 0)
  }

  /** Some evaluation has an error exactly when the count is positive. */
  lemma {:induction false} ErrorsCountPositive(attempts: seq<Attempt>)
    ensures ErrorsCount(attempts) > 0 <==>
              exists i, j :: 0 <= i < |attempts| && 0 <= j < |attempts[i].evaluationResult| && attempts[i].evaluationResult[j].error.Some?
    decreases |attempts|
  {
    if attempts != [] {
      var init := attempts[..|attempts| - 1];
      ErrorsCountPositive(init);
      ErrorCountPositive(attempts[|attempts| - 1].evaluationResult);
      assert forall i :: 0 <= i < |init| ==> init[i] == attempts[i];
      if ErrorCount(attempts[|attempts| - 1].evaluationResult) > 0 {
        var j :| 0 <= j < |attempts[|attempts| - 1].evaluationResult| && attempts[|attempts| - 1].evaluationResult[j].error.Some?;
        assert attempts[|attempts| - 1].evaluationResult[j].error.Some?;
      }
    }
  }

  lemma {:induction false} ErrorCountPositive(results: seq<EvaluationResult>)
    ensures ErrorCount(results) > 0 <==> exists j :: 0 <= j < |results| && results[j].error.Some?
    decreases |results|
  {
    if results != [] {
      var init := results[..|results| - 1];
      ErrorCountPositive(init);
      assert forall j :: 0 <= j < |init| ==> init[j] == results[j];
    }
  }

  /** The counter a task's results increment. */
  datatype Progress = FilteredOut | Errored | Completed

  function Classify(tr: TaskResults): (p: Progress)
    ensures p == FilteredOut <==> tr.skipReasons != []
    ensures p == Errored <==> tr.skipReasons == [] && ErrorsCount(tr.taskResults) > 0
    ensures p == Completed <==> tr.skipReasons == [] && ErrorsCount(tr.taskResults) == 0
  {
    if tr.skipReasons != [] then FilteredOut else if ErrorsCount(tr.taskResults) > 0 then Errored else Completed
  }

  /** A task with a model the registry does not know counts as filtered out,
      whatever its attempts with the other models gave. */
  lemma UnknownModelCountsAsFilteredOut(env: Env, source: TaskSource, task: TaskDefinition, config: ExecConfig)
    requires Passes(config, task)
    requires EvaluateTaskSpec(env, source, task, config).Success?
    requires Allowed(config, task.languages) != [] && Unserved(env.clients, config.llms) != []
    ensures Classify(EvaluateTaskSpec(env, source, task, config).value) == FilteredOut
  {
    PassingTaskAttempts(env, source, task, config);
    MulPositive(|Allowed(config, task.languages)|, |Unserved(env.clients, config.llms)|);
  }

  /** The results of the given tasks, the first that throws ending the scan. */
  function SourceOutcome(env: Env, config: ExecConfig, source: TaskSource, tasks: seq<TaskDefinition>): Result<seq<TaskResults>, string>
    decreases |tasks|
  {
    if tasks == [] then Success([])
    else
      var init := SourceOutcome(env, config, source, tasks[..|tasks| - 1]);
      if init.Failure? then init
      else
        var tr := EvaluateTaskSpec(env, source, tasks[|tasks| - 1], config);
        if tr.Failure? then Failure(tr.error) else Success(init.value + [tr.value])
  }

  /** How many of the results fall in class `p`. */
  function CountOf(results: seq<TaskResults>, p: Progress): nat
    decreases |results|
  {
    if results == [] then 0
    else CountOf(results[..|results| - 1], p) + (if Classify(results[|results| - 1]) == p then 1 else 0)
  }

  /** Every result is in exactly one class. */
  lemma {:induction false} CountsPartition(results: seq<TaskResults>)
    ensures CountOf(results, FilteredOut) + CountOf(results, Errored) + CountOf(results, Completed) == |results|
    decreases |results|
  {
    if results != [] {
      CountsPartition(results[..|results| - 1]);
    }
  }

  /** The map from each task to its results. */
  function ResultsMap(tasks: seq<TaskDefinition>, results: seq<TaskResults>): map<TaskDefinition, TaskResults>
    requires |tasks| == |results|
    decreases |tasks|
  {
    if tasks == [] then map[]
    else ResultsMap(tasks[..|tasks| - 1], results[..|results| - 1])[tasks[|tasks| - 1] := results[|results| - 1]]
  }

  lemma {:induction false} ResultsMapKeys(tasks: seq<TaskDefinition>, results: seq<TaskResults>)
    requires |tasks| == |results|
    ensures ResultsMap(tasks, results).Keys == set t | t in tasks
    decreases |tasks|
  {
    if tasks != [] {
      ResultsMapKeys(tasks[..|tasks| - 1], results[..|results| - 1]);
      assert tasks == tasks[..|tasks| - 1] + [tasks[|tasks| - 1]];
    }
  }

  lemma {:induction false} SourceOutcomeLength(env: Env, config: ExecConfig, source: TaskSource, tasks: seq<TaskDefinition>)
    requires SourceOutcome(env, config, source, tasks).Success?
    ensures |SourceOutcome(env, config, source, tasks).value| == |tasks|
    decreases |tasks|
  {
    if tasks != [] {
      SourceOutcomeLength(env, config, source, tasks[..|tasks| - 1]);
    }
  }

  /** The counter update after one task: filtered out when it has skip
      reasons, else error when an evaluation has an error, else completed. */
  method RecordProgress(status: TaskSourceStatus, tr: TaskResults)
    modifies status
    ensures status.filteredOut == old(status.filteredOut) + (if Classify(tr) == FilteredOut then 1 else 0)
    ensures status.error == old(status.error) + (if Classify(tr) == Errored then 1 else 0)
    ensures status.completed == old(status.completed) + (if Classify(tr) == Completed then 1 else 0)
  {
    var errorsCount := ErrorsCount(tr.taskResults);
    if tr.skipReasons != [] {
      status.IncrementFilteredOut();
    } else if errorsCount > 0 {
      status.IncrementError();
    } else {
      status.IncrementCompleted();
    }
  }

  /** One pass of the loop of `evaluateTaskSource`: task `i` is evaluated
      and, unless it throws, stored and counted. */
  method EvaluateNext(env: Env, config: ExecConfig, source: TaskSource, status: TaskSourceStatus, i: nat,
                      results: seq<TaskResults>, acc: map<TaskDefinition, TaskResults>)
    returns (tr: Result<TaskResults, string>, results': seq<TaskResults>, acc': map<TaskDefinition, TaskResults>)
    requires i < |source.tasks| && |results| == i
    requires SourceOutcome(env, config, source, source.tasks[..i]) == Success(results)
    requires acc == ResultsMap(source.tasks[..i], results)
    modifies status
    ensures tr.Failure? ==> SourceOutcome(env, config, source, source.tasks) == Failure(tr.error)
    ensures tr.Failure? ==> status.filteredOut == old(status.filteredOut) && status.error == old(status.error)
                            && status.completed == old(status.completed)
    ensures tr.Success? ==>
              && results' == results + [tr.value]
              && SourceOutcome(env, config, source, source.tasks[..i + 1]) == Success(results')
              && acc' == ResultsMap(source.tasks[..i + 1], results')
              && status.filteredOut == old(status.filteredOut) + (if Classify(tr.value) == FilteredOut then 1 else 0)
              && status.error == old(status.error) + (if Classify(tr.value) == Errored then 1 else 0)
              && status.completed == old(status.completed) + (if Classify(tr.value) == Completed then 1 else 0)
  {
    var task := source.tasks[i];
    tr := EvaluateTask(env, source, task, config);
    SourceOutcomeSnoc(env, config, source, source.tasks, i);
    if tr.Failure? {
      SourceOutcomeFailureSticks(env, config, source, source.tasks, i + 1);
      assert source.tasks[..|source.tasks|] == source.tasks;
      return tr, results, acc;
    }
    ResultsMapSnoc(source.tasks, results, i, tr.value);
    acc' := acc[task := tr.value];
    results' := results + [tr.value];
    RecordProgress(status, tr.value);
  }

  /** `evaluateTaskSource`: each task's results, and one counter of the
      source's status raised per task by its class. A throwing task ends the
      scan with the earlier tasks already counted. */
  method EvaluateTaskSource(env: Env, config: ExecConfig, source: TaskSource, status: TaskSourceStatus)
    returns (r: Result<map<TaskDefinition, TaskResults>, string>)
    modifies status
    ensures r.Failure? <==> SourceOutcome(env, config, source, source.tasks).Failure?
    ensures r.Success? ==>
              var results := SourceOutcome(env, config, source, source.tasks).value;
              && |results| == |source.tasks|
              && r.value == ResultsMap(source.tasks, results)
              && status.filteredOut == old(status.filteredOut) + CountOf(results, FilteredOut)
              && status.error == old(status.error) + CountOf(results, Errored)
              && status.completed == old(status.completed) + CountOf(results, Completed)
  {
    var taskSourceResults: map<TaskDefinition, TaskResults> := map[];
    var results: seq<TaskResults> := [];
    var i := 0;
    while i < |source.tasks|
      invariant 0 <= i <= |source.tasks| && |results| == i
      invariant SourceOutcome(env, config, source, source.tasks[..i]) == Success(results)
      invariant taskSourceResults == ResultsMap(source.tasks[..i], results)
      invariant status.filteredOut == old(status.filteredOut) + CountOf(results, FilteredOut)
      invariant status.error == old(status.error) + CountOf(results, Errored)
      invariant status.completed == old(status.completed) + CountOf(results, Completed)
    {
      var tr;
      tr, results, taskSourceResults := EvaluateNext(env, config, source, status, i, results, taskSourceResults);
      if tr.Failure? {
        return Failure(tr.error);
      }
      CountOfSnoc(results[..i], tr.value);
      assert results[..i] + [tr.value] == results;
      i := i + 1;
    }
    assert source.tasks[..i] == source.tasks;
    return Success(taskSourceResults);
  }

  /** A scan that succeeds accounts for every task of the source exactly
      once across the three counters. */
  lemma SourceCountsEveryTask(env: Env, config: ExecConfig, source: TaskSource)
    requires SourceOutcome(env, config, source, source.tasks).Success?
    ensures var results := SourceOutcome(env, config, source, source.tasks).value;
            CountOf(results, FilteredOut) + CountOf(results, Errored) + CountOf(results, Completed) == |source.tasks|
  {
    SourceOutcomeLength(env, config, source, source.tasks);
    CountsPartition(SourceOutcome(env, config, source, source.tasks).value);
  }

  lemma SourceOutcomeSnoc(env: Env, config: ExecConfig, source: TaskSource, tasks: seq<TaskDefinition>, i: nat)
    requires i < |tasks|
    ensures SourceOutcome(env, config, source, tasks[..i + 1])
            == if SourceOutcome(env, config, source, tasks[..i]).Failure? then SourceOutcome(env, config, source, tasks[..i])
               else if EvaluateTaskSpec(env, source, tasks[i], config).Failure? then Failure(EvaluateTaskSpec(env, source, tasks[i], config).error)
               else Success(SourceOutcome(env, config, source, tasks[..i]).value + [EvaluateTaskSpec(env, source, tasks[i], config).value])
  {
    assert tasks[..i + 1][..i] == tasks[..i];
  }

  lemma CountOfSnoc(results: seq<TaskResults>, tr: TaskResults)
    ensures forall p :: CountOf(results + [tr], p) == CountOf(results, p) + if Classify(tr) == p then 1 else 0
  {
    assert (results + [tr])[..|results|] == results;
  }

  lemma ResultsMapSnoc(tasks: seq<TaskDefinition>, results: seq<TaskResults>, i: nat, tr: TaskResults)
    requires i < |tasks| && |results| == i
    ensures ResultsMap(tasks[..i + 1], results + [tr]) == ResultsMap(tasks[..i], results)[tasks[i] := tr]
  {
    assert tasks[..i + 1][..i] == tasks[..i];
    assert (results + [tr])[..i] == results;
  }

  lemma {:induction false} SourceOutcomeFailureSticks(env: Env, config: ExecConfig, source: TaskSource, tasks: seq<TaskDefinition>, i: nat)
    requires i <= |tasks| && SourceOutcome(env, config, source, tasks[..i]).Failure?
    ensures SourceOutcome(env, config, source, tasks) == SourceOutcome(env, config, source, tasks[..i])
    decreases |tasks| - i
  {
    if i < |tasks| {
      assert tasks[..i + 1][..i] == tasks[..i];
      SourceOutcomeFailureSticks(env, config, source, tasks, i + 1);
    } else {
      assert tasks[..i] == tasks;
    }
  }
  // ----------------------------------------------------------- one run

  /** `results.put(key, value)` over the keys in order, the first failure
      ending the loop with its error. */
  function PutAll<K, V>(keys: seq<K>, rs: seq<Result<V, string>>): Result<map<K, V>, string>
    requires |keys| == |rs|
    decreases |keys|
  {
    if keys == [] then Success(map[])
    else
      var n := |keys| - 1;
      var init := PutAll(keys[..n], rs[..n]);
      if init.Failure? then init
      else if rs[n].Failure? then Failure(rs[n].error)
      else Success(init.value[keys[n] := rs[n].value])
  }

  lemma PutAllSnoc<K, V>(keys: seq<K>, rs: seq<Result<V, string>>, i: nat)
    requires |keys| == |rs| && i < |keys|
    ensures PutAll(keys[..i + 1], rs[..i + 1])
            == if PutAll(keys[..i], rs[..i]).Failure? then PutAll(keys[..i], rs[..i])
               else if rs[i].Failure? then Failure(rs[i].error)
               else Success(PutAll(keys[..i], rs[..i]).value[keys[i] := rs[i].value])
  {
    assert keys[..i + 1][..i] == keys[..i];
    assert rs[..i + 1][..i] == rs[..i];
  }

  lemma {:induction false} PutAllFailureSticks<K, V>(keys: seq<K>, rs: seq<Result<V, string>>, i: nat)
    requires |keys| == |rs| && i <= |keys| && PutAll(keys[..i], rs[..i]).Failure?
    ensures PutAll(keys, rs) == PutAll(keys[..i], rs[..i])
    decreases |keys| - i
  {
    if i < |keys| {
      PutAllSnoc(keys, rs, i);
      PutAllFailureSticks(keys, rs, i + 1);
    } else {
      assert keys[..i] == keys && rs[..i] == rs;
    }
  }

  /** One pass of a loop that has put the first `i` keys: a failed value
      ends it with that failure, another is put on top. */
  lemma PutAllStep<K, V>(keys: seq<K>, rs: seq<Result<V, string>>, i: nat, results: map<K, V>)
    requires |keys| == |rs| && i < |keys| && PutAll(keys[..i], rs[..i]) == Success(results)
    ensures rs[i].Failure? ==> PutAll(keys, rs) == Failure(rs[i].error)
    ensures rs[i].Success? ==> PutAll(keys[..i + 1], rs[..i + 1]) == Success(results[keys[i] := rs[i].value])
  {
    PutAllSnoc(keys, rs, i);
    if rs[i].Failure? {
      PutAllFailureSticks(keys, rs, i + 1);
    }
  }

  lemma PutAllWhole<K, V>(keys: seq<K>, rs: seq<Result<V, string>>)
    requires |keys| == |rs|
    ensures PutAll(keys[..|keys|], rs[..|rs|]) == PutAll(keys, rs)
  {
    assert keys[..|keys|] == keys && rs[..|rs|] == rs;
  }

  /** The loop fails exactly when some value failed, with a failed value's
      error; otherwise every key is put, with the value of one of its places. */
  lemma {:induction false} PutAllMeaning<K, V>(keys: seq<K>, rs: seq<Result<V, string>>)
    requires |keys| == |rs|
    ensures PutAll(keys, rs).Failure? <==> exists i :: 0 <= i < |rs| && rs[i].Failure?
    ensures PutAll(keys, rs).Failure? ==> exists i :: 0 <= i < |rs| && rs[i] == Failure(PutAll(keys, rs).error)
    ensures PutAll(keys, rs).Success? ==>
              && PutAll(keys, rs).value.Keys == set k | k in keys
              && forall k :: k in PutAll(keys, rs).value ==>
                   exists i :: 0 <= i < |keys| && keys[i] == k && rs[i] == Success(PutAll(keys, rs).value[k])
    decreases |keys|
  {
    if keys != [] {
      var n := |keys| - 1;
      PutAllMeaning(keys[..n], rs[..n]);
      assert forall i :: 0 <= i < n ==> keys[..n][i] == keys[i] && rs[..n][i] == rs[i];
      assert keys == keys[..n] + [keys[n]];
    }
  }

  /** What one source adds to a run: its task-to-results map, or the
      wrapping message when its scan throws. */
  function SourceEntry(env: Env, config: ExecConfig, source: TaskSource): Result<map<TaskDefinition, TaskResults>, string>
  {
    var o := SourceOutcome(env, config, source, source.tasks);
    if o.Failure? then Failure(EvaluationFailed)
    else
      SourceOutcomeLength(env, config, source, source.tasks);
      Success(ResultsMap(source.tasks, o.value))
  }

  function SourceEntries(env: Env, config: ExecConfig, sources: seq<TaskSource>): (rs: seq<Result<map<TaskDefinition, TaskResults>, string>>)
    ensures |rs| == |sources|
    ensures forall i :: 0 <= i < |sources| ==> rs[i] == SourceEntry(env, config, sources[i])
  {
    seq(|sources|, i requires 0 <= i < |sources| => SourceEntry(env, config, sources[i]))
  }

  /** The results of a run, keyed by task source. */
  function RunOutcome(env: Env, config: ExecConfig, sources: seq<TaskSource>)
    : Result<map<TaskSource, map<TaskDefinition, TaskResults>>, string>
  {
    PutAll(sources, SourceEntries(env, config, sources))
  }

  /** A run fails exactly when the scan of some source throws, and then with
      the wrapping message; otherwise it holds one entry per source, the map
      from that source's tasks to their results. */
  lemma RunOutcomeMeaning(env: Env, config: ExecConfig, sources: seq<TaskSource>)
    ensures RunOutcome(env, config, sources).Failure? <==>
              exists i :: 0 <= i < |sources| && SourceOutcome(env, config, sources[i], sources[i].tasks).Failure?
    ensures RunOutcome(env, config, sources).Failure? ==> RunOutcome(env, config, sources).error == EvaluationFailed
    ensures RunOutcome(env, config, sources).Success? ==>
              && RunOutcome(env, config, sources).value.Keys == set s | s in sources
              && forall s :: s in RunOutcome(env, config, sources).value ==>
                   SourceEntry(env, config, s) == Success(RunOutcome(env, config, sources).value[s])
  {
    var rs := SourceEntries(env, config, sources);
    PutAllMeaning(sources, rs);
    if RunOutcome(env, config, sources).Success? {
      var m := RunOutcome(env, config, sources).value;
      forall s | s in m
        ensures SourceEntry(env, config, s) == Success(m[s])
      {
        var i :| 0 <= i < |sources| && sources[i] == s && rs[i] == Success(m[s]);
      }
    }
  }

  /** A source's entry in a successful run maps its tasks to their results. */
  lemma SourceEntryMeaning(env: Env, config: ExecConfig, source: TaskSource)
    requires SourceEntry(env, config, source).Success?
    ensures SourceOutcome(env, config, source, source.tasks).Success?
    ensures |SourceOutcome(env, config, source, source.tasks).value| == |source.tasks|
    ensures SourceEntry(env, config, source).value == ResultsMap(source.tasks, SourceOutcome(env, config, source, source.tasks).value)
    ensures SourceEntry(env, config, source).value.Keys == set t | t in source.tasks
  {
    SourceOutcomeLength(env, config, source, source.tasks);
    ResultsMapKeys(source.tasks, SourceOutcome(env, config, source, source.tasks).value);
  }

  /** The outcome of scanning a source, as `evaluateTaskSource` states it, is
      that source's entry. */
  lemma EntryOfScan(env: Env, config: ExecConfig, source: TaskSource, r: Result<map<TaskDefinition, TaskResults>, string>)
    requires r.Failure? <==> SourceOutcome(env, config, source, source.tasks).Failure?
    requires r.Success? ==>
               |SourceOutcome(env, config, source, source.tasks).value| == |source.tasks|
               && r.value == ResultsMap(source.tasks, SourceOutcome(env, config, source, source.tasks).value)
    ensures SourceEntry(env, config, source) == if r.Failure? then Failure(EvaluationFailed) else Success(r.value)
  {
  }

  /** One source of the run: its tasks scanned with its counters, the
      outcome told as the source's entry. */
  method ScanSource(env: Env, config: ExecConfig, source: TaskSource, status: TaskSourceStatus)
    returns (entry: Result<map<TaskDefinition, TaskResults>, string>)
    modifies status
    ensures entry == SourceEntry(env, config, source)
  {
    var taskResults := EvaluateTaskSource(env, config, source, status);
    EntryOfScan(env, config, source, taskResults);
    entry := if taskResults.Failure? then Failure(EvaluationFailed) else taskResults;
  }

  /** The loop of `evaluate`: each source's tasks are scanned with that
      source's counters from the run's status, the first source that throws
      ending the run. The status was created from the same sources, so every
      lookup finds its entry and the map itself never changes. */
  method EvaluateSources(env: Env, config: ExecConfig, taskSources: seq<TaskSource>, benchmarkStatus: BenchmarkStatus)
    returns (r: Result<map<TaskSource, map<TaskDefinition, TaskResults>>, string>)
    requires forall i :: 0 <= i < |taskSources| ==> taskSources[i].name in benchmarkStatus.taskSourceStatuses
    modifies benchmarkStatus, benchmarkStatus.taskSourceStatuses.Values
    ensures r == RunOutcome(env, config, taskSources)
    ensures benchmarkStatus.taskSourceStatuses == old(benchmarkStatus.taskSourceStatuses)
  {
    ghost var rs := SourceEntries(env, config, taskSources);
    var results: map<TaskSource, map<TaskDefinition, TaskResults>> := map[];
    var i := 0;
    while i < |taskSources|
      invariant 0 <= i <= |taskSources|
      invariant benchmarkStatus.taskSourceStatuses == old(benchmarkStatus.taskSourceStatuses)
      invariant PutAll(taskSources[..i], rs[..i]) == Success(results)
    {
      var taskSource := taskSources[i];
      var status := benchmarkStatus.GetTaskSourceStatus(taskSource);
      var taskResults := ScanSource(env, config, taskSource, status);
      PutAllStep(taskSources, rs, i, results);
      if taskResults.Failure? {
        return Failure(taskResults.error);
      }
      results := results[taskSource := taskResults.value];
      i := i + 1;
    }
    PutAllWhole(taskSources, rs);
    return Success(results);
  }

  /** `evaluate`: the tracker's status is created, the sources are scanned,
      and the run leaves the tracker again whether the scans succeed or one
      throws. */
  method Evaluate(env: Env, config: ExecConfig, taskSources: seq<TaskSource>, resultFilename: string, tracker: Tracker)
    returns (r: Result<map<TaskSource, map<TaskDefinition, TaskResults>>, string>)
    modifies tracker
    ensures r == RunOutcome(env, config, taskSources)
    ensures tracker.activeRuns == old(tracker.activeRuns) - {resultFilename}
  {
    ghost var before := tracker.activeRuns;
    var benchmarkStatus := tracker.CreateStatus(config.filepath, taskSources, resultFilename);
    ghost var registered := tracker.activeRuns;
    r := EvaluateSources(env, config, taskSources, benchmarkStatus);
    assert tracker.activeRuns == registered;
    tracker.CompleteRun(resultFilename);
    RemoveRegistered(before, resultFilename, benchmarkStatus);
  }

  /** Registering a run and then removing it leaves the other runs as they were. */
  lemma RemoveRegistered<K, V>(runs: map<K, V>, key: K, value: V)
    ensures runs[key := value] - {key} == runs - {key}
  {
  }
}
