/** The executor service's task filter and its parameter lookup. A skip
    reason is kept as the data its message is built from; the message text,
    with Java's rendering of sets and lists, is not modelled. The parameter
    check of the filter is switched off by a constant in the source and is
    therefore absent here. */
module TaskFilter {
  import opened Wrappers
  import opened Text
  import opened BenchConfig

  datatype SkipReason =
    | DifficultyMismatch(difficulty: string, configDifficulties: set<string>)
    | AreaMismatch(area: Option<string>, configAreas: set<string>)
    | NoMatchingLanguage(taskName: string, taskLanguages: seq<string>, configLanguages: set<string>)
    | CriteriaMismatch(missing: set<string>, available: seq<string>, required: seq<string>)
    | ProviderMissing(message: string)

  /** The names of the enabled entries, in order. */
  function EnabledNames(params: seq<ExecParam>): (names: seq<string>)
    ensures |names| <= |params|
    ensures forall n :: n in names <==> exists i :: 0 <= i < |params| && params[i].enabled && params[i].name == n
    decreases |params|
  {
    if params == [] then []
    else
      var last := params[|params| - 1];
      var names := EnabledNames(params[..|params| - 1]);
      assert forall i :: 0 <= i < |params| - 1 ==> params[..|params| - 1][i] == params[i];
      if last.enabled then names + [last.name] else names
  }

  /** The difficulty check. */
  function DifficultyReason(config: ExecConfig, task: TaskDefinition): seq<SkipReason>
  {
    if config.difficulties != {} && task.difficulty !in config.difficulties
    then [DifficultyMismatch(task.difficulty, config.difficulties)] else []
  }

  /** The area check: a task without an area fails once areas are configured. */
  function AreaReason(config: ExecConfig, task: TaskDefinition): seq<SkipReason>
  {
    if config.areas != {} && (task.area.None? || task.area.value !in config.areas)
    then [AreaMismatch(task.area, config.areas)] else []
  }

  function LanguageReason(config: ExecConfig, task: TaskDefinition): seq<SkipReason>
  {
    if config.languages != {} && forall l :: l in task.languages ==> l !in config.languages
    then [NoMatchingLanguage(task.name, task.languages, config.languages)] else []
  }

  /** The criteria check: the enabled criteria the task does not offer. */
  function CriteriaReason(config: ExecConfig, task: TaskDefinition): seq<SkipReason>
  {
    var required := EnabledNames(config.criteria);
    if config.criteria != [] && !(forall n :: n in required ==> n in task.availableCriteria)
    then [CriteriaMismatch((set n | n in required) - (set n | n in task.availableCriteria), task.availableCriteria, required)]
    else []
  }

  /** The reasons `filter` returns, in the order it checks them. */
  function SkipReasons(config: ExecConfig, task: TaskDefinition): seq<SkipReason>
  {
    DifficultyReason(config, task) + AreaReason(config, task) + LanguageReason(config, task) + CriteriaReason(config, task)
  }

  /** `filter`, with the `found` loop over the task's languages. */
  method Filter(config: ExecConfig, task: TaskDefinition) returns (reasons: seq<SkipReason>)
    ensures reasons == SkipReasons(config, task)
  {
    reasons := [];
    if config.difficulties != {} && task.difficulty !in config.difficulties {
      reasons := reasons + [DifficultyMismatch(task.difficulty, config.difficulties)];
    }
    if config.areas != {} && (task.area.None? || task.area.value !in config.areas) {
      reasons := reasons + [AreaMismatch(task.area, config.areas)];
    }
    if config.languages != {} {
      var found := false;
      var i := 0;
      while i < |task.languages|
        invariant 0 <= i <= |task.languages|
        invariant !found
        invariant forall k :: 0 <= k < i ==> task.languages[k] !in config.languages
      {
        if task.languages[i] in config.languages {
          found := true;
          break;
        }
        i := i + 1;
      }
      if !found {
        reasons := reasons + [NoMatchingLanguage(task.name, task.languages, config.languages)];
      }
    }
    if config.criteria != [] {
      var required := EnabledNames(config.criteria);
      var allMatch := forall n :: n in required ==> n in task.availableCriteria;
      if !allMatch {
        var diffSet := (set n | n in required) - (set n | n in task.availableCriteria);
        reasons := reasons + [CriteriaMismatch(diffSet, task.availableCriteria, required)];
      }
    }
  }

  /** A task passes when each configured restriction admits it: its
      difficulty and area are among the configured ones, one of its languages
      is configured, and it offers every enabled criterion. */
  predicate Passes(config: ExecConfig, task: TaskDefinition)
  {
    && (config.difficulties == {} || task.difficulty in config.difficulties)
    && (config.areas == {} || (task.area.Some? && task.area.value in config.areas))
    && (config.languages == {} || exists l :: l in task.languages && l in config.languages)
    && forall i :: 0 <= i < |config.criteria| && config.criteria[i].enabled ==> config.criteria[i].name in task.availableCriteria
  }

  /** The filter returns no reason exactly for a task that passes. */
  lemma FilterEmptyIffPasses(config: ExecConfig, task: TaskDefinition)
    ensures SkipReasons(config, task) == [] <==> Passes(config, task)
  {
    if config.criteria == [] {
      assert forall n :: n !in EnabledNames(config.criteria);
    }
  }

  /** Each check contributes at most one reason, and does exactly when its
      restriction is configured and excludes the task. */
  lemma ReasonKinds(config: ExecConfig, task: TaskDefinition)
    ensures var rs := SkipReasons(config, task);
            && ((exists r :: r in rs && r.DifficultyMismatch?) <==> config.difficulties != {} && task.difficulty !in config.difficulties)
            && ((exists r :: r in rs && r.AreaMismatch?) <==> config.areas != {} && (task.area.None? || task.area.value !in config.areas))
            && ((exists r :: r in rs && r.NoMatchingLanguage?) <==> config.languages != {} && forall l :: l in task.languages ==> l !in config.languages)
            && ((exists r :: r in rs && r.CriteriaMismatch?) <==>
                  exists i :: 0 <= i < |config.criteria| && config.criteria[i].enabled && config.criteria[i].name !in task.availableCriteria)
            && |rs| <= 4
            && forall r :: r in rs ==> !r.ProviderMissing?
  {
    var d, a, l, c := DifficultyReason(config, task), AreaReason(config, task), LanguageReason(config, task), CriteriaReason(config, task);
    var rs := SkipReasons(config, task);
    assert forall r :: r in rs <==> r in d || r in a || r in l || r in c;
    if d != [] { assert d[0] in rs; }
    if a != [] { assert a[0] in rs; }
    if l != [] { assert l[0] in rs; }
    if c != [] {
      assert c[0] in rs;
    } else if config.criteria != [] {
      forall i | 0 <= i < |config.criteria| && config.criteria[i].enabled
        ensures config.criteria[i].name in task.availableCriteria
      {
        assert config.criteria[i].name in EnabledNames(config.criteria);
      }
    }
  }

  /** The criteria reason names exactly the enabled criteria the task lacks,
      and it is never empty. */
  lemma CriteriaReasonMissing(config: ExecConfig, task: TaskDefinition)
    requires CriteriaReason(config, task) != []
    ensures var r := CriteriaReason(config, task)[0];
            && r.CriteriaMismatch?
            && r.missing != {}
            && forall n :: n in r.missing <==>
                 (exists i :: 0 <= i < |config.criteria| && config.criteria[i].enabled && config.criteria[i].name == n)
                 && n !in task.availableCriteria
  {
    var required := EnabledNames(config.criteria);
    var n :| n in required && n !in task.availableCriteria;
    assert n in (set m | m in required) - (set m | m in task.availableCriteria);
  }

  /** The task's available parameters and the config's parameters play no
      part in filtering. */
  lemma ParametersIgnored(config: ExecConfig, task: TaskDefinition, parameters: seq<ExecParam>, available: seq<string>)
    ensures SkipReasons(config.(parameters := parameters), task.(availableParameters := available)) == SkipReasons(config, task)
  {
  }

  /** The index of the first parameter from `from` on whose name equals
      `paramName` ignoring case. */
  function FirstParam(parameters: seq<ExecParam>, paramName: string, from: nat): (r: Option<nat>)
    requires from <= |parameters|
    ensures r.Some? ==> from <= r.value < |parameters| && EqualsIgnoreCase(paramName, parameters[r.value].name)
                        && forall j :: from <= j < r.value ==> !EqualsIgnoreCase(paramName, parameters[j].name)
    ensures r.None? <==> forall j :: from <= j < |parameters| ==> !EqualsIgnoreCase(paramName, parameters[j].name)
    decreases |parameters| - from
  {
    if from == |parameters| then None
    else if EqualsIgnoreCase(paramName, parameters[from].name) then Some(from)
    else FirstParam(parameters, paramName, from + 1)
  }

  /** `getExecParam`: the flag of the first config parameter with that name
      ignoring case, or null. */
  function GetExecParam(config: ExecConfig, paramName: string): (r: Option<bool>)
    ensures r.None? <==> forall j :: 0 <= j < |config.parameters| ==> !EqualsIgnoreCase(paramName, config.parameters[j].name)
    ensures r.Some? ==> exists i :: 0 <= i < |config.parameters| && EqualsIgnoreCase(paramName, config.parameters[i].name)
                                    && r.value == config.parameters[i].enabled
                                    && forall j :: 0 <= j < i ==> !EqualsIgnoreCase(paramName, config.parameters[j].name)
  {
    var i := FirstParam(config.parameters, paramName, 0);
    if i.None? then None else Some(config.parameters[i.value].enabled)
  }

  /** The lookup ignores case: names equal up to case get the same flag. */
  lemma {:induction false} FirstParamIgnoresCase(parameters: seq<ExecParam>, a: string, b: string, from: nat)
    requires from <= |parameters| && ToLower(a) == ToLower(b)
    ensures FirstParam(parameters, a, from) == FirstParam(parameters, b, from)
    decreases |parameters| - from
  {
    if from < |parameters| {
      FirstParamIgnoresCase(parameters, a, b, from + 1);
    }
  }

  lemma GetExecParamIgnoresCase(config: ExecConfig, a: string, b: string)
    requires ToLower(a) == ToLower(b)
    ensures GetExecParam(config, a) == GetExecParam(config, b)
  {
    FirstParamIgnoresCase(config.parameters, a, b, 0);
  }
}
