/** The task importer: three converters from a benchmark's YAML records to a
    task source, and the command-line dispatch between them. Reading and
    writing the YAML files is not part of this model: each converter takes
    the loaded documents as records, with an absent key as `None` (or as the
    default the code gives it), and returns the output document. */
module TasksImporter {
  import opened Wrappers
  import opened Text

  /** A string field of the output: a `LiteralScalarString` (dumped as a
      `|` block) or the value as it came, possibly null. */
  datatype Scalar = Literal(text: string) | Plain(value: Option<string>)

  datatype HiddenTest = HiddenTest(code: Scalar)

  datatype LangSpecific = LangSpecific(description: string, hiddenTests: seq<HiddenTest>)

  datatype TaskEntry = TaskEntry(
    name: Option<string>,
    taskType: string,
    difficulty: string,
    area: string,
    source: Option<string>,
    languages: seq<string>,
    availableParameters: seq<string>,
    availableCriteria: seq<string>,
    commonPrompt: Scalar,
    languagesSpecific: map<string, LangSpecific>,
    goldenSolution: map<string, Scalar>,
    llmJudgePrompt: Scalar)

  datatype Output = Output(version: int, name: string, tasks: seq<TaskEntry>)

  /** A HumanEval record (Python or Java). */
  datatype HumanEvalTask = HumanEvalTask(taskId: Option<string>, prompt: Option<string>, test: Option<string>,
                                         canonicalSolution: Option<string>)

  /** An MBPP record; `taskId` is the text an f-string makes of the id
      (`None` for an absent one), `testList` defaults to empty, and
      `sourceFile` is the text an f-string makes of the field: the empty
      string when it is absent, `None` when it is an explicit null. */
  datatype MbppTask = MbppTask(taskId: string, prompt: Option<string>, code: Option<string>,
                               testList: seq<Option<string>>, sourceFile: string)

  const ImplementationType := "implementation from zero"
  const Area := "math"
  const CommonPromptRef := "${common_prompt}"
  const Parameters := ["use-llm-judge", "all-tests-public", "all-tests-hidden"]
  const PythonCriteria := ["unit-test", "ram-usage", "cpu-usage", "sonarqube", "llm-judge-code-quality",
                           "llm-judge-comment-quality", "python-pmd", "python-pyright"]
  const JavaCriteria := ["unit-test", "ram-usage", "cpu-usage", "sonarqube", "llm-judge-code-quality",
                         "llm-judge-comment-quality", "java-pmd"]
  const JudgePrompt :=
    "You are an experienced interviewer assessing the candidate's solution. \n"
    + "Here is the task that was given to the candidate:\n"
    + "```\n"
    + "${prompt}\n"
    + "```\n"
    + "Based on the given task, the candidate wrote the following solution:\n"
    + "```\n"
    + "${solution.code}\n"
    + "```\n\n"
    + "Based on the provided task and candidate's solution, \n"
    + "respond with a YAML that contains numeric evaluations of the \n"
    + "following concepts on a scale from 0 to 10:\n"
    + "```\n"
    + "solution_correctness: int\n"
    + "code_quality: int\n"
    + "style_quality: int\n"
    + "<#if parameters['should-generate-tests'] >\n"
    + "test_quality: int\n"
    + "</#if>\n"
    + "```"

  const IndexError := "IndexError: list index out of range"
  const AttributeError := "AttributeError: 'NoneType' object has no attribute 'split'"

  // ---------------------------------------------------------------- fields

  /** A multi-line text becomes a literal block; a falsy or one-line value
      is kept as it is. */
  function Block(s: Option<string>): (r: Scalar)
    ensures r.Literal? <==> TruthyText(s) && '\n' in s.value
  {
    if TruthyText(s) && '\n' in s.value then Literal(s.value) else Plain(s)
  }

  /** The text a scalar is dumped with. */
  function TextOf(s: Scalar): Option<string>
  {
    if s.Literal? then Some(s.text) else s.value
  }

  /** The block style changes only how a text is written, never the text. */
  lemma BlockKeepsText(s: Option<string>)
    ensures TextOf(Block(s)) == s
    ensures Block(s).Plain? ==> Block(s) == Plain(s)
  {
  }

  /** Where the part of `s` after its last `/` starts: 0 without a `/`. */
  function SegmentStart(s: string): (k: nat)
    ensures k <= |s|
    ensures forall j :: k <= j < |s| ==> s[j] != '/'
    ensures 0 < k ==> s[k - 1] == '/'
    decreases |s|
  {
    if s == [] then 0
    else if s[|s| - 1] == '/' then |s|
    else SegmentStart(s[..|s| - 1])
  }

  /** `s.split('/')[-1]`: what follows the last `/`, or all of `s`. */
  function LastSegment(s: string): (r: string)
    ensures '/' !in r
    ensures |r| <= |s| && s[|s| - |r|..] == r
    ensures |r| < |s| ==> s[|s| - |r| - 1] == '/'
    ensures '/' !in s ==> r == s
  {
    s[SegmentStart(s)..]
  }

  // -------------------------------------------------------------- HumanEval

  /** The HumanEval difficulty: easy exactly when `115` occurs in the id. */
  function HumanEvalDifficulty(taskId: Option<string>): string
  {
    if Contains(taskId.GetOr(""), "115") then "easy" else "medium"
  }

  /** One HumanEval (Python) record as a task. */
  function HumanEvalEntry(t: HumanEvalTask): TaskEntry
  {
    TaskEntry(t.taskId, ImplementationType, HumanEvalDifficulty(t.taskId), Area, t.taskId, ["python"],
              Parameters, PythonCriteria, Block(t.prompt),
              map["python" := LangSpecific(CommonPromptRef, [HiddenTest(Block(t.test))])],
              map["python" := Block(t.canonicalSolution)], Literal(JudgePrompt))
  }

  /** A HumanEval task is easy exactly when its id mentions `115`; it is
      named and sourced by its id, in Python, with its one test hidden, and
      its prompt, test and solution texts carried over unchanged. */
  lemma HumanEvalEntryFields(t: HumanEvalTask)
    ensures var e := HumanEvalEntry(t);
            && (e.difficulty == "easy" <==> t.taskId.Some? && Contains(t.taskId.value, "115"))
            && (e.difficulty != "easy" ==> e.difficulty == "medium")
            && e.name == t.taskId && e.source == t.taskId && e.languages == ["python"]
            && TextOf(e.commonPrompt) == t.prompt
            && e.languagesSpecific.Keys == {"python"} && |e.languagesSpecific["python"].hiddenTests| == 1
            && TextOf(e.languagesSpecific["python"].hiddenTests[0].code) == t.test
            && TextOf(e.goldenSolution["python"]) == t.canonicalSolution
  {
    BlockKeepsText(t.prompt);
    BlockKeepsText(t.test);
    BlockKeepsText(t.canonicalSolution);
    if t.taskId.None? {
      assert !IsPrefix("115", "");
    }
  }

  /** `convert_humaneval`: one task per document, in order. */
  method ConvertHumanEval(input: seq<HumanEvalTask>) returns (output: Output)
    ensures output.version == 1 && output.name == "task-source-example-1"
    ensures |output.tasks| == |input|
    ensures forall i :: 0 <= i < |input| ==> output.tasks[i] == HumanEvalEntry(input[i])
  {
    var tasks: seq<TaskEntry> := [];
    var i := 0;
    while i < |input|
      invariant 0 <= i <= |input| && |tasks| == i
      invariant forall k :: 0 <= k < i ==> tasks[k] == HumanEvalEntry(input[k])
    {
      tasks := tasks + [HumanEvalEntry(input[i])];
      i := i + 1;
    }
    output := Output(1, "task-source-example-1", tasks);
  }

  // ------------------------------------------------------------------- MBPP

  /** The hidden-test loop: one test per entry of `test_list`, in order. */
  method HiddenTests(testList: seq<Option<string>>) returns (tests: seq<HiddenTest>)
    ensures |tests| == |testList|
    ensures forall i :: 0 <= i < |testList| ==> tests[i] == HiddenTest(Block(testList[i]))
  {
    tests := [];
    var i := 0;
    while i < |testList|
      invariant 0 <= i <= |testList| && |tests| == i
      invariant forall k :: 0 <= k < i ==> tests[k] == HiddenTest(Block(testList[k]))
    {
      tests := tests + [HiddenTest(Block(testList[i]))];
      i := i + 1;
    }
  }

  /** One MBPP record as a task, with the hidden tests already built. */
  function MbppEntry(t: MbppTask, hiddenTests: seq<HiddenTest>): TaskEntry
  {
    TaskEntry(Some("mbpp-sanitized/" + t.taskId), ImplementationType, "easy", Area, Some("mbpp-sanitized/" + t.sourceFile),
              ["python"], Parameters, PythonCriteria, Block(t.prompt),
              map["python" := LangSpecific(CommonPromptRef, hiddenTests)],
              map["python" := Block(t.code)], Literal(JudgePrompt))
  }

  /** The hidden tests of an MBPP task are those of its record. */
  function MbppTests(t: MbppTask): (tests: seq<HiddenTest>)
    ensures |tests| == |t.testList|
    ensures forall i :: 0 <= i < |t.testList| ==> TextOf(tests[i].code) == t.testList[i]
  {
    seq(|t.testList|, i requires 0 <= i < |t.testList| => HiddenTest(Block(t.testList[i])))
  }

  /** `convert_mbpp`: only the first document is read, as the list of
      records, one task per record in order; no document at all throws. */
  method ConvertMbpp(documents: seq<seq<MbppTask>>) returns (r: Result<Output, string>)
    ensures documents == [] <==> r.Failure?
    ensures r.Failure? ==> r.error == IndexError
    ensures r.Success? ==>
              r.value.version == 1 && r.value.name == "mbpp-sanitized"
              && |r.value.tasks| == |documents[0]|
              && forall i :: 0 <= i < |documents[0]| ==> r.value.tasks[i] == MbppEntry(documents[0][i], MbppTests(documents[0][i]))
  {
    if documents == [] {
      return Failure(IndexError);
    }
    var input := documents[0];
    var tasks: seq<TaskEntry> := [];
    var i := 0;
    while i < |input|
      invariant 0 <= i <= |input| && |tasks| == i
      invariant forall k :: 0 <= k < i ==> tasks[k] == MbppEntry(input[k], MbppTests(input[k]))
    {
      var hiddenTests := HiddenTests(input[i].testList);
      assert hiddenTests == MbppTests(input[i]);
      tasks := tasks + [MbppEntry(input[i], hiddenTests)];
      i := i + 1;
    }
    return Success(Output(1, "mbpp-sanitized", tasks));
  }

  /** An MBPP task is named and sourced under `mbpp-sanitized/`, easy, and
      has one hidden test per listed test with that test's text. */
  lemma MbppEntryFields(t: MbppTask)
    ensures var e := MbppEntry(t, MbppTests(t));
            && e.name == Some("mbpp-sanitized/" + t.taskId) && e.source == Some("mbpp-sanitized/" + t.sourceFile)
            && e.difficulty == "easy"
            && |e.languagesSpecific["python"].hiddenTests| == |t.testList|
            && (forall i :: 0 <= i < |t.testList| ==> TextOf(e.languagesSpecific["python"].hiddenTests[i].code) == t.testList[i])
            && TextOf(e.commonPrompt) == t.prompt && TextOf(e.goldenSolution["python"]) == t.code
  {
    BlockKeepsText(t.prompt);
    BlockKeepsText(t.code);
  }

  // ---------------------------------------------------------- HumanEval-Java

  /** One HumanEval-Java record with the id `taskId` as a task. */
  function JavaEntry(t: HumanEvalTask, taskId: string): TaskEntry
  {
    TaskEntry(Some("HumanEval/" + taskId), ImplementationType, "medium", Area,
              Some("zai-org/CodeGeeX/" + LastSegment(taskId)), ["java"], Parameters, JavaCriteria, Block(t.prompt),
              map["java" := LangSpecific(CommonPromptRef, [HiddenTest(Block(t.test))])],
              map["java" := Block(t.canonicalSolution)], Literal(JudgePrompt))
  }

  /** One HumanEval-Java record as a task; a record without an id throws
      when its id is split. */
  function HumanEvalJavaEntry(t: HumanEvalTask): (r: Result<TaskEntry, string>)
    ensures r.Failure? <==> t.taskId.None?
    ensures r.Failure? ==> r.error == AttributeError
    ensures r.Success? ==> r.value == JavaEntry(t, t.taskId.value)
  {
    if t.taskId.None? then Failure(AttributeError) else Success(JavaEntry(t, t.taskId.value))
  }

  /** A HumanEval-Java task is named `HumanEval/` plus its id, sourced from
      CodeGeeX by the id's part after the last `/`, in Java only, and keeps
      its prompt, test and solution texts. */
  lemma HumanEvalJavaEntryFields(t: HumanEvalTask)
    requires t.taskId.Some?
    ensures var e := JavaEntry(t, t.taskId.value);
            var id := t.taskId.value;
            && e.name == Some("HumanEval/" + id)
            && e.source.Some? && IsPrefix("zai-org/CodeGeeX/", e.source.value)
            && var segment := e.source.value[|"zai-org/CodeGeeX/"|..];
            && '/' !in segment && IsPrefix(segment, id[|id| - |segment|..])
            && (|segment| < |id| ==> id[|id| - |segment| - 1] == '/')
            && e.languages == ["java"] && e.languagesSpecific.Keys == {"java"}
            && TextOf(e.commonPrompt) == t.prompt
            && TextOf(e.languagesSpecific["java"].hiddenTests[0].code) == t.test
            && TextOf(e.goldenSolution["java"]) == t.canonicalSolution
  {
    BlockKeepsText(t.prompt);
    BlockKeepsText(t.test);
    BlockKeepsText(t.canonicalSolution);
    var id := t.taskId.value;
    var segment := LastSegment(id);
    assert ("zai-org/CodeGeeX/" + segment)[|"zai-org/CodeGeeX/"|..] == segment;
  }

  /** A loop that appends each converted record and stops at the first
      exception: all the values, or the first error. */
  function Collect<T>(rs: seq<Result<T, string>>): Result<seq<T>, string>
    decreases |rs|
  {
    if rs == [] then Success([])
    else
      var init := Collect(rs[..|rs| - 1]);
      var last := rs[|rs| - 1];
      if init.Failure? then Failure(init.error)
      else if last.Failure? then Failure(last.error)
      else Success(init.value + [last.value])
  }

  /** Collecting fails exactly when some element failed, and then with the
      error of a failed element. */
  lemma {:induction false} CollectFailure<T>(rs: seq<Result<T, string>>)
    ensures Collect(rs).Failure? <==> exists i :: 0 <= i < |rs| && rs[i].Failure?
    ensures Collect(rs).Failure? ==> exists i :: 0 <= i < |rs| && rs[i].Failure? && rs[i].error == Collect(rs).error
    decreases |rs|
  {
    if rs != [] {
      var init := rs[..|rs| - 1];
      CollectFailure(init);
      assert forall i :: 0 <= i < |init| ==> init[i] == rs[i];
      if Collect(rs).Failure? && Collect(init).Success? {
        assert rs[|rs| - 1].Failure?;
      }
    }
  }

  /** A successful collection holds every element's value, in order. */
  lemma {:induction false} CollectSuccess<T>(rs: seq<Result<T, string>>)
    requires Collect(rs).Success?
    ensures |Collect(rs).value| == |rs|
    ensures forall i :: 0 <= i < |rs| ==> rs[i] == Success(Collect(rs).value[i])
    decreases |rs|
  {
    if rs != [] {
      var init := rs[..|rs| - 1];
      CollectSuccess(init);
      var values := Collect(init).value;
      var r := Collect(rs).value;
      assert r == values + [rs[|rs| - 1].value];
      forall i | 0 <= i < |init|
        ensures rs[i] == Success(r[i])
      {
        assert init[i] == rs[i] && r[i] == values[i];
      }
    }
  }

  /** One more element: its error, or its value appended. */
  lemma CollectSnoc<T>(rs: seq<Result<T, string>>, values: seq<T>, x: Result<T, string>)
    requires Collect(rs) == Success(values)
    ensures Collect(rs + [x]) == if x.Failure? then Failure(x.error) else Success(values + [x.value])
  {
    assert (rs + [x])[..|rs|] == rs;
  }

  /** Once a prefix fails, the whole collection fails with the same error. */
  lemma {:induction false} CollectFailureSticks<T>(rs: seq<Result<T, string>>, n: nat)
    requires n <= |rs| && Collect(rs[..n]).Failure?
    ensures Collect(rs) == Collect(rs[..n])
    decreases |rs| - n
  {
    if n < |rs| {
      assert rs[..n + 1][..n] == rs[..n];
      CollectFailureSticks(rs, n + 1);
    } else {
      assert rs[..n] == rs;
    }
  }

  /** One step of a loop over the results: the element's error ends the
      whole collection, and a value extends the collected prefix. */
  lemma CollectStep<T>(rs: seq<Result<T, string>>, i: nat, values: seq<T>)
    requires i < |rs| && Collect(rs[..i]) == Success(values)
    ensures rs[i].Failure? ==> Collect(rs) == Failure(rs[i].error)
    ensures rs[i].Success? ==> Collect(rs[..i + 1]) == Success(values + [rs[i].value])
  {
    assert rs[..i + 1] == rs[..i] + [rs[i]];
    CollectSnoc(rs[..i], values, rs[i]);
    if rs[i].Failure? {
      CollectFailureSticks(rs, i + 1);
    }
  }

  /** Each HumanEval-Java record converted on its own. */
  function JavaResults(input: seq<HumanEvalTask>): (rs: seq<Result<TaskEntry, string>>)
    ensures |rs| == |input| && forall i :: 0 <= i < |input| ==> rs[i] == HumanEvalJavaEntry(input[i])
  {
    seq(|input|, i requires 0 <= i < |input| => HumanEvalJavaEntry(input[i]))
  }

  /** The HumanEval-Java conversion fails exactly when some record has no
      id, with the `AttributeError`; otherwise task `i` is record `i` as a
      task under its id. */
  lemma JavaTasksMeaning(input: seq<HumanEvalTask>)
    ensures Collect(JavaResults(input)).Failure? <==> exists i :: 0 <= i < |input| && input[i].taskId.None?
    ensures Collect(JavaResults(input)).Failure? ==> Collect(JavaResults(input)).error == AttributeError
    ensures Collect(JavaResults(input)).Success? ==>
              |Collect(JavaResults(input)).value| == |input|
              && forall i :: 0 <= i < |input| ==>
                   input[i].taskId.Some? && Collect(JavaResults(input)).value[i] == JavaEntry(input[i], input[i].taskId.value)
  {
    var rs := JavaResults(input);
    CollectFailure(rs);
    if Collect(rs).Success? {
      CollectSuccess(rs);
    }
  }

  /** `convert_humaneval_java`: the records converted in order into a
      version-1 source with the example name, or the first record's error. */
  method ConvertHumanEvalJava(input: seq<HumanEvalTask>) returns (r: Result<Output, string>)
    ensures r.Failure? <==> Collect(JavaResults(input)).Failure?
    ensures r.Failure? ==> r.error == Collect(JavaResults(input)).error
    ensures r.Success? ==> r.value == Output(1, "task-source-example-1", Collect(JavaResults(input)).value)
  {
    ghost var rs := JavaResults(input);
    var tasks: seq<TaskEntry> := [];
    var i := 0;
    while i < |input|
      invariant 0 <= i <= |input|
      invariant Collect(rs[..i]) == Success(tasks)
    {
      var entry := HumanEvalJavaEntry(input[i]);
      assert entry == rs[i];
      CollectStep(rs, i, tasks);
      if entry.Failure? {
        return Failure(entry.error);
      }
      tasks := tasks + [entry.value];
      i := i + 1;
    }
    assert rs[..i] == rs;
    return Success(Output(1, "task-source-example-1", tasks));
  }

  // --------------------------------------------------------------- dispatch

  datatype Converter = HumanEvalConverter | MbppConverter | HumanEvalJavaConverter

  /** What `main` does with its arguments (the script name first): the
      usage message and exit status 1, a `ValueError` for an unknown type,
      or a conversion from the input file to the output file. */
  datatype Command = UsageExit | UnknownType(message: string) | Convert(converter: Converter, inputYaml: string, outputYaml: string)

  /** The converter a lower-cased type names. */
  function ConverterFor(lowered: string): Option<Converter>
  {
    if lowered == "humaneval" then Some(HumanEvalConverter)
    else if lowered == "mbpp" then Some(MbppConverter)
    else if lowered == "humanevaljava" then Some(HumanEvalJavaConverter)
    else None
  }

  function Dispatch(argv: seq<string>): (c: Command)
    ensures |argv| != 4 <==> c == UsageExit
    ensures |argv| == 4 && c.UnknownType? ==> c.message == "Unknown type: " + argv[3]
    ensures c.Convert? ==> c.inputYaml == argv[1] && c.outputYaml == argv[2]
  {
    if |argv| != 4 then UsageExit
    else
      var converter := ConverterFor(ToLower(argv[3]));
      if converter.None? then UnknownType("Unknown type: " + argv[3]) else Convert(converter.value, argv[1], argv[2])
  }

  /** The type is read without regard to case: two spellings that lower to
      the same text pick the same converter, and a type is unknown exactly
      when its lower-cased form is none of the three names. */
  lemma DispatchIgnoresCase(argv: seq<string>, other: seq<string>)
    requires |argv| == 4 && |other| == 4 && argv[..3] == other[..3]
    requires ToLower(argv[3]) == ToLower(other[3])
    ensures Dispatch(argv).Convert? <==> Dispatch(other).Convert?
    ensures Dispatch(argv).Convert? ==> Dispatch(argv) == Dispatch(other)
    ensures Dispatch(argv).UnknownType? <==> ToLower(argv[3]) !in {"humaneval", "mbpp", "humanevaljava"}
  {
    assert argv[1] == argv[..3][1] && other[1] == other[..3][1];
    assert argv[2] == argv[..3][2] && other[2] == other[..3][2];
  }

  /** `MBPP` and `HumanEvalJava`, in any case, reach their converters. */
  lemma DispatchExamples()
    ensures Dispatch(["tasks_importer.py", "in.yaml", "out.yaml", "MBPP"]) == Convert(MbppConverter, "in.yaml", "out.yaml")
    ensures Dispatch(["tasks_importer.py", "in.yaml", "out.yaml", "HumanEvalJava"]) == Convert(HumanEvalJavaConverter, "in.yaml", "out.yaml")
    ensures Dispatch(["tasks_importer.py", "in.yaml", "out.yaml", "apps"]) == UnknownType("Unknown type: apps")
  {
    assert ToLower("MBPP") == "mbpp";
    assert ToLower("HumanEvalJava") == "humanevaljava";
    assert ToLower("apps") == "apps";
  }
}
