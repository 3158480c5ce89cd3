/** The task-source editor: the parsed file with its defaults, and the edits
    of its task list (one field of a task, a whole task, append, delete), each
    of which hands the serialization of the new file to the shell. The YAML
    serializer is the parameter `stringify`; what parsing produced is the
    parameter `parsed`. */
module TaskSourceEditor {
  import opened Wrappers
  import opened YamlValue

  /** The editor's view of a task-source file. */
  datatype TaskSourceFile = TaskSourceFile(version: Value, name: Value, tasks: seq<Value>)

  const DefaultVersion := Str("1.0")
  const DefaultName := Str("")
  const Defaults := TaskSourceFile(DefaultVersion, DefaultName, [])

  /** The parse effect: `parsed.version || '1.0'`, `parsed.name || ''`, and the
      task list when it is an array; a parse error gives every default. */
  function ParseWithDefaults(parsed: Result<Value, string>): (f: TaskSourceFile)
    ensures parsed.Failure? ==> f == Defaults
    ensures parsed.Success? ==>
              f.version == (if Truthy(Get(parsed.value, "version")) then Get(parsed.value, "version") else DefaultVersion)
              && f.name == (if Truthy(Get(parsed.value, "name")) then Get(parsed.value, "name") else DefaultName)
              && (Get(parsed.value, "tasks").List? ==> f.tasks == Get(parsed.value, "tasks").items)
              && (!Get(parsed.value, "tasks").List? ==> f.tasks == [])
  {
    match parsed
    case Failure(_) => Defaults
    case Success(p) =>
      var tasks := Get(p, "tasks");
      TaskSourceFile(Or(Get(p, "version"), DefaultVersion), Or(Get(p, "name"), DefaultName),
                     if tasks.List? then tasks.items else [])
  }

  /** The object `stringify` is given: exactly the three fields. */
  function FileValue(f: TaskSourceFile): (v: Value)
    ensures v.Obj? && v.fields.Keys == {"version", "name", "tasks"}
    ensures Get(v, "version") == f.version && Get(v, "name") == f.name && Get(v, "tasks") == List(f.tasks)
  {
    Obj(map["version" := f.version, "name" := f.name, "tasks" := List(f.tasks)])
  }

  /** A document that already has a truthy version and name, a task list and
      nothing else comes back unchanged from parsing with defaults; any other
      top-level field is dropped on the next edit. */
  lemma ParseKeepsWellFormed(p: Value)
    requires p.Obj? && p.fields.Keys == {"version", "name", "tasks"}
    requires Truthy(p.fields["version"]) && Truthy(p.fields["name"]) && p.fields["tasks"].List?
    ensures FileValue(ParseWithDefaults(Success(p))) == p
  {
    var f := ParseWithDefaults(Success(p));
    assert FileValue(f).fields == p.fields;
  }

  /** The task after `{...task, [field]: value}`. */
  function WithField(task: Value, field: string, value: Value): (t: Value)
    ensures t.Obj?
    ensures Get(t, field) == value
    ensures forall k :: k != field ==> Get(t, k) == Get(task, k)
  {
    Obj(SpreadFields(task)[field := value])
  }

  /** The list after `filter((_, i) => i !== index)`. */
  function WithoutIndex(tasks: seq<Value>, index: int): (r: seq<Value>)
    decreases |tasks|
  {
    if tasks == [] then []
    else
      var n := |tasks| - 1;
      WithoutIndex(tasks[..n], index) + (if n == index then [] else [tasks[n]])
  }

  /** Deleting at an index in range removes exactly that task and keeps the
      order of the rest; any other index removes nothing. */
  lemma {:induction false} WithoutIndexRemovesOne(tasks: seq<Value>, index: int)
    ensures 0 <= index < |tasks| ==> WithoutIndex(tasks, index) == tasks[..index] + tasks[index + 1..]
    ensures !(0 <= index < |tasks|) ==> WithoutIndex(tasks, index) == tasks
    decreases |tasks|
  {
    if tasks != [] {
      var n := |tasks| - 1;
      WithoutIndexRemovesOne(tasks[..n], index);
      if index == n {
        assert tasks[..n][..index] == tasks[..index];
        assert tasks[index + 1..] == [];
      } else if 0 <= index < n {
        assert tasks[..n][..index] == tasks[..index];
        assert tasks[..n][index + 1..] + [tasks[n]] == tasks[index + 1..];
      } else {
        assert tasks[..n] + [tasks[n]] == tasks;
      }
    }
  }

  /** The task that Add Task appends. */
  const NewTask: Value := Obj(map[
    "name" := Str("New Task"),
    "type" := Str("implementation from zero"),
    "difficulty" := Str("easy"),
    "area" := Str("general"),
    "source" := Str("custom"),
    "languages" := List([Str("python"), Str("java")]),
    "available_parameters" := List([]),
    "available_criteria" := List([])])

  /** The task whose detail pop-up is open. */
  datatype EditingTask = EditingTask(index: int, task: Value)

  class Editor {
    var parsedContent: Option<TaskSourceFile>
    var editingTask: Option<EditingTask>

    constructor ()
      ensures parsedContent == None && editingTask == None
    {
      parsedContent := None;
      editingTask := None;
    }

    /** The effect run whenever the content changes. */
    method Parse(parsed: Result<Value, string>)
      modifies this
      ensures parsedContent == Some(ParseWithDefaults(parsed))
      ensures editingTask == old(editingTask)
    {
      parsedContent := Some(ParseWithDefaults(parsed));
    }

    /** `updateTask`: one field of one task; nothing happens before the first
        parse. The index is a row of the rendered table. */
    method UpdateTask(index: int, field: string, value: Value, stringify: Value -> string)
      returns (emitted: Option<string>)
      requires parsedContent.Some? ==> 0 <= index < |parsedContent.value.tasks|
      modifies this
      ensures old(parsedContent).None? ==> parsedContent == None && emitted == None
      ensures old(parsedContent).Some? ==>
                parsedContent.Some?
                && parsedContent.value.version == old(parsedContent).value.version
                && parsedContent.value.name == old(parsedContent).value.name
                && parsedContent.value.tasks == old(parsedContent).value.tasks[index := WithField(old(parsedContent).value.tasks[index], field, value)]
                && emitted == Some(stringify(FileValue(parsedContent.value)))
      ensures editingTask == old(editingTask)
    {
      if parsedContent.None? {
        return None;
      }
      var newContent := parsedContent.value;
      var tasks := newContent.tasks;
      tasks := tasks[index := WithField(tasks[index], field, value)];
      newContent := newContent.(tasks := tasks);
      parsedContent := Some(newContent);
      emitted := Some(stringify(FileValue(newContent)));
    }

    /** `handleTaskUpdate`: the pop-up's task replaces the one at its index. */
    method HandleTaskUpdate(index: int, updatedTask: Value, stringify: Value -> string)
      returns (emitted: Option<string>)
      requires parsedContent.Some? ==> 0 <= index < |parsedContent.value.tasks|
      modifies this
      ensures old(parsedContent).None? ==> parsedContent == None && emitted == None
      ensures old(parsedContent).Some? ==>
                parsedContent == Some(old(parsedContent).value.(tasks := old(parsedContent).value.tasks[index := updatedTask]))
                && emitted == Some(stringify(FileValue(parsedContent.value)))
      ensures editingTask == old(editingTask)
    {
      if parsedContent.None? {
        return None;
      }
      var newContent := parsedContent.value;
      newContent := newContent.(tasks := newContent.tasks[index := updatedTask]);
      parsedContent := Some(newContent);
      emitted := Some(stringify(FileValue(newContent)));
    }

    /** Add Task (shown only once the content is parsed). */
    method AddTask(stringify: Value -> string) returns (emitted: string)
      requires parsedContent.Some?
      modifies this
      ensures parsedContent == Some(old(parsedContent).value.(tasks := old(parsedContent).value.tasks + [NewTask]))
      ensures emitted == stringify(FileValue(parsedContent.value))
      ensures editingTask == old(editingTask)
    {
      var newContent := parsedContent.value.(tasks := parsedContent.value.tasks + [NewTask]);
      parsedContent := Some(newContent);
      emitted := stringify(FileValue(newContent));
    }

    /** The delete button of row `index` (shown only once the content is parsed). */
    method DeleteTask(index: int, stringify: Value -> string) returns (emitted: string)
      requires parsedContent.Some?
      modifies this
      ensures parsedContent == Some(old(parsedContent).value.(tasks := WithoutIndex(old(parsedContent).value.tasks, index)))
      ensures emitted == stringify(FileValue(parsedContent.value))
      ensures editingTask == old(editingTask)
    {
      var newContent := parsedContent.value.(tasks := WithoutIndex(parsedContent.value.tasks, index));
      parsedContent := Some(newContent);
      emitted := stringify(FileValue(newContent));
    }

    /** The edit button of row `index` opens the pop-up on that task. */
    method OpenTask(index: int)
      requires parsedContent.Some? && 0 <= index < |parsedContent.value.tasks|
      modifies this
      ensures parsedContent == old(parsedContent)
      ensures editingTask == Some(EditingTask(index, parsedContent.value.tasks[index]))
    {
      editingTask := Some(EditingTask(index, parsedContent.value.tasks[index]));
    }

    method CloseTask()
      modifies this
      ensures editingTask == None && parsedContent == old(parsedContent)
    {
      editingTask := None;
    }
  }

  /** An index update changes only the given field of the given task: the list
      keeps its length, every other task is unchanged, and the updated task
      keeps every other field. */
  lemma UpdateTouchesOneField(tasks: seq<Value>, index: int, field: string, value: Value)
    requires 0 <= index < |tasks|
    ensures var r := tasks[index := WithField(tasks[index], field, value)];
            && |r| == |tasks|
            && (forall j :: 0 <= j < |tasks| && j != index ==> r[j] == tasks[j])
            && Get(r[index], field) == value
            && (forall k :: k != field ==> Get(r[index], k) == Get(tasks[index], k))
  {
  }

  /** Add appends exactly one task, the default one, after all the others. */
  lemma AddAppendsOne(f: TaskSourceFile)
    ensures var r := f.(tasks := f.tasks + [NewTask]);
            |r.tasks| == |f.tasks| + 1 && r.tasks[..|f.tasks|] == f.tasks && r.tasks[|f.tasks|] == NewTask
            && Get(NewTask, "name") == Str("New Task") && Get(NewTask, "difficulty") == Str("easy")
  {
    var r := f.tasks + [NewTask];
    assert r[..|f.tasks|] == f.tasks;
  }
}
