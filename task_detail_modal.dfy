/** The task detail pop-up: a local copy of one task, edited by writing a
    value at a path of keys, a code editor bound to one path, and Save, which
    hands the local task back with its index. */
module TaskDetailModal {
  import opened Wrappers
  import opened YamlValue

  const TypeError := "TypeError"

  /** The fields after writing `value` at `path` (at least one key) into
      `fields`: a missing or falsy intermediate becomes a new empty object,
      an object intermediate is descended into, and any other truthy
      intermediate cannot take a property, which throws. */
  function SetPath(fields: map<string, Value>, path: seq<string>, value: Value): (r: Result<map<string, Value>, string>)
    requires |path| >= 1
    decreases |path|
  {
    if |path| == 1 then Success(fields[path[0] := value])
    else
      var child := if path[0] in fields then fields[path[0]] else Null;
      if Truthy(child) && !child.Obj? then Failure(TypeError)
      else
        var sub := SetPath(if child.Obj? then child.fields else map[], path[1..], value);
        if sub.Failure? then sub else Success(fields[path[0] := Obj(sub.value)])
  }

  /** Reading along a path of keys; anything read past a non-object is `Null`. */
  function GetPath(v: Value, path: seq<string>): Value
    decreases |path|
  {
    if path == [] then v else GetPath(Get(v, path[0]), path[1..])
  }

  /** `updateField(path, value)` applied to the previous task: the top level
      is a shallow copy; with an empty path the loop does not run and the key
      written is `path[-1]`, i.e. "undefined". */
  function UpdatedTask(prev: Value, path: seq<string>, value: Value): (r: Result<Value, string>)
    ensures r.Success? ==> r.value.Obj?
  {
    if path == [] then Success(Obj(SpreadFields(prev)["undefined" := value]))
    else
      var fields := SetPath(SpreadFields(prev), path, value);
      if fields.Failure? then Failure(fields.error) else Success(Obj(fields.value))
  }

  /** After a successful write, following the path reaches the value. */
  lemma {:induction false} SetPathReaches(fields: map<string, Value>, path: seq<string>, value: Value)
    requires |path| >= 1 && SetPath(fields, path, value).Success?
    ensures GetPath(Obj(SetPath(fields, path, value).value), path) == value
    decreases |path|
  {
    if |path| > 1 {
      var child := if path[0] in fields then fields[path[0]] else Null;
      SetPathReaches(if child.Obj? then child.fields else map[], path[1..], value);
    }
  }

  /** After a successful write, every proper prefix of the path leads to an
      object: the missing and falsy intermediates have become objects. */
  lemma {:induction false} SetPathIntermediates(fields: map<string, Value>, path: seq<string>, value: Value, d: nat)
    requires |path| >= 1 && SetPath(fields, path, value).Success?
    requires d < |path|
    ensures GetPath(Obj(SetPath(fields, path, value).value), path[..d]).Obj?
    decreases |path|
  {
    if d > 0 {
      var child := if path[0] in fields then fields[path[0]] else Null;
      var inner := if child.Obj? then child.fields else map[];
      SetPathIntermediates(inner, path[1..], value, d - 1);
      assert path[..d][1..] == path[1..][..d - 1];
    }
  }

  /** A read along a path that leaves the written path at some level reads
      what it read before: sibling keys at every level are preserved. */
  lemma {:induction false} SetPathSiblings(fields: map<string, Value>, path: seq<string>, value: Value, q: seq<string>, j: nat)
    requires |path| >= 1 && SetPath(fields, path, value).Success?
    requires j < |path| && j < |q| && q[..j] == path[..j] && q[j] != path[j]
    ensures GetPath(Obj(SetPath(fields, path, value).value), q) == GetPath(Obj(fields), q)
    decreases |path|
  {
    if j > 0 {
      assert q[0] == q[..j][0] == path[..j][0] == path[0];
      var child := if path[0] in fields then fields[path[0]] else Null;
      var inner := if child.Obj? then child.fields else map[];
      assert q[1..][..j - 1] == q[..j][1..] && path[1..][..j - 1] == path[..j][1..];
      SetPathSiblings(inner, path[1..], value, q[1..], j - 1);
      if !Truthy(child) {
        GetPathFromEmpty(inner, path[1..], value, q[1..], j - 1);
        GetPathOfFalsy(child, q[1..]);
      }
    }
  }

  /** Past a falsy value every read is `Null`. */
  lemma {:induction false} GetPathOfFalsy(v: Value, q: seq<string>)
    requires !Truthy(v) && q != []
    ensures GetPath(v, q) == Null
    decreases |q|
  {
    if |q| > 1 {
      GetPathOfFalsy(Get(v, q[0]), q[1..]);
    }
  }

  /** A read that leaves the written path, in an object created empty,
      finds nothing. */
  lemma {:induction false} GetPathFromEmpty(inner: map<string, Value>, path: seq<string>, value: Value, q: seq<string>, j: nat)
    requires |path| >= 1 && j < |path| && j < |q| && q[..j] == path[..j] && q[j] != path[j]
    requires inner == map[]
    ensures GetPath(Obj(inner), q) == Null
    decreases |q|
  {
    if j == 0 {
      GetPathOfFalsy(Get(Obj(inner), q[0]), q);
      assert GetPath(Obj(inner), q) == GetPath(Null, q[1..]);
      if q[1..] != [] {
        GetPathOfFalsy(Null, q[1..]);
      }
    } else {
      if q[1..] != [] {
        GetPathOfFalsy(Null, q[1..]);
      }
    }
  }

  /** The write throws exactly when some proper prefix of the path leads to a
      truthy value that is not an object. */
  lemma {:induction false} SetPathFails(fields: map<string, Value>, path: seq<string>, value: Value)
    requires |path| >= 1
    ensures SetPath(fields, path, value).Failure? <==>
              exists d :: 1 <= d < |path| && Truthy(GetPath(Obj(fields), path[..d])) && !GetPath(Obj(fields), path[..d]).Obj?
    decreases |path|
  {
    if |path| > 1 {
      var child := if path[0] in fields then fields[path[0]] else Null;
      var inner := if child.Obj? then child.fields else map[];
      SetPathFails(inner, path[1..], value);
      forall d | 1 <= d < |path|
        ensures GetPath(Obj(fields), path[..d]) == GetPath(child, path[1..][..d - 1])
      {
        assert path[..d][1..] == path[1..][..d - 1];
      }
      if Truthy(child) && !child.Obj? {
        assert path[1..][..0] == [];
        assert GetPath(Obj(fields), path[..1]) == child;
      } else if child.Obj? {
        assert Obj(inner) == child;
        forall d | 2 <= d < |path|
          ensures GetPath(Obj(fields), path[..d]) == GetPath(Obj(inner), path[1..][..d - 1])
        {
        }
        if SetPath(fields, path, value).Failure? {
          var e :| 1 <= e < |path| - 1 && Truthy(GetPath(Obj(inner), path[1..][..e])) && !GetPath(Obj(inner), path[1..][..e]).Obj?;
          assert GetPath(Obj(fields), path[..e + 1]) == GetPath(Obj(inner), path[1..][..e]);
        }
      } else {
        forall d | 1 <= d < |path|
          ensures !Truthy(GetPath(Obj(fields), path[..d]))
        {
          if d > 1 {
            GetPathOfFalsy(child, path[1..][..d - 1]);
          }
        }
        if SetPath(fields, path, value).Failure? {
          assert inner == map[] && SetPath(inner, path[1..], value).Failure?;
          var e :| 1 <= e < |path| - 1 && Truthy(GetPath(Obj(inner), path[1..][..e])) && !GetPath(Obj(inner), path[1..][..e]).Obj?;
          var q := path[1..][..e];
          assert GetPath(Obj(inner), q) == GetPath(Null, q[1..]);
          if |q| > 1 {
            GetPathOfFalsy(Null, q[1..]);
          }
          assert false;
        }
      }
    }
  }

  /** The fields after re-attaching `inner` under the recorded levels, the
      innermost level last. */
  function Rebuild(levels: seq<map<string, Value>>, keys: seq<string>, inner: map<string, Value>): map<string, Value>
    requires |levels| == |keys|
    decreases |levels|
  {
    if levels == [] then inner
    else
      var n := |levels| - 1;
      Rebuild(levels[..n], keys[..n], levels[n][keys[n] := Obj(inner)])
  }

  function Lift(levels: seq<map<string, Value>>, keys: seq<string>, r: Result<map<string, Value>, string>): Result<map<string, Value>, string>
    requires |levels| == |keys|
  {
    if r.Failure? then r else Success(Rebuild(levels, keys, r.value))
  }

  /** One level of the descent: the write throws at a truthy non-object
      child, and otherwise is the write below that child lifted one level
      further. */
  lemma DescendStep(top: map<string, Value>, path: seq<string>, value: Value,
                    levels: seq<map<string, Value>>, current: map<string, Value>, i: nat)
    requires i < |path| - 1 && |levels| == i
    requires SetPath(top, path, value) == Lift(levels, path[..i], SetPath(current, path[i..], value))
    ensures var child := if path[i] in current then current[path[i]] else Null;
            && (Truthy(child) && !child.Obj? ==> SetPath(top, path, value) == Failure(TypeError))
            && (!(Truthy(child) && !child.Obj?) ==>
                  SetPath(top, path, value)
                  == Lift(levels + [current], path[..i + 1], SetPath(if child.Obj? then child.fields else map[], path[i + 1..], value)))
  {
    var tail := path[i..];
    assert tail[0] == path[i] && tail[1..] == path[i + 1..];
    assert path[..i + 1][..i] == path[..i] && path[..i + 1][i] == path[i];
    assert (levels + [current])[..i] == levels;
  }

  /** One level of the ascent: re-attaching under the innermost recorded
      level first. */
  lemma AscendStep(levels: seq<map<string, Value>>, keys: seq<string>, j: nat, inner: map<string, Value>)
    requires 0 < j <= |levels| == |keys|
    ensures Rebuild(levels[..j], keys[..j], inner) == Rebuild(levels[..j - 1], keys[..j - 1], levels[j - 1][keys[j - 1] := Obj(inner)])
  {
    assert levels[..j][..j - 1] == levels[..j - 1] && keys[..j][..j - 1] == keys[..j - 1];
  }

  /** `updateField`'s `setLocalTask` updater: the loop walks the path creating
      empty objects for falsy intermediates, then the leaf is written. The
      model records each level on the way down and re-attaches the edited
      levels on the way up. */
  method ComputeUpdate(prev: Value, path: seq<string>, value: Value) returns (r: Result<Value, string>)
    ensures r == UpdatedTask(prev, path, value)
  {
    var top := SpreadFields(prev);
    if |path| == 0 {
      return Success(Obj(top["undefined" := value]));
    }
    var levels: seq<map<string, Value>> := [];
    var current := top;
    var i := 0;
    while i < |path| - 1
      invariant 0 <= i <= |path| - 1 && |levels| == i
      invariant SetPath(top, path, value) == Lift(levels, path[..i], SetPath(current, path[i..], value))
    {
      DescendStep(top, path, value, levels, current, i);
      var child := if path[i] in current then current[path[i]] else Null;
      if Truthy(child) && !child.Obj? {
        return Failure(TypeError);
      }
      var next := if child.Obj? then child.fields else map[];
      levels := levels + [current];
      current := next;
      i := i + 1;
    }
    assert path[i..] == [path[i]];
    ghost var keys := path[..i];
    var result := current[path[i] := value];
    var j := i;
    assert levels[..j] == levels && keys[..j] == keys;
    while j > 0
      invariant 0 <= j <= i
      invariant Rebuild(levels, keys, current[path[i] := value]) == Rebuild(levels[..j], keys[..j], result)
    {
      AscendStep(levels, keys, j, result);
      result := levels[j - 1][path[j - 1] := Obj(result)];
      j := j - 1;
    }
    assert levels[..0] == [] && keys[..0] == [];
    return Success(Obj(result));
  }

  /** The pop-up's state. `crashed` records that an update threw during
      React's render: nothing in the page catches the error, so the tree is
      unmounted. */
  class Modal {
    const taskIndex: int
    var localTask: Value
    var crashed: bool
    var showCodeEditor: bool
    var codeEditorContent: string
    var codeEditorPath: seq<string>

    constructor (task: Value, taskIndex: int)
      ensures this.taskIndex == taskIndex && localTask == task
      ensures !showCodeEditor && codeEditorContent == "" && codeEditorPath == [] && !crashed
    {
      this.taskIndex := taskIndex;
      localTask := task;
      crashed := false;
      showCodeEditor := false;
      codeEditorContent := "";
      codeEditorPath := [];
    }

    /** `updateField`: the local task takes the written copy. A write that
        throws does so inside the state updater, which React runs again while
        rendering, where the error escapes and the pop-up crashes. */
    method UpdateField(path: seq<string>, value: Value)
      modifies this
      ensures UpdatedTask(old(localTask), path, value).Success? ==>
                localTask == UpdatedTask(old(localTask), path, value).value && crashed == old(crashed)
      ensures UpdatedTask(old(localTask), path, value).Failure? ==> localTask == old(localTask) && crashed
      ensures showCodeEditor == old(showCodeEditor) && codeEditorContent == old(codeEditorContent)
      ensures codeEditorPath == old(codeEditorPath)
    {
      var r := ComputeUpdate(localTask, path, value);
      if r.Success? {
        localTask := r.value;
      } else {
        crashed := true;
      }
    }

    /** `openCodeEditor`: remembers where the edited text goes and opens the editor. */
    method OpenCodeEditor(path: seq<string>, content: string)
      modifies this
      ensures codeEditorPath == path && codeEditorContent == content && showCodeEditor
      ensures localTask == old(localTask) && crashed == old(crashed)
    {
      codeEditorPath := path;
      codeEditorContent := content;
      showCodeEditor := true;
    }

    /** `saveCodeEditorContent`: the editor's text is written at the recorded
        path and the editor closes; a write that throws crashes the pop-up. */
    method SaveCodeEditorContent()
      modifies this
      ensures !showCodeEditor
      ensures codeEditorPath == old(codeEditorPath) && codeEditorContent == old(codeEditorContent)
      ensures UpdatedTask(old(localTask), codeEditorPath, Str(codeEditorContent)).Success? ==>
                localTask == UpdatedTask(old(localTask), codeEditorPath, Str(codeEditorContent)).value && crashed == old(crashed)
      ensures UpdatedTask(old(localTask), codeEditorPath, Str(codeEditorContent)).Failure? ==>
                localTask == old(localTask) && crashed
    {
      UpdateField(codeEditorPath, Str(codeEditorContent));
      showCodeEditor := false;
    }

    /** `handleSave`: what is handed to the list editor, here returned. */
    method HandleSave() returns (index: int, task: Value)
      ensures index == taskIndex && task == localTask
    {
      return taskIndex, localTask;
    }
  }

  /** Opening the code editor on a path and saving writes the edited text
      there: reading the path back gives it, when the write goes through. */
  lemma CodeEditorRoundTrip(prev: Value, path: seq<string>, content: string)
    requires |path| >= 1 && UpdatedTask(prev, path, Str(content)).Success?
    ensures GetPath(UpdatedTask(prev, path, Str(content)).value, path) == Str(content)
  {
    SetPathReaches(SpreadFields(prev), path, Str(content));
  }
}
