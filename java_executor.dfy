/** The Java code executor's source preparation: the solution is given an
    entry function named `main` and wrapped in a class `Main`, the test code
    is pointed at `Main.main`, given a `main` method and wrapped in a class
    `Test`, and the two are reported joined by a separator line. Compiling,
    loading and running the classes is not part of this model. The five
    regular-expression rewrites (`replaceFirst`, and `replaceAll` with a
    pattern) are the functions in `Rewrites`. */
module JavaExecutor {
  import opened Text

  const SolutionClassName := "Main"
  const TestClassName := "Test"
  /** `solutionClassName.toLowerCase()`. */
  const MainFunctionName := "main"
  const Placeholder := "${solution.function_name}"
  const MainSignature := "public static " + "void" + " main(String[] args)"
  const Separator := "\n/**********/\n"

  /** The regular-expression rewrites, each applied to the whole code. */
  datatype Rewrites = Rewrites(
    /** `public static (\S+) \S+?\(` to `public static $1 main(`. */
    renameStatic: string -> string,
    /** `public class \w+` to `public class Main `. */
    renameSolutionClass: string -> string,
    /** Every `Main\.\S+\(` to `Main.main(`. */
    renameCalls: string -> string,
    /** `.*void[^{]+` to the main signature. */
    replaceVoid: string -> string,
    /** `public class [\w]+` to `public class Test `. */
    renameTestClass: string -> string)

  // -------------------------------------------------------------- solution

  /** The entry-function step of `prepareCode`: kept when a ` main(` is
      there, else the placeholder replaced everywhere, else the first static
      method renamed. */
  function RenameFunction(code: string, rw: Rewrites): (r: string)
    ensures Contains(code, " " + MainFunctionName + "(") ==> r == code
    ensures !Contains(code, " " + MainFunctionName + "(") && Contains(code, Placeholder) ==> !Contains(r, Placeholder)
  {
    if Contains(code, " " + MainFunctionName + "(") then code
    else if Contains(code, Placeholder) then
      PlaceholderRemoved(code, MainFunctionName);
      ReplaceAll(code, Placeholder, MainFunctionName)
    else if Contains(code, "public static ") then rw.renameStatic(code)
    else code
  }

  /** The class step of `prepareCode`: code with a class named `Main...`
      is kept, another public class is renamed, and anything else is
      wrapped in `public class Main`. */
  function WrapSolutionClass(code: string, rw: Rewrites): (r: string)
    ensures !Contains(code, "public class") || Contains(code, "public class Main") ==> Contains(r, "public class Main")
  {
    assert "public class " + SolutionClassName == "public class Main";
    if Contains(code, "public class") then
      if Contains(code, "public class " + SolutionClassName) then code
      else rw.renameSolutionClass(code)
    else
      var wrapped := "public class " + SolutionClassName + " {\n" + code + "\n}";
      assert IsPrefix("public class Main", wrapped);
      wrapped
  }

  /** `prepareCode`. */
  function PrepareCode(code: string, rw: Rewrites): string
  {
    WrapSolutionClass(RenameFunction(code, rw), rw)
  }

  /** Solution code with no public class, once its entry function is named,
      is the class `Main` around that code. */
  lemma WrapsBareSolution(code: string, rw: Rewrites)
    requires !Contains(RenameFunction(code, rw), "public class")
    ensures PrepareCode(code, rw) == "public class Main {\n" + RenameFunction(code, rw) + "\n}"
  {
  }

  /** The class step settles its own output: a second pass changes nothing
      wherever the first did not go through the rename rewrite. */
  lemma WrapSolutionClassIdempotent(code: string, rw: Rewrites)
    requires !Contains(code, "public class") || Contains(code, "public class Main")
    ensures WrapSolutionClass(WrapSolutionClass(code, rw), rw) == WrapSolutionClass(code, rw)
  {
    assert "public class " + SolutionClassName == "public class Main";
    if !Contains(code, "public class") {
      var wrapped := "public class Main {\n" + code + "\n}";
      assert WrapSolutionClass(code, rw) == wrapped;
      PrefixOfConcat("public class Main", "public class Main {\n", code + "\n}");
      PrefixOfConcat("public class", "public class Main {\n", code + "\n}");
      assert "public class Main {\n" + (code + "\n}") == wrapped;
    }
  }

  /** A prefix of `a` is a prefix of everything that starts with `a`. */
  lemma PrefixOfConcat(p: string, a: string, b: string)
    requires IsPrefix(p, a)
    ensures IsPrefix(p, a + b) && Contains(a + b, p)
  {
    assert (a + b)[..|p|] == a[..|p|];
  }

  /** No copy of the placeholder survives its replacement by `rep`, for the
      two replacements used: `main` and `Main.main`. */
  lemma PlaceholderRemoved(code: string, rep: string)
    requires rep == MainFunctionName || rep == SolutionClassName + "." + MainFunctionName
    ensures !Contains(ReplaceAll(code, Placeholder, rep), Placeholder)
  {
    forall k | 1 <= k < |Placeholder|
      ensures !Comparable(Placeholder[k..], rep)
    {
      var w := Placeholder[k..];
      assert w[0] == Placeholder[k];
      if w[0] == 'm' {
        assert w[1] == 'e';
      }
    }
    ReplaceAllRemoves(code, Placeholder, rep);
  }

  // ------------------------------------------------------------------ test

  /** The call step of `prepareTestCode`: the placeholder becomes
      `Main.main` everywhere, else calls into `Main` are renamed. */
  function RenameCalls(code: string, rw: Rewrites): (r: string)
    ensures Contains(code, Placeholder) ==> !Contains(r, Placeholder)
    ensures !Contains(code, Placeholder) && !Contains(code, "Main.") ==> r == code
  {
    if Contains(code, Placeholder) then
      PlaceholderRemoved(code, SolutionClassName + "." + MainFunctionName);
      ReplaceAll(code, Placeholder, SolutionClassName + "." + MainFunctionName)
    else if Contains(code, "Main.") then rw.renameCalls(code)
    else code
  }

  /** The method step: a test with a `main(String[] args)` is kept, one
      with some `void` method has its first one turned into `main`, and a
      bare test body is wrapped in a `main` method. */
  function WrapMain(code: string, rw: Rewrites): (r: string)
    ensures Contains(code, MainSignature) || !Contains(code, "void") ==> Contains(r, MainSignature)
  {
    if Contains(code, MainSignature) then code
    else if Contains(code, "void") then rw.replaceVoid(code)
    else
      var wrapped := MainSignature + " {\n" + code + "\n}";
      assert IsPrefix(MainSignature, wrapped);
      wrapped
  }

  /** The class step of `prepareTestCode`, as for the solution but with the
      class `Test`. */
  function WrapTestClass(code: string, rw: Rewrites): (r: string)
    ensures !Contains(code, "public class") || Contains(code, "public class Test") ==> Contains(r, "public class Test")
  {
    assert "public class " + TestClassName == "public class Test";
    if Contains(code, "public class") then
      if Contains(code, "public class " + TestClassName) then code
      else rw.renameTestClass(code)
    else
      var wrapped := "public class " + TestClassName + " {\n" + code + "\n}";
      assert IsPrefix("public class Test", wrapped);
      wrapped
  }

  /** `prepareTestCode`. */
  function PrepareTestCode(code: string, rw: Rewrites): string
  {
    WrapTestClass(WrapMain(RenameCalls(code, rw), rw), rw)
  }

  /** A bare test body that mentions neither `void` nor a public class is
      wrapped first in `main(String[] args)` and then in the class `Test`. */
  lemma WrapsBareTest(code: string, rw: Rewrites)
    requires !Contains(RenameCalls(code, rw), "void")
    requires !Contains(RenameCalls(code, rw), "public class")
    ensures PrepareTestCode(code, rw)
            == "public class Test {\n" + MainSignature + " {\n" + RenameCalls(code, rw) + "\n}" + "\n}"
  {
    var body := RenameCalls(code, rw);
    VoidInSignature(body);
    var method_ := MainSignature + " {\n" + body + "\n}";
    assert WrapMain(body, rw) == method_;
    NoOccurrenceBeforeSuffix(body, "\n}", "public class");
    var header := MainSignature + " {\n";
    NoClassAfterHeader(header, body + "\n}");
    assert header + (body + "\n}") == method_;
    assert WrapTestClass(method_, rw) == "public class Test {\n" + method_ + "\n}";
  }

  /** Text holding the main signature holds `void`. */
  lemma VoidInSignature(s: string)
    ensures Contains(s, MainSignature) ==> Contains(s, "void")
  {
    if Contains(s, MainSignature) {
      InfixContained(s, "public static ", "void", " main(String[] args)");
    }
  }

  /** The `main` header adds no `public class` in front of text without one:
      its only `p` starts `public static`. */
  lemma NoClassAfterHeader(header: string, rest: string)
    requires header == MainSignature + " {\n"
    requires !Contains(rest, "public class")
    ensures !Contains(header + rest, "public class")
  {
    var pat := "public class";
    assert (header + rest)[7] == 's';
    assert !IsPrefix(pat, header + rest);
    NoOccurrenceInPrefix(header[1..], rest, pat);
    assert (header + rest)[1..] == header[1..] + rest;
  }

  // -------------------------------------------------------------- reported

  /** The `preparedCode` that both result paths of `execute` report: the
      prepared solution, the separator line and the prepared test, each
      recoverable at its place. */
  function PreparedCode(code: string, testCode: string, rw: Rewrites): (r: string)
    ensures var solution := PrepareCode(code, rw);
            && |r| == |solution| + |Separator| + |PrepareTestCode(testCode, rw)|
            && r[..|solution|] == solution
            && r[|solution|..|solution| + |Separator|] == Separator
            && r[|solution| + |Separator|..] == PrepareTestCode(testCode, rw)
  {
    var solution := PrepareCode(code, rw);
    var r := solution + Separator + PrepareTestCode(testCode, rw);
    assert r[..|solution|] == solution;
    r
  }

  /** A template solution (a placeholder, no ` main(` and no public class)
      becomes the class `Main` around the code with every placeholder
      replaced by `main`. */
  lemma TemplateSolutionPrepared(code: string, rw: Rewrites)
    requires Contains(code, Placeholder) && !Contains(code, " main(")
    requires !Contains(ReplaceAll(code, Placeholder, MainFunctionName), "public class")
    ensures PrepareCode(code, rw) == "public class Main {\n" + ReplaceAll(code, Placeholder, MainFunctionName) + "\n}"
  {
    var named := ReplaceAll(code, Placeholder, MainFunctionName);
    assert " " + MainFunctionName + "(" == " main(";
    assert RenameFunction(code, rw) == named;
  }
}
