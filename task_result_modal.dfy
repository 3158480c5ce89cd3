/** The task-result pop-up: the status icons of one criteria result, and the
    editor language chosen for the attempt's language. The icons are a second
    reading of the same record that the three-way classifier reads, and the
    two do not agree on skipped results. */
module TaskResultModal {
  import opened Wrappers
  import opened Text
  import opened Seqs
  import opened ResultRecords

  datatype Icon = SuccessTick | WarningCross | DangerCross | OutputHelp

  /** Every icon, in the order the pop-up emits them. */
  const IconOrder: seq<Icon> := [SuccessTick, WarningCross, DangerCross, OutputHelp]

  /** When each icon is shown, one condition per icon. */
  predicate IconShown(r: CriteriaResult, i: Icon)
  {
    match i
    case SuccessTick => !HasError(r)
    case WarningCross => r.score < 0.0
    case DangerCross => HasError(r)
    case OutputHelp => TruthyText(r.output)
  }

  /** The icons of `r` by their reference definition: the shown ones, in icon order. */
  function StatusIcons(r: CriteriaResult): seq<Icon>
  {
    Filter(IconOrder, (i: Icon) => IconShown(r, i))
  }

  /** `renderStatusIcons`: the conditional pushes, one after the other. */
  method RenderStatusIcons(r: CriteriaResult) returns (icons: seq<Icon>)
    ensures icons == StatusIcons(r)
    ensures SuccessTick in icons <==> !HasError(r)
    ensures WarningCross in icons <==> r.score < 0.0
    ensures DangerCross in icons <==> HasError(r)
    ensures OutputHelp in icons <==> TruthyText(r.output)
  {
    icons := [];
    if !HasError(r) {
      icons := icons + [SuccessTick];
    }
    if r.score < 0.0 {
      icons := icons + [WarningCross];
    }
    if HasError(r) {
      icons := icons + [DangerCross];
    }
    if TruthyText(r.output) {
      icons := icons + [OutputHelp];
    }
    StatusIconsUnfold(r);
  }

  function When(b: bool, i: Icon): seq<Icon>
  {
    if b then [i] else []
  }

  /** The reference definition taken apart icon by icon. */
  lemma StatusIconsUnfold(r: CriteriaResult)
    ensures StatusIcons(r) == When(IconShown(r, SuccessTick), SuccessTick) + When(IconShown(r, WarningCross), WarningCross)
                              + When(IconShown(r, DangerCross), DangerCross) + When(IconShown(r, OutputHelp), OutputHelp)
  {
    var p := (i: Icon) => IconShown(r, i);
    var s1, s2, s3 := [SuccessTick], [SuccessTick, WarningCross], [SuccessTick, WarningCross, DangerCross];
    assert s1[..0] == [];
    assert Filter(s1, p) == When(p(SuccessTick), SuccessTick);
    assert s2[..1] == s1;
    assert Filter(s2, p) == Filter(s1, p) + When(p(WarningCross), WarningCross);
    assert s3[..2] == s2;
    assert Filter(s3, p) == Filter(s2, p) + When(p(DangerCross), DangerCross);
    assert IconOrder[..3] == s3;
    assert Filter(IconOrder, p) == Filter(s3, p) + When(p(OutputHelp), OutputHelp);
  }

  /** Exactly one of the tick and the danger cross is shown, and the icons
      keep icon order. */
  lemma IconsTickOrDanger(r: CriteriaResult)
    ensures SuccessTick in StatusIcons(r) <==> DangerCross !in StatusIcons(r)
    ensures Subsequence(StatusIcons(r), IconOrder)
  {
    var p := (i: Icon) => IconShown(r, i);
    FilterMultiset(IconOrder, p);
    assert multiset(IconOrder)[SuccessTick] > 0 && multiset(IconOrder)[DangerCross] > 0;
    FilterSubsequence(IconOrder, p);
  }

  /** A result the classifier calls skipped shows the tick and the warning
      cross together; an errored result with a negative score shows both
      crosses; only a complete one shows the tick without any cross. */
  lemma IconsAgainstClassify(r: CriteriaResult)
    ensures Classify(r) == Skipped ==> SuccessTick in StatusIcons(r) && WarningCross in StatusIcons(r)
    ensures Classify(r) == Errored && r.score < 0.0 ==>
              WarningCross in StatusIcons(r) && DangerCross in StatusIcons(r)
    ensures Classify(r) == Complete <==>
              SuccessTick in StatusIcons(r) && WarningCross !in StatusIcons(r) && DangerCross !in StatusIcons(r)
  {
    var p := (i: Icon) => IconShown(r, i);
    FilterMultiset(IconOrder, p);
    assert multiset(IconOrder)[SuccessTick] > 0 && multiset(IconOrder)[WarningCross] > 0
           && multiset(IconOrder)[DangerCross] > 0;
  }

  /** The editor languages the pop-up knows; each maps to itself. */
  const EditorLanguages: seq<string> := ["java", "javascript", "python", "c", "cpp", "csharp", "go", "rust"]

  const PlainText := "plaintext"

  /** `getLanguageForEditor`: the lower-cased name when it is in the table,
      otherwise plain text. */
  function LanguageForEditor(lang: string): (editorLang: string)
    ensures ToLower(lang) in EditorLanguages ==> editorLang == ToLower(lang)
    ensures ToLower(lang) !in EditorLanguages ==> editorLang == PlainText
  {
    var key := ToLower(lang);
    if key in EditorLanguages then key else PlainText
  }

  /** The chosen language is always one the editor knows or plain text, and
      choosing again from it changes nothing. */
  lemma LanguageForEditorStable(lang: string)
    ensures LanguageForEditor(lang) in EditorLanguages + [PlainText]
    ensures LanguageForEditor(LanguageForEditor(lang)) == LanguageForEditor(lang)
  {
    ToLowerIdempotent(lang);
    var l := LanguageForEditor(lang);
    if l == PlainText {
      assert ToLower(PlainText) == PlainText;
    }
  }
}
