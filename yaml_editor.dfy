/** The YAML editor of one file: the text on screen (`content`), the text the
    file had when it was last read or written (`originalContent`), the draft
    overlay it files unsaved text in, and the shell's modified set it reports
    to. Reads and writes of the file are parameters: the text a read resolved
    with or its rejection, and whether a write resolved. */
module YamlEditor {
  import opened Wrappers
  import opened Text
  import opened ModifiedFilesContext
  import opened AppShell

  class Editor {
    const overlay: Overlay
    const app: App
    var directory: string
    var filename: Option<string>
    var content: string
    var originalContent: string
    /** The file's text on the server as this editor last read or wrote it. */
    ghost var saved: string

    constructor (overlay: Overlay, app: App)
      ensures this.overlay == overlay && this.app == app
      ensures filename == None && content == "" && originalContent == "" && saved == ""
    {
      this.overlay := overlay;
      this.app := app;
      directory := "";
      filename := None;
      content := "";
      originalContent := "";
      saved := "";
    }

    /** The baseline a raw edit is compared with is the file's saved text. */
    ghost predicate BaselineIsSaved()
      reads this
    {
      originalContent == saved
    }

    /** The Save button's `disabled`. */
    predicate SaveDisabled()
      reads this, app
    {
      !IsModifiedFor(app.modifiedFiles, filename)
    }

    /** The load-on-select effect as written: with a draft, no read is made
        and only `content` changes, so `originalContent` is still the
        previously shown file's. Without a draft the file is read; a rejected
        read stops `loadFile` before either text is set, so the previous
        file's text and baseline stay on screen. `read` is what the read gives
        (on the draft path, what it would give: the file's text on the server). */
    method SelectAsWritten(directory: string, filename: Option<string>, read: Result<string, string>)
      requires overlay.Valid()
      modifies this
      ensures this.directory == directory && this.filename == filename
      ensures TruthyText(filename) && Lookup(overlay.drafts, directory, filename.value).Some? ==>
                content == Lookup(overlay.drafts, directory, filename.value).value
                && originalContent == old(originalContent)
      ensures TruthyText(filename) && Lookup(overlay.drafts, directory, filename.value).None? && read.Success? ==>
                content == read.value && originalContent == read.value
      ensures TruthyText(filename) && Lookup(overlay.drafts, directory, filename.value).None? && read.Failure? ==>
                content == old(content) && originalContent == old(originalContent)
      ensures TruthyText(filename) ==> saved == (if read.Success? then read.value else old(saved))
      ensures !TruthyText(filename) ==> content == "" && originalContent == "" && saved == ""
    {
      this.directory := directory;
      this.filename := filename;
      if TruthyText(filename) {
        if read.Success? {
          saved := read.value;
        }
        var draft := overlay.GetModifiedContent(directory, filename.value);
        if draft.Some? {
          content := draft.value;
        } else if read.Success? {
          content := read.value;
          originalContent := read.value;
        }
      } else {
        content := "";
        originalContent := "";
        saved := "";
      }
    }

    /** The load-on-select effect with the file read on both paths: the draft
        is shown when there is one, and a resolved read always sets the
        baseline to the file's text. A rejected read sets neither text, as in
        `loadFile`, so only a draft, when there is one, reaches the screen. */
    method Select(directory: string, filename: Option<string>, read: Result<string, string>)
      requires overlay.Valid()
      modifies this
      ensures this.directory == directory && this.filename == filename
      ensures read.Success? || !TruthyText(filename) ==> BaselineIsSaved()
      ensures old(BaselineIsSaved()) ==> BaselineIsSaved()
      ensures TruthyText(filename) && Lookup(overlay.drafts, directory, filename.value).Some? ==>
                content == Lookup(overlay.drafts, directory, filename.value).value
      ensures TruthyText(filename) && Lookup(overlay.drafts, directory, filename.value).None? ==>
                content == (if read.Success? then read.value else old(content))
      ensures TruthyText(filename) ==>
                originalContent == (if read.Success? then read.value else old(originalContent))
      ensures !TruthyText(filename) ==> content == "" && originalContent == ""
    {
      this.directory := directory;
      this.filename := filename;
      if TruthyText(filename) {
        if read.Success? {
          saved := read.value;
          originalContent := read.value;
        }
        var draft := overlay.GetModifiedContent(directory, filename.value);
        if draft.Some? {
          content := draft.value;
        } else if read.Success? {
          content := read.value;
        }
      } else {
        content := "";
        originalContent := "";
        saved := "";
      }
    }

    /** `handleSave`: when the write resolves, the saved text becomes the
        baseline, the draft is dropped and the file reported unmodified; a
        rejected write changes none of the three. */
    method HandleSave(writeResolved: bool)
      requires overlay.Valid()
      modifies this, overlay, overlay.modifiedFiles.Values, app
      ensures overlay.Valid()
      ensures content == old(content) && filename == old(filename) && directory == old(directory)
      ensures TruthyText(filename) && writeResolved ==>
                originalContent == content && saved == content
                && overlay.drafts == Cleared(old(overlay.drafts), directory, filename.value)
                && app.modifiedFiles == old(app.modifiedFiles) - {filename.value}
                && SaveDisabled()
      ensures !TruthyText(filename) || !writeResolved ==>
                originalContent == old(originalContent) && saved == old(saved)
                && overlay.drafts == old(overlay.drafts) && app.modifiedFiles == old(app.modifiedFiles)
      ensures app.selectedFile == old(app.selectedFile) && app.activeSection == old(app.activeSection)
    {
      if !TruthyText(filename) || !writeResolved {
        return;
      }
      saved := content;
      originalContent := content;
      overlay.ClearModifiedContent(directory, filename.value);
      app.HandleFileModified(filename.value, false);
    }

    /** Files `newText` as the draft and reports `modified` for the file. */
    method FileDraft(newText: string, modified: bool)
      requires TruthyText(filename) && overlay.Valid()
      modifies this, overlay, app
      ensures overlay.Valid()
      ensures content == newText
      ensures originalContent == old(originalContent) && saved == old(saved)
      ensures filename == old(filename) && directory == old(directory)
      ensures overlay.drafts == Stored(old(overlay.drafts), directory, filename.value, newText)
      ensures app.modifiedFiles == Marked(old(app.modifiedFiles), filename.value, modified)
      ensures app.selectedFile == old(app.selectedFile) && app.activeSection == old(app.activeSection)
    {
      content := newText;
      overlay.SetModifiedContent(directory, filename.value, newText);
      app.HandleFileModified(filename.value, modified);
    }

    /** The raw editor's `onChange`: an empty or missing value is ignored;
        otherwise the draft is filed and the file is reported modified exactly
        when the text differs from the baseline. */
    method RawChange(value: Option<string>)
      requires TruthyText(filename) && overlay.Valid()
      modifies this, overlay, app
      ensures filename == old(filename) && directory == old(directory)
      ensures overlay.Valid()
      ensures !TruthyText(value) ==>
                content == old(content) && overlay.drafts == old(overlay.drafts)
                && app.modifiedFiles == old(app.modifiedFiles)
      ensures TruthyText(value) ==>
                content == value.value
                && Lookup(overlay.drafts, directory, filename.value) == Some(value.value)
                && (filename.value in app.modifiedFiles <==> value.value != originalContent)
      ensures BaselineIsSaved() ==> TruthyText(value) ==>
                (filename.value in app.modifiedFiles <==> value.value != saved)
      ensures originalContent == old(originalContent) && saved == old(saved)
    {
      if !TruthyText(value) {
        return;
      }
      FileDraft(value.value, value.value != originalContent);
    }

    /** The form editors' `onContentChange`: the draft is filed and the file is
        always reported modified, even when the text equals the baseline. */
    method FormChange(newContent: string)
      requires TruthyText(filename) && overlay.Valid()
      modifies this, overlay, app
      ensures filename == old(filename) && directory == old(directory)
      ensures overlay.Valid()
      ensures content == newContent
      ensures Lookup(overlay.drafts, directory, filename.value) == Some(newContent)
      ensures filename.value in app.modifiedFiles && !SaveDisabled()
      ensures originalContent == old(originalContent) && saved == old(saved)
    {
      FileDraft(newContent, true);
    }

    /** `handleContentChange`: a missing value counts as ''; without a file
        only the text on screen changes. */
    method HandleContentChange(value: Option<string>)
      requires overlay.Valid()
      modifies this, overlay, app
      ensures overlay.Valid()
      ensures content == value.GetOr("")
      ensures !TruthyText(filename) ==>
                overlay.drafts == old(overlay.drafts) && app.modifiedFiles == old(app.modifiedFiles)
      ensures TruthyText(filename) ==>
                Lookup(overlay.drafts, directory, filename.value) == Some(content)
                && (filename.value in app.modifiedFiles <==> content != originalContent)
      ensures originalContent == old(originalContent) && saved == old(saved)
      ensures filename == old(filename) && directory == old(directory)
    {
      var v := value.GetOr("");
      if TruthyText(filename) {
        FileDraft(v, v != originalContent);
      } else {
        content := v;
      }
    }
  }

  /** The as-written select leaves a wrong baseline behind: after viewing
      "a.yaml" (saved text "x: 1") and selecting "b.yaml" (saved text
      "y: 0") whose draft exists, typing "x: 1" in the raw editor leaves a
      draft that differs from the saved file, yet the file is reported
      unmodified and Save is disabled. */
  method StaleBaselineAfterDraftSelect() returns (draft: Option<string>, saveDisabled: bool)
    ensures draft == Some("x: 1") && saveDisabled
  {
    var overlay := new Overlay();
    var app := new App();
    var editor := new Editor(overlay, app);
    editor.SelectAsWritten("exec_configs", Some("a.yaml"), Success("x: 1"));
    overlay.SetModifiedContent("exec_configs", "b.yaml", "z: 2");
    editor.SelectAsWritten("exec_configs", Some("b.yaml"), Success("y: 0"));
    editor.RawChange(Some("x: 1"));
    draft := overlay.GetModifiedContent("exec_configs", "b.yaml");
    assert editor.saved == "y: 0";
    saveDisabled := editor.SaveDisabled();
  }
}
