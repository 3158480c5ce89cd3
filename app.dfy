/** The application shell: the active section, the selected file and the one
    set of modified filenames that all three sections share. */
module AppShell {
  import opened Wrappers
  import opened Text

  datatype Section = ExecConfigs | TaskSources | BenchResults

  /** The directory name each section lists and edits. */
  function SectionDirectory(s: Section): string
  {
    match s
    case ExecConfigs => "exec_configs"
    case TaskSources => "task_sources"
    case BenchResults => "bench_results"
  }

  /** A set after `add(x)` when `on`, after `delete(x)` otherwise. */
  function Marked<T>(s: set<T>, x: T, on: bool): set<T>
  {
    if on then s + {x} else s - {x}
  }

  /** After marking, `x` is in the set exactly when it was marked on, and
      every other element is where it was. */
  lemma MarkedMeaning<T>(s: set<T>, x: T, on: bool, y: T)
    ensures x in Marked(s, x, on) <==> on
    ensures y != x ==> (y in Marked(s, x, on) <==> y in s)
  {
  }

  lemma MarkedIdempotent<T>(s: set<T>, x: T, on: bool)
    ensures Marked(Marked(s, x, on), x, on) == Marked(s, x, on)
  {
  }

  /** The later of two marks of the same element wins. */
  lemma MarkedLastWins<T>(s: set<T>, x: T, on: bool, on': bool)
    ensures Marked(Marked(s, x, on), x, on') == Marked(s, x, on')
  {
  }

  /** The editor's `isModified`: a file is selected and its name is in the set. */
  function IsModifiedFor(modifiedFiles: set<string>, selectedFile: Option<string>): (b: bool)
    ensures selectedFile.None? || selectedFile == Some("") ==> !b
    ensures selectedFile.Some? && selectedFile.value != "" ==> (b <==> selectedFile.value in modifiedFiles)
  {
    if TruthyText(selectedFile) then selectedFile.value in modifiedFiles else false
  }

  class App {
    var activeSection: Section
    var selectedFile: Option<string>
    /** Keyed by filename only, whatever the section. */
    var modifiedFiles: set<string>

    constructor ()
      ensures activeSection == ExecConfigs && selectedFile == None && modifiedFiles == {}
    {
      activeSection := ExecConfigs;
      selectedFile := None;
      modifiedFiles := {};
    }

    /** `handleFileModified`. */
    method HandleFileModified(filename: string, isModified: bool)
      modifies this
      ensures modifiedFiles == Marked(old(modifiedFiles), filename, isModified)
      ensures filename in modifiedFiles <==> isModified
      ensures activeSection == old(activeSection) && selectedFile == old(selectedFile)
    {
      var next := modifiedFiles;
      if isModified {
        next := next + {filename};
      } else {
        next := next - {filename};
      }
      modifiedFiles := next;
    }

    /** A section header click; the selected file is kept, so the editor is
        then given the same filename in the new section's directory. */
    method SetActiveSection(s: Section)
      modifies this
      ensures activeSection == s
      ensures selectedFile == old(selectedFile) && modifiedFiles == old(modifiedFiles)
    {
      activeSection := s;
    }

    /** A file list's `onFileSelect`. */
    method SelectFile(f: string)
      modifies this
      ensures selectedFile == Some(f)
      ensures activeSection == old(activeSection) && modifiedFiles == old(modifiedFiles)
    {
      selectedFile := Some(f);
    }

    /** What the editor is told. */
    function EditorIsModified(): bool
      reads this
    {
      IsModifiedFor(modifiedFiles, selectedFile)
    }
  }
}
