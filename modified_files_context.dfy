/** The draft overlay shared by the editors: directory -> filename -> unsaved
    content. `Lookup`, `Stored` and `Cleared` are the overlay as a value; the
    `Overlay` class is the provider's state, whose inner records are objects
    because `clear` deletes from the inner record in place. */
module ModifiedFilesContext {
  import opened Wrappers

  type Drafts = map<string, map<string, string>>

  /** `modifiedFiles[directory]?.[filename] ?? null`. */
  function Lookup(m: Drafts, directory: string, filename: string): (r: Option<string>)
    ensures r.Some? <==> directory in m && filename in m[directory]
    ensures r.Some? ==> r.value == m[directory][filename]
  {
    if directory in m && filename in m[directory] then Some(m[directory][filename]) else None
  }

  /** The overlay after `setModifiedContent`: a new inner record with the
      directory's other drafts spread into it. */
  function Stored(m: Drafts, directory: string, filename: string, content: string): Drafts
  {
    m[directory := (if directory in m then m[directory] else map[])[filename := content]]
  }

  /** The overlay after `clearModifiedContent`: the file's draft removed, and
      the directory with it when that was its last draft. */
  function Cleared(m: Drafts, directory: string, filename: string): Drafts
  {
    if directory in m then
      var inner := m[directory] - {filename};
      if |inner| == 0 then m - {directory} else m[directory := inner]
    else m
  }

  /** No directory is kept without drafts. */
  predicate NoEmptyDirectory(m: Drafts)
  {
    forall d :: d in m ==> |m[d]| > 0
  }

  lemma LookupAfterStore(m: Drafts, d: string, f: string, c: string)
    ensures Lookup(Stored(m, d, f, c), d, f) == Some(c)
  {
  }

  /** Storing one draft leaves every other draft as it was. */
  lemma StoreFrame(m: Drafts, d: string, f: string, c: string, d': string, f': string)
    requires d' != d || f' != f
    ensures Lookup(Stored(m, d, f, c), d', f') == Lookup(m, d', f')
  {
  }

  lemma StoreIdempotent(m: Drafts, d: string, f: string, c: string)
    ensures Stored(Stored(m, d, f, c), d, f, c) == Stored(m, d, f, c)
  {
    var inner := (if d in m then m[d] else map[])[f := c];
    assert inner[f := c] == inner;
  }

  lemma LookupAfterClear(m: Drafts, d: string, f: string)
    ensures Lookup(Cleared(m, d, f), d, f) == None
  {
  }

  /** Clearing one draft leaves every other draft as it was, and clearing in
      a directory without drafts changes nothing. */
  lemma ClearFrame(m: Drafts, d: string, f: string, d': string, f': string)
    requires d' != d || f' != f
    ensures Lookup(Cleared(m, d, f), d', f') == Lookup(m, d', f')
    ensures d !in m ==> Cleared(m, d, f) == m
  {
  }

  /** Both updates keep the overlay free of empty directories. */
  lemma NoEmptyDirectoryKept(m: Drafts, d: string, f: string, c: string)
    requires NoEmptyDirectory(m)
    ensures NoEmptyDirectory(Stored(m, d, f, c))
    ensures NoEmptyDirectory(Cleared(m, d, f))
  {
    var inner := (if d in m then m[d] else map[])[f := c];
    assert f in inner;
  }

  /** One directory's drafts, the inner record. */
  class DirectoryDrafts {
    var files: map<string, string>
    /** The directory this record was made for. */
    ghost const directory: string

    constructor (directory: string, files: map<string, string>)
      ensures this.directory == directory && this.files == files
    {
      this.directory := directory;
      this.files := files;
    }

    /** `delete record[filename]`, in place. */
    method Delete(filename: string)
      modifies this
      ensures files == old(files) - {filename}
    {
      files := files - {filename};
    }
  }

  /** The provider's state: the outer record maps each directory to its own
      inner record; `drafts` is the overlay those records hold, as a value. */
  class Overlay {
    var modifiedFiles: map<string, DirectoryDrafts>
    ghost var drafts: Drafts

    /** `drafts` is what the records hold, and each directory's record was
        made for that directory, so no two directories share an inner record
        and an in-place edit of one directory's record touches no other. */
    ghost predicate Valid()
      reads this, modifiedFiles.Values
    {
      && modifiedFiles.Keys == drafts.Keys
      && (forall d :: d in modifiedFiles ==> modifiedFiles[d].files == drafts[d] && modifiedFiles[d].directory == d)
    }

    constructor ()
      ensures Valid() && drafts == map[]
    {
      modifiedFiles := map[];
      drafts := map[];
    }

    /** `getModifiedContent`. */
    function GetModifiedContent(directory: string, filename: string): (r: Option<string>)
      requires Valid()
      reads this, modifiedFiles.Values
      ensures r == Lookup(drafts, directory, filename)
    {
      if directory in modifiedFiles && filename in modifiedFiles[directory].files
      then Some(modifiedFiles[directory].files[filename])
      else None
    }

    /** `setModifiedContent`: a fresh inner record replaces the directory's. */
    method SetModifiedContent(directory: string, filename: string, content: string)
      requires Valid()
      modifies this
      ensures Valid()
      ensures drafts == Stored(old(drafts), directory, filename, content)
      ensures directory in modifiedFiles && fresh(modifiedFiles[directory])
    {
      var inner := if directory in modifiedFiles then modifiedFiles[directory].files else map[];
      var record := new DirectoryDrafts(directory, inner[filename := content]);
      modifiedFiles := modifiedFiles[directory := record];
      drafts := Stored(drafts, directory, filename, content);
    }

    /** `clearModifiedContent`: the outer record is copied, but the draft is
        deleted from the inner record that the previous outer record also
        holds, so the previous state sees the deletion too. */
    method ClearModifiedContent(directory: string, filename: string)
      requires Valid()
      modifies this, if directory in modifiedFiles then {modifiedFiles[directory]} else {}
      ensures Valid()
      ensures drafts == Cleared(old(drafts), directory, filename)
      ensures directory in old(modifiedFiles) ==>
                old(modifiedFiles)[directory].files == old(modifiedFiles[directory].files) - {filename}
    {
      var newState := modifiedFiles;
      if directory !in newState {
        return;
      }
      var record := newState[directory];
      record.Delete(filename);
      if |record.files| == 0 {
        newState := newState - {directory};
      }
      modifiedFiles := newState;
      drafts := Cleared(drafts, directory, filename);
    }
  }
}
