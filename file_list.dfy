/** One section's file list: the files of the directory, the set of files
    ticked for an action, and the delete and download actions over that set.
    The HTTP calls are recorded as the sequence of names they are issued for. */
module FileList {
  import opened Wrappers
  import opened AppShell

  /** What `api.listFiles` resolves to: an array of names or anything else. */
  datatype Listing = NotArray | Names(names: seq<string>)

  /** The file names `loadFiles` keeps: none after a failed or non-array listing. */
  function LoadedFiles(listing: Result<Listing, string>): (files: seq<string>)
    ensures listing.Success? && listing.value.Names? ==> files == listing.value.names
    ensures listing.Failure? || listing.value.NotArray? ==> files == []
  {
    if listing.Success? && listing.value.Names? then listing.value.names else []
  }

  const ModifiedMarker := "*"

  /** The marker after a file's name. */
  function Marker(filename: string, modifiedFiles: set<string>): (m: string)
    ensures m == ModifiedMarker <==> filename in modifiedFiles
    ensures m == "" <==> filename !in modifiedFiles
  {
    if filename in modifiedFiles then ModifiedMarker else ""
  }

  predicate DeleteDisabled(selectedForAction: set<string>)
  {
    |selectedForAction| == 0
  }

  /** The Download button is disabled while some ticked file has unsaved changes. */
  predicate DownloadDisabled(selectedForAction: set<string>, modifiedFiles: set<string>)
  {
    exists f :: f in selectedForAction && f in modifiedFiles
  }

  predicate NoDuplicates(s: seq<string>)
  {
    forall i, j :: 0 <= i < j < |s| ==> s[i] != s[j]
  }

  /** Appending a new element keeps a list free of duplicates. */
  lemma NoDuplicatesSnoc(s: seq<string>, x: string)
    requires NoDuplicates(s) && x !in s
    ensures NoDuplicates(s + [x])
  {
    forall i, j | 0 <= i < j < |s + [x]|
      ensures (s + [x])[i] != (s + [x])[j]
    {
      if j == |s| {
        assert (s + [x])[i] == s[i];
      }
    }
  }

  /** The `for ... of` over the ticked files with each `deleteFile` awaited:
      requests go out one per file until one is rejected, which ends the loop. */
  method SendDeletes(ticked: set<string>, deleteResolves: string -> bool) returns (requested: seq<string>, rejected: bool)
    ensures NoDuplicates(requested) && (forall f :: f in requested ==> f in ticked)
    ensures forall i :: 0 <= i < |requested| - 1 ==> deleteResolves(requested[i])
    ensures rejected <==> requested != [] && !deleteResolves(requested[|requested| - 1])
    ensures rejected <==> exists f :: f in ticked && !deleteResolves(f)
    ensures !rejected ==> (forall f :: f in requested <==> f in ticked) && |requested| == |ticked|
  {
    requested := [];
    var remaining := ticked;
    rejected := false;
    while remaining != {} && !rejected
      invariant remaining <= ticked
      invariant forall f :: f in requested ==> f in ticked && f !in remaining
      invariant !rejected ==> forall f :: f in ticked ==> f in requested || f in remaining
      invariant NoDuplicates(requested)
      invariant !rejected ==> |requested| + |remaining| == |ticked|
      invariant forall i :: 0 <= i < |requested| - 1 ==> deleteResolves(requested[i])
      invariant rejected <==> requested != [] && !deleteResolves(requested[|requested| - 1])
      decreases |remaining|
    {
      var f :| f in remaining;
      NoDuplicatesSnoc(requested, f);
      requested := requested + [f];
      remaining := remaining - {f};
      rejected := !deleteResolves(f);
    }
    if !rejected {
      forall f | f in ticked
        ensures deleteResolves(f)
      {
        var i :| 0 <= i < |requested| && requested[i] == f;
        if i < |requested| - 1 {
          assert deleteResolves(requested[i]);
        }
      }
    }
  }

  class FileListView {
    const directory: string
    var files: seq<string>
    var selectedForAction: set<string>

    constructor (directory: string)
      ensures this.directory == directory && files == [] && selectedForAction == {}
    {
      this.directory := directory;
      files := [];
      selectedForAction := {};
    }

    /** `loadFiles`, given what the listing request produced. */
    method LoadFiles(listing: Result<Listing, string>)
      modifies this
      ensures files == LoadedFiles(listing)
      ensures selectedForAction == old(selectedForAction)
    {
      if listing.Success? && listing.value.Names? {
        files := listing.value.names;
      } else {
        files := [];
      }
    }

    /** `handleCheckboxChange`. */
    method HandleCheckboxChange(filename: string, isChecked: bool)
      modifies this
      ensures selectedForAction == Marked(old(selectedForAction), filename, isChecked)
      ensures filename in selectedForAction <==> isChecked
      ensures files == old(files)
    {
      var next := selectedForAction;
      if isChecked {
        next := next + {filename};
      } else {
        next := next - {filename};
      }
      selectedForAction := next;
    }

    /** `handleDelete`: nothing without ticked files or without confirmation;
        otherwise one delete request per ticked file, awaited in turn, where
        `deleteResolves` says which requests succeed. A rejected request
        ends the handler at once, with the selection and the list as they
        were. When every request succeeds the selection is emptied and the
        list reloaded with what the new listing request produced. */
    method HandleDelete(confirmed: bool, deleteResolves: string -> bool, listing: Result<Listing, string>)
      returns (requested: seq<string>)
      modifies this
      ensures DeleteDisabled(old(selectedForAction)) || !confirmed ==>
                requested == [] && selectedForAction == old(selectedForAction) && files == old(files)
      ensures !DeleteDisabled(old(selectedForAction)) && confirmed ==>
                NoDuplicates(requested) && (forall f :: f in requested ==> f in old(selectedForAction))
                && (forall i :: 0 <= i < |requested| - 1 ==> deleteResolves(requested[i]))
      ensures !DeleteDisabled(old(selectedForAction)) && confirmed && (forall f :: f in old(selectedForAction) ==> deleteResolves(f)) ==>
                (forall f :: f in requested <==> f in old(selectedForAction)) && |requested| == |old(selectedForAction)|
                && selectedForAction == {} && files == LoadedFiles(listing)
      ensures !DeleteDisabled(old(selectedForAction)) && confirmed && !(forall f :: f in old(selectedForAction) ==> deleteResolves(f)) ==>
                requested != [] && !deleteResolves(requested[|requested| - 1])
                && selectedForAction == old(selectedForAction) && files == old(files)
    {
      requested := [];
      if |selectedForAction| == 0 {
        return;
      }
      if confirmed {
        var rejected;
        requested, rejected := SendDeletes(selectedForAction, deleteResolves);
        if rejected {
          return;
        }
        selectedForAction := {};
        LoadFiles(listing);
      }
    }

    /** `handleDownload`: one download per ticked file without unsaved changes. */
    method HandleDownload(modifiedFiles: set<string>) returns (downloaded: seq<string>)
      ensures forall f :: f in downloaded <==> f in selectedForAction && f !in modifiedFiles
      ensures NoDuplicates(downloaded)
      ensures !DownloadDisabled(selectedForAction, modifiedFiles) ==> |downloaded| == |selectedForAction|
    {
      downloaded := [];
      var remaining := selectedForAction;
      ghost var skipped: set<string> := {};
      while remaining != {}
        invariant remaining <= selectedForAction
        invariant forall f :: f in downloaded <==> f in selectedForAction - remaining && f !in modifiedFiles
        invariant skipped == (selectedForAction - remaining) * modifiedFiles
        invariant NoDuplicates(downloaded)
        invariant |downloaded| + |skipped| + |remaining| == |selectedForAction|
        decreases |remaining|
      {
        var f :| f in remaining;
        if f !in modifiedFiles {
          NoDuplicatesSnoc(downloaded, f);
          downloaded := downloaded + [f];
        } else {
          skipped := skipped + {f};
        }
        remaining := remaining - {f};
      }
      if !DownloadDisabled(selectedForAction, modifiedFiles) {
        assert skipped == {};
      }
    }
  }
}
