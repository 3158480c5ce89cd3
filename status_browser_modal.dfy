/** The status browser of one criteria bucket: three tabs filtering the
    bucket's entries into complete, skipped and errored ones, the truncated
    error column, and the task-result pop-up selection. */
module StatusBrowserModal {
  import opened Wrappers
  import opened Text
  import opened Seqs
  import opened ResultRecords

  /** The three tab filters, written the way the component writes them. */
  predicate IsCompleteEntry(e: Entry)
  {
    !HasError(e.result) && e.result.score >= 0.0
  }

  predicate IsSkippedEntry(e: Entry)
  {
    !HasError(e.result) && e.result.score < 0.0
  }

  predicate IsErrorEntry(e: Entry)
  {
    HasError(e.result)
  }

  function CompleteEntries(entries: seq<Entry>): seq<Entry>
  {
    Filter(entries, IsCompleteEntry)
  }

  function SkippedEntries(entries: seq<Entry>): seq<Entry>
  {
    Filter(entries, IsSkippedEntry)
  }

  function ErrorEntries(entries: seq<Entry>): seq<Entry>
  {
    Filter(entries, IsErrorEntry)
  }

  /** The entries whose result the shared classifier puts in `o`. */
  function EntriesWithOutcome(entries: seq<Entry>, o: Outcome): seq<Entry>
  {
    Filter(entries, (e: Entry) => Classify(e.result) == o)
  }

  /** Each tab holds exactly the entries the shared classifier assigns to it. */
  lemma TabsFollowClassify(entries: seq<Entry>)
    ensures CompleteEntries(entries) == EntriesWithOutcome(entries, Complete)
    ensures SkippedEntries(entries) == EntriesWithOutcome(entries, Skipped)
    ensures ErrorEntries(entries) == EntriesWithOutcome(entries, Errored)
  {
    FilterExtensional(entries, IsCompleteEntry, (e: Entry) => Classify(e.result) == Complete);
    FilterExtensional(entries, IsSkippedEntry, (e: Entry) => Classify(e.result) == Skipped);
    FilterExtensional(entries, IsErrorEntry, (e: Entry) => Classify(e.result) == Errored);
  }

  predicate ExactlyOne(a: bool, b: bool, c: bool)
  {
    (a && !b && !c) || (!a && b && !c) || (!a && !b && c)
  }

  /** The three tabs partition the entries: together they hold every entry
      exactly as often as the input does, and no entry is in two tabs. */
  lemma TabsPartition(entries: seq<Entry>)
    ensures multiset(CompleteEntries(entries)) + multiset(SkippedEntries(entries))
            + multiset(ErrorEntries(entries)) == multiset(entries)
    ensures forall e :: e in entries ==>
              ExactlyOne(e in CompleteEntries(entries), e in SkippedEntries(entries), e in ErrorEntries(entries))
  {
    var c, s, r := CompleteEntries(entries), SkippedEntries(entries), ErrorEntries(entries);
    FilterMultiset(entries, IsCompleteEntry);
    FilterMultiset(entries, IsSkippedEntry);
    FilterMultiset(entries, IsErrorEntry);
    assert multiset(c) + multiset(s) + multiset(r) == multiset(entries) by {
      forall e ensures (multiset(c) + multiset(s) + multiset(r))[e] == multiset(entries)[e] {
      }
    }
    forall e | e in entries
      ensures ExactlyOne(e in c, e in s, e in r)
    {
      assert multiset(entries)[e] > 0;
      assert (e in c) == (multiset(c)[e] > 0);
      assert (e in s) == (multiset(s)[e] > 0);
      assert (e in r) == (multiset(r)[e] > 0);
    }
  }

  /** The tab titles' counts add up to the number of entries. */
  lemma TabCountsSum(entries: seq<Entry>)
    ensures |CompleteEntries(entries)| + |SkippedEntries(entries)| + |ErrorEntries(entries)| == |entries|
  {
    TabsPartition(entries);
    assert |multiset(CompleteEntries(entries)) + multiset(SkippedEntries(entries))
            + multiset(ErrorEntries(entries))| == |multiset(entries)|;
  }

  /** Every tab lists its entries in the order of the bucket. */
  lemma TabsKeepOrder(entries: seq<Entry>)
    ensures Subsequence(CompleteEntries(entries), entries)
    ensures Subsequence(SkippedEntries(entries), entries)
    ensures Subsequence(ErrorEntries(entries), entries)
  {
    FilterSubsequence(entries, IsCompleteEntry);
    FilterSubsequence(entries, IsSkippedEntry);
    FilterSubsequence(entries, IsErrorEntry);
  }

  const ErrorCellLimit: nat := 100

  /** The error column: at most the first 100 characters of the error with
      "..." after them when something was cut, or 'N/A' without an error.
      `substring(0, 100)` clamps to the string's length. */
  function ErrorCell(error: Option<string>): (cell: string)
    ensures !TruthyText(error) ==> cell == "N/A"
    ensures TruthyText(error) && |error.value| <= ErrorCellLimit ==> cell == error.value
    ensures TruthyText(error) && |error.value| > ErrorCellLimit ==>
              |cell| == ErrorCellLimit + 3 && cell[..ErrorCellLimit] == error.value[..ErrorCellLimit]
              && cell[ErrorCellLimit..] == "..."
  {
    if TruthyText(error) then
      var e := error.value;
      var shown := if |e| <= ErrorCellLimit then e else e[..ErrorCellLimit];
      shown + (if |e| > ErrorCellLimit then "..." else "")
    else "N/A"
  }

  /** The pop-up state: which entry's task result is open, if any. */
  class StatusBrowser {
    var taskModalData: Option<Entry>

    constructor ()
      ensures taskModalData == None
    {
      taskModalData := None;
    }

    /** The task-result pop-up is rendered exactly while an entry is stored. */
    predicate TaskModalOpen()
      reads this
    {
      taskModalData.Some?
    }

    method HandleTaskNameClick(entry: Entry)
      modifies this
      ensures taskModalData == Some(entry)
      ensures TaskModalOpen()
    {
      taskModalData := Some(entry);
    }

    method HandleTaskModalClose()
      modifies this
      ensures taskModalData == None
      ensures !TaskModalOpen()
    {
      taskModalData := None;
    }
  }
}
