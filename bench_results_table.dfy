/** The results table: five case-insensitive substring filters, ANDed, over
    the rows of the results view; pages of 100 rows; the status column; and
    the Previous/Next guards around the page counter. */
module BenchResultsTable {
  import opened Wrappers
  import opened Text
  import opened Seqs
  import opened BenchResultsView

  /** The five filter inputs; an empty one does not filter. */
  datatype Filters = Filters(taskSource: string, taskName: string, language: string, domain: string, difficulty: string)

  const NoFilters := Filters("", "", "", "", "")

  /** `!f || field.toLowerCase().includes(f.toLowerCase())`. */
  predicate FieldMatches(field: string, f: string)
  {
    f == "" || ContainsIgnoringCase(field, f)
  }

  /** `languages.some(l => ...)` for a non-empty filter. */
  function SomeLanguageMatches(languages: seq<string>, f: string): (b: bool)
    ensures b <==> exists i :: 0 <= i < |languages| && ContainsIgnoringCase(languages[i], f)
    decreases |languages|
  {
    if languages == [] then false
    else SomeLanguageMatches(languages[..|languages| - 1], f) || ContainsIgnoringCase(languages[|languages| - 1], f)
  }

  /** The row predicate of the table's `filter`. */
  predicate Passes(filters: Filters, r: Row)
  {
    FieldMatches(r.taskSourceName, filters.taskSource)
    && FieldMatches(r.taskName, filters.taskName)
    && (filters.language == "" || SomeLanguageMatches(r.languages, filters.language))
    && FieldMatches(r.domain, filters.domain)
    && FieldMatches(r.difficulty, filters.difficulty)
  }

  /** The rows that pass every filter, in their original order; a row passes
      exactly when each non-empty filter occurs, ignoring case, in its field,
      and the language filter in at least one of its languages. */
  function FilteredResults(results: seq<Row>, filters: Filters): (out: seq<Row>)
    ensures Subsequence(out, results)
    ensures |out| <= |results|
    ensures forall r :: r in results ==> (r in out <==> Passes(filters, r))
    ensures forall r :: r in out ==>
              (filters.taskSource == "" || ContainsIgnoringCase(r.taskSourceName, filters.taskSource))
              && (filters.taskName == "" || ContainsIgnoringCase(r.taskName, filters.taskName))
              && (filters.language == "" || exists i :: 0 <= i < |r.languages| && ContainsIgnoringCase(r.languages[i], filters.language))
              && (filters.domain == "" || ContainsIgnoringCase(r.domain, filters.domain))
              && (filters.difficulty == "" || ContainsIgnoringCase(r.difficulty, filters.difficulty))
  {
    var p := (r: Row) => Passes(filters, r);
    FilterSubsequence(results, p);
    FilterMultiset(results, p);
    assert forall r :: r in results ==> (r in Filter(results, p) <==> multiset(Filter(results, p))[r] > 0);
    Filter(results, p)
  }

  /** With every filter empty the table shows every row. */
  lemma NoFiltersKeepAll(results: seq<Row>)
    ensures FilteredResults(results, NoFilters) == results
  {
    FilterAll(results, (r: Row) => Passes(NoFilters, r));
  }

  const PageSize: nat := 100

  /** `Math.ceil(n / 100)`: the fewest pages of 100 that hold `n` rows. */
  function TotalPages(n: nat): (t: nat)
    ensures PageSize * t >= n
    ensures t > 0 ==> PageSize * (t - 1) < n
    ensures t == 0 <==> n == 0
  {
    (n + PageSize - 1) / PageSize
  }

  function Min(a: nat, b: nat): nat
  {
    if a <= b then a else b
  }

  /** `slice(p * 100, (p + 1) * 100)`, both bounds clamped to the length. */
  function Page(rows: seq<Row>, p: nat): (page: seq<Row>)
    ensures |page| <= PageSize
    ensures PageSize * p >= |rows| ==> page == []
    ensures PageSize * p < |rows| ==>
              PageSize * p + |page| <= |rows|
              && forall i :: 0 <= i < |page| ==> page[i] == rows[PageSize * p + i]
    ensures PageSize * (p + 1) <= |rows| ==> |page| == PageSize
  {
    rows[Min(PageSize * p, |rows|)..Min(PageSize * (p + 1), |rows|)]
  }

  /** Pages 0 to k - 1, one after the other. */
  function PagesUpTo(rows: seq<Row>, k: nat): seq<Row>
    decreases k
  {
    if k == 0 then [] else PagesUpTo(rows, k - 1) + Page(rows, k - 1)
  }

  /** The first k pages are the first 100 k rows. */
  lemma {:induction false} PagesUpToPrefix(rows: seq<Row>, k: nat)
    ensures PagesUpTo(rows, k) == rows[..Min(PageSize * k, |rows|)]
    decreases k
  {
    if k > 0 {
      PagesUpToPrefix(rows, k - 1);
      var a, b := Min(PageSize * (k - 1), |rows|), Min(PageSize * k, |rows|);
      assert rows[..a] + rows[a..b] == rows[..b];
    }
  }

  /** Paging loses and repeats nothing: all pages together are the list. */
  lemma PagesCoverAll(rows: seq<Row>)
    ensures PagesUpTo(rows, TotalPages(|rows|)) == rows
  {
    PagesUpToPrefix(rows, TotalPages(|rows|));
  }

  const SkippedLabel := "Skipped"
  const HasErrorsLabel := "Has Errors"
  const CompletedLabel := "Completed"

  /** The status column; a skipped row is labelled skipped even when it has errors. */
  function StatusLabel(r: Row): (status: string)
    ensures status == SkippedLabel <==> r.isSkipped
    ensures status == HasErrorsLabel <==> !r.isSkipped && r.hasErrors
    ensures status == CompletedLabel <==> !r.isSkipped && !r.hasErrors
  {
    if r.isSkipped then SkippedLabel else if r.hasErrors then HasErrorsLabel else CompletedLabel
  }

  /** The Previous button's `disabled`. */
  predicate PreviousDisabled(currentPage: int)
  {
    currentPage == 0
  }

  /** The Next button's `disabled` as written: only on the last page exactly. */
  predicate NextDisabledAsWritten(currentPage: int, totalPages: nat)
  {
    currentPage == totalPages - 1
  }

  /** With no rows there is no page, so the as-written guard leaves Next
      enabled on the first page and a click leads past the end; the same
      happens on any page beyond the last, which stays selected when a filter
      shrinks the list. */
  lemma NextGuardAsWrittenOverruns(rows: seq<Row>, currentPage: nat)
    requires PageSize * currentPage >= |rows|
    requires currentPage != TotalPages(|rows|) - 1
    ensures !NextDisabledAsWritten(currentPage, TotalPages(|rows|))
    ensures currentPage + 1 > TotalPages(|rows|) && Page(rows, currentPage + 1) == []
  {
  }

  /** Next disabled from the last page on. */
  predicate NextDisabled(currentPage: int, totalPages: nat)
  {
    currentPage + 1 >= totalPages
  }

  /** The guards agree wherever the page exists, and the corrected one never
      lets Next leave the existing pages. */
  lemma NextGuardCorrected(currentPage: nat, totalPages: nat)
    ensures currentPage < totalPages ==>
              (NextDisabled(currentPage, totalPages) <==> NextDisabledAsWritten(currentPage, totalPages))
    ensures !NextDisabled(currentPage, totalPages) ==> currentPage + 1 < totalPages
  {
  }

  /** The table's own state: the filter inputs, the page counter and the row
      whose details are open. */
  class ResultsTable {
    var filters: Filters
    var currentPage: nat
    var selectedTask: Option<Row>

    constructor ()
      ensures filters == NoFilters && currentPage == 0 && selectedTask == None
    {
      filters := NoFilters;
      currentPage := 0;
      selectedTask := None;
    }

    /** The rows on screen for `results`. */
    function Visible(results: seq<Row>): seq<Row>
      reads this
    {
      Page(FilteredResults(results, filters), currentPage)
    }

    /** Typing into a filter input replaces the whole filter record; the page
        counter is left where it was. */
    method SetFilters(f: Filters)
      modifies this
      ensures filters == f
      ensures currentPage == old(currentPage) && selectedTask == old(selectedTask)
    {
      filters := f;
    }

    /** Previous, clickable only while not disabled. */
    method PreviousPage()
      requires !PreviousDisabled(currentPage)
      modifies this
      ensures currentPage == old(currentPage) - 1
      ensures filters == old(filters) && selectedTask == old(selectedTask)
    {
      currentPage := currentPage - 1;
    }

    /** Next, clickable only while not disabled by the corrected guard: from
        an existing page it always reaches an existing page. */
    method NextPage(results: seq<Row>)
      requires !NextDisabled(currentPage, TotalPages(|FilteredResults(results, filters)|))
      modifies this
      ensures currentPage == old(currentPage) + 1
      ensures currentPage < TotalPages(|FilteredResults(results, filters)|)
      ensures filters == old(filters) && selectedTask == old(selectedTask)
    {
      currentPage := currentPage + 1;
    }

    method ShowDetails(r: Row)
      modifies this
      ensures selectedTask == Some(r)
      ensures filters == old(filters) && currentPage == old(currentPage)
    {
      selectedTask := Some(r);
    }

    method CloseDetails()
      modifies this
      ensures selectedTask == None
      ensures filters == old(filters) && currentPage == old(currentPage)
    {
      selectedTask := None;
    }
  }
}
