/** The benchmark progress dialog: a poller that reads the run's status file
    every tick until every task source is done, and one progress row per task
    source. The timer is modelled as the sequence of calls to `Tick`; what a
    tick's read and `JSON.parse` produced is its parameter. */
module StatusDialog {
  import opened Wrappers
  import opened Seqs

  /** One task source's counters as the dialog reads them. */
  datatype Status = Status(taskSource: string, total: int, completed: int, inProgress: int, filteredOut: int, error: int)

  /** The parsed status document; `taskSources` is `task_sources`, possibly absent. */
  datatype StatusDocument = StatusDocument(taskSources: Option<seq<Status>>)

  predicate Done(s: Status)
  {
    s.completed + s.error + s.filteredOut == s.total
  }

  /** `task_sources?.every(...)`, scanning from the end. */
  function EveryDone(ss: seq<Status>): (b: bool)
    ensures b <==> forall i :: 0 <= i < |ss| ==> Done(ss[i])
    decreases |ss|
  {
    if ss == [] then true else EveryDone(ss[..|ss| - 1]) && Done(ss[|ss| - 1])
  }

  /** The stop condition: an absent list is not done, an empty one is. */
  function AllDone(taskSources: Option<seq<Status>>): (b: bool)
    ensures b <==> taskSources.Some? && forall i :: 0 <= i < |taskSources.value| ==> Done(taskSources.value[i])
  {
    taskSources.Some? && EveryDone(taskSources.value)
  }

  class Poller {
    var isOpen: bool
    var status: seq<Status>
    var isCompleted: bool
    /** Whether an interval is running. */
    var polling: bool

    /** An interval runs only while the dialog is open and the run is not complete. */
    predicate Valid()
      reads this
    {
      polling ==> isOpen && !isCompleted
    }

    constructor (isOpen: bool)
      ensures Valid()
      ensures this.isOpen == isOpen && status == [] && !isCompleted
      ensures polling <==> isOpen
    {
      this.isOpen := isOpen;
      status := [];
      isCompleted := false;
      polling := isOpen;
    }

    /** The effect after a change of its inputs: the previous interval is
        cleared and a new one started only while open and not complete. */
    method Effect()
      modifies this
      ensures Valid()
      ensures polling <==> isOpen && !isCompleted
      ensures isOpen == old(isOpen) && status == old(status) && isCompleted == old(isCompleted)
    {
      polling := false;
      if isOpen && !isCompleted {
        polling := true;
      }
    }

    /** Opening or closing the dialog. */
    method SetOpen(open: bool)
      modifies this
      ensures Valid()
      ensures isOpen == open && status == old(status) && isCompleted == old(isCompleted)
      ensures !open ==> !polling
      ensures open && !isCompleted ==> polling
    {
      isOpen := open;
      Effect();
    }

    /** One tick of the interval: a failed read or parse is only logged;
        otherwise the list is shown (an absent one as empty) and, once every
        source is done, the run is marked complete and the interval cleared. */
    method Tick(fetched: Result<StatusDocument, string>)
      requires Valid() && polling
      modifies this
      ensures Valid()
      ensures isOpen == old(isOpen)
      ensures fetched.Failure? ==> status == old(status) && !isCompleted && polling
      ensures fetched.Success? ==> status == fetched.value.taskSources.GetOr([])
      ensures fetched.Success? ==>
                (isCompleted <==> AllDone(fetched.value.taskSources))
                && (polling <==> !AllDone(fetched.value.taskSources))
    {
      if fetched.Failure? {
        return;
      }
      status := fetched.value.taskSources.GetOr([]);
      if AllDone(fetched.value.taskSources) {
        isCompleted := true;
        polling := false;
        Effect();
      }
    }
  }

  datatype Intent = SuccessIntent | PrimaryIntent | DangerIntent

  datatype Segment = Segment(ratio: real, intent: Intent)

  /** One rendered row: the source, the `completed + error` over the
      effective total label, the bar intent and the segments. */
  datatype Row = Row(taskSource: string, done: int, total: int, barIntent: Option<Intent>, segments: seq<Segment>)

  /** `total - filtered_out`. */
  function EffectiveTotal(s: Status): int
  {
    s.total - s.filteredOut
  }

  function AllSegments(s: Status): seq<Segment>
    requires EffectiveTotal(s) != 0
  {
    var t := EffectiveTotal(s) as real;
    [Segment(s.completed as real / t, SuccessIntent), Segment(s.inProgress as real / t, PrimaryIntent), Segment(s.error as real / t, DangerIntent)]
  }

  /** `renderProgressBar`: no row when the effective total is 0. */
  function RenderRow(s: Status): (row: Option<Row>)
    ensures row.None? <==> EffectiveTotal(s) == 0
    ensures row.Some? ==>
              row.value.taskSource == s.taskSource
              && row.value.done == s.completed + s.error && row.value.total == EffectiveTotal(s)
              && (forall g :: g in row.value.segments ==> g.ratio > 0.0)
              && (row.value.segments == [] ==> row.value.barIntent == None)
              && (row.value.segments != [] ==> row.value.barIntent == Some(row.value.segments[0].intent))
  {
    if EffectiveTotal(s) == 0 then None
    else
      var segments := Filter(AllSegments(s), (g: Segment) => g.ratio > 0.0);
      Some(Row(s.taskSource, s.completed + s.error, EffectiveTotal(s),
               if segments == [] then None else Some(segments[0].intent), segments))
  }

  function When(b: bool, g: Segment): seq<Segment>
  {
    if b then [g] else []
  }

  /** A count over a positive total has a positive ratio exactly when it is positive. */
  lemma RatioPositive(x: int, t: int)
    requires t > 0
    ensures x as real / t as real > 0.0 <==> x > 0
  {
    var r := x as real / t as real;
    assert r * t as real == x as real;
  }

  /** With a positive effective total a segment is kept exactly when its
      count is positive, and the kept segments go success, primary, danger. */
  lemma SegmentsOfPositiveTotal(s: Status)
    requires EffectiveTotal(s) > 0
    ensures var segs := AllSegments(s);
            Filter(segs, (g: Segment) => g.ratio > 0.0) == When(s.completed > 0, segs[0]) + When(s.inProgress > 0, segs[1]) + When(s.error > 0, segs[2])
  {
    var t := EffectiveTotal(s);
    RatioPositive(s.completed, t);
    RatioPositive(s.inProgress, t);
    RatioPositive(s.error, t);
    var segs := AllSegments(s);
    var p := (g: Segment) => g.ratio > 0.0;
    assert segs[..1][..0] == [];
    assert Filter(segs[..1], p) == When(s.completed > 0, segs[0]);
    assert segs[..2][..1] == segs[..1];
    assert Filter(segs[..2], p) == Filter(segs[..1], p) + When(s.inProgress > 0, segs[1]);
    assert segs[..3] == segs;
    assert Filter(segs, p) == Filter(segs[..2], p) + When(s.error > 0, segs[2]);
  }

  /** The bar of a row takes the first kept intent: success when anything is
      completed, else primary when anything runs, else danger when anything
      failed, else none. */
  lemma BarIntentOfPositiveTotal(s: Status)
    requires EffectiveTotal(s) > 0
    ensures RenderRow(s).Some?
    ensures s.completed > 0 ==> RenderRow(s).value.barIntent == Some(SuccessIntent)
    ensures s.completed <= 0 && s.inProgress > 0 ==> RenderRow(s).value.barIntent == Some(PrimaryIntent)
    ensures s.completed <= 0 && s.inProgress <= 0 && s.error > 0 ==> RenderRow(s).value.barIntent == Some(DangerIntent)
    ensures s.completed <= 0 && s.inProgress <= 0 && s.error <= 0 ==> RenderRow(s).value.barIntent == None
  {
    SegmentsOfPositiveTotal(s);
  }
}
