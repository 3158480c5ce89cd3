/** The per-criteria statistics table of one model on one result document:
    for every evaluation result of an attempt by the chosen model, a bucket
    keyed by the criteria name counts it as complete, skipped or errored,
    adds complete scores to a running sum and keeps the entry; the sums then
    become averages. The status browser is handed one bucket's entries. */
module CriteriaStatsTable {
  import opened Wrappers
  import opened Seqs
  import opened ResultRecords
  import opened StatusBrowserModal

  datatype CriteriaStats = CriteriaStats(
    criteria: string,
    avgScore: real,
    complete: nat,
    skipped: nat,
    errors: nat,
    results: seq<Entry>)

  // ---------------------------------------------------------------------
  // Specification: the entries in traversal order and the buckets over them

  /** The entries one attempt contributes, in evaluation order. */
  function EvalEntries(taskName: string, response: LlmResponse, evals: seq<CriteriaResult>): (es: seq<Entry>)
    ensures |es| == |evals|
    ensures forall t :: 0 <= t < |evals| ==> es[t] == Entry(taskName, evals[t], response)
    decreases |evals|
  {
    if evals == [] then []
    else EvalEntries(taskName, response, evals[..|evals| - 1])
         + [Entry(taskName, evals[|evals| - 1], response)]
  }

  /** The entries of one task's attempts by model `model`, in attempt order. */
  function AttemptsEntries(taskName: string, attempts: seq<Attempt>, model: string): seq<Entry>
    decreases |attempts|
  {
    if attempts == [] then []
    else
      var a := attempts[|attempts| - 1];
      AttemptsEntries(taskName, attempts[..|attempts| - 1], model)
      + (if a.modelName == model then EvalEntries(taskName, a.llmResponse, a.evaluationResult) else [])
  }

  /** Every entry that reaches some bucket, in the order the three nested
      loops visit them: task record, then attempt, then evaluation. */
  function Contributing(records: seq<TaskRecord>, model: string): seq<Entry>
    decreases |records|
  {
    if records == [] then []
    else
      var r := records[|records| - 1];
      Contributing(records[..|records| - 1], model) + AttemptsEntries(r.name, r.details.taskResults, model)
  }

  /** The criteria keys in order of first appearance (a `Map`'s insertion order). */
  function Keys(es: seq<Entry>): seq<string>
    decreases |es|
  {
    if es == [] then []
    else
      var ks := Keys(es[..|es| - 1]);
      var c := es[|es| - 1].result.criteria;
      if c in ks then ks else ks + [c]
  }

  /** The entries whose criteria is `k`, in traversal order. */
  function Bucket(es: seq<Entry>, k: string): seq<Entry>
    decreases |es|
  {
    if es == [] then []
    else
      var last := es[|es| - 1];
      if last.result.criteria == k then Bucket(es[..|es| - 1], k) + [last] else Bucket(es[..|es| - 1], k)
  }

  /** How many entries the shared classifier puts in `o`. */
  function Count(es: seq<Entry>, o: Outcome): nat
    decreases |es|
  {
    if es == [] then 0
    else Count(es[..|es| - 1], o) + (if Classify(es[|es| - 1].result) == o then 1 else 0)
  }

  /** The sum of the complete entries' scores. */
  function CompleteSum(es: seq<Entry>): real
    decreases |es|
  {
    if es == [] then 0.0
    else
      var last := es[|es| - 1];
      CompleteSum(es[..|es| - 1]) + (if Classify(last.result) == Complete then last.result.score else 0.0)
  }

  /** The sum of all scores of a list. */
  function ScoreSum(es: seq<Entry>): real
    decreases |es|
  {
    if es == [] then 0.0 else ScoreSum(es[..|es| - 1]) + es[|es| - 1].result.score
  }

  /** A bucket while the entries are still being folded in: `avgScore` holds
      the sum of the complete scores so far. */
  function Running(es: seq<Entry>, k: string): CriteriaStats
  {
    var b := Bucket(es, k);
    CriteriaStats(k, CompleteSum(b), Count(b, Complete), Count(b, Skipped), Count(b, Errored), b)
  }

  /** The mean score of the complete entries of a bucket, 0 when there are none. */
  function Average(b: seq<Entry>): real
  {
    if Count(b, Complete) > 0 then CompleteSum(b) / Count(b, Complete) as real else 0.0
  }

  /** A finished bucket. */
  function Final(es: seq<Entry>, k: string): CriteriaStats
  {
    var b := Bucket(es, k);
    CriteriaStats(k, Average(b), Count(b, Complete), Count(b, Skipped), Count(b, Errored), b)
  }

  /** The table: one finished bucket per key, in first-appearance order. */
  function ExpectedStats(es: seq<Entry>): seq<CriteriaStats>
  {
    var ks := Keys(es);
    seq(|ks|, t requires 0 <= t < |ks| => Final(es, ks[t]))
  }

  /** The bookkeeping the fold keeps: the key order, and one running bucket per key. */
  ghost predicate Accumulated(seen: seq<Entry>, keys: seq<string>, statsMap: map<string, CriteriaStats>)
  {
    && keys == Keys(seen)
    && (forall k :: k in statsMap <==> k in keys)
    && (forall k {:trigger statsMap[k]} :: k in statsMap ==> statsMap[k] == Running(seen, k))
  }

  // ---------------------------------------------------------------------
  // The aggregation

  /** The `criteriaStats` memo: fold every contributing evaluation into the
      buckets, turn the sums into averages, and list the buckets in the
      order their keys were first seen. */
  method ComputeCriteriaStats(results: seq<TaskRecord>, modelName: string) returns (stats: seq<CriteriaStats>)
    ensures stats == ExpectedStats(Contributing(results, modelName))
  {
    ghost var es := Contributing(results, modelName);
    var running, keys := FoldResults(results, modelName);
    KeysDistinct(es);
    var statsMap := FinishAverages(running, keys);
    forall k | k in keys ensures statsMap[k] == Final(es, k) {
      AverageOfRunning(es, k);
    }
    stats := seq(|keys|, t requires 0 <= t < |keys| => statsMap[keys[t]]);
  }

  /** The outer `forEach` over the task records. */
  method FoldResults(results: seq<TaskRecord>, modelName: string)
    returns (statsMap: map<string, CriteriaStats>, keys: seq<string>)
    ensures Accumulated(Contributing(results, modelName), keys, statsMap)
  {
    statsMap, keys := map[], [];
    var i := 0;
    while i < |results|
      invariant 0 <= i <= |results|
      invariant Accumulated(Contributing(results[..i], modelName), keys, statsMap)
    {
      var result := results[i];
      statsMap, keys := FoldRecord(statsMap, keys, result, modelName, Contributing(results[..i], modelName));
      assert results[..i + 1][..i] == results[..i];
      i := i + 1;
    }
    assert results[..i] == results;
  }

  /** The `forEach` over one record's attempts; only the selected model's
      attempts go on to the innermost loop. */
  method FoldRecord(statsMap: map<string, CriteriaStats>, keys: seq<string>, result: TaskRecord,
                    modelName: string, ghost seen: seq<Entry>)
    returns (statsMap': map<string, CriteriaStats>, keys': seq<string>)
    requires Accumulated(seen, keys, statsMap)
    ensures Accumulated(seen + AttemptsEntries(result.name, result.details.taskResults, modelName), keys', statsMap')
  {
    var taskName := result.name;
    var attempts := result.details.taskResults;
    statsMap', keys' := statsMap, keys;
    ghost var done := seen;
    assert seen + AttemptsEntries(taskName, attempts[..0], modelName) == seen;
    var j := 0;
    while j < |attempts|
      invariant 0 <= j <= |attempts|
      invariant done == seen + AttemptsEntries(taskName, attempts[..j], modelName)
      invariant Accumulated(done, keys', statsMap')
    {
      var taskResult := attempts[j];
      assert attempts[..j + 1][..j] == attempts[..j];
      if taskResult.modelName == modelName {
        statsMap', keys' := FoldAttempt(statsMap', keys', taskName, taskResult, done);
        done := done + EvalEntries(taskName, taskResult.llmResponse, taskResult.evaluationResult);
      }
      j := j + 1;
    }
    assert attempts[..j] == attempts;
  }

  /** The innermost `forEach` over one attempt's evaluation results. */
  method FoldAttempt(statsMap: map<string, CriteriaStats>, keys: seq<string>, taskName: string,
                     taskResult: Attempt, ghost seen: seq<Entry>)
    returns (statsMap': map<string, CriteriaStats>, keys': seq<string>)
    requires Accumulated(seen, keys, statsMap)
    ensures Accumulated(seen + EvalEntries(taskName, taskResult.llmResponse, taskResult.evaluationResult), keys', statsMap')
  {
    var evals := taskResult.evaluationResult;
    statsMap', keys' := statsMap, keys;
    ghost var done := seen;
    assert seen + EvalEntries(taskName, taskResult.llmResponse, evals[..0]) == seen;
    var k := 0;
    while k < |evals|
      invariant 0 <= k <= |evals|
      invariant done == seen + EvalEntries(taskName, taskResult.llmResponse, evals[..k])
      invariant Accumulated(done, keys', statsMap')
    {
      var entry := Entry(taskName, evals[k], taskResult.llmResponse);
      statsMap', keys' := FoldEntry(statsMap', keys', entry, done);
      done := done + [entry];
      assert evals[..k + 1][..k] == evals[..k];
      k := k + 1;
    }
    assert evals[..k] == evals;
  }

  /** A running bucket with its sum turned into an average. */
  function Finished(st: CriteriaStats): CriteriaStats
  {
    if st.complete > 0 then st.(avgScore := st.avgScore / st.complete as real) else st
  }

  /** The second `forEach`: every bucket with a complete result divides its
      sum by its complete count, the others are left as they are, and no key
      is added or removed. */
  method FinishAverages(statsMap: map<string, CriteriaStats>, keys: seq<string>)
    returns (statsMap': map<string, CriteriaStats>)
    requires forall k :: k in statsMap <==> k in keys
    requires forall a, b :: 0 <= a < b < |keys| ==> keys[a] != keys[b]
    ensures forall k :: k in statsMap' <==> k in keys
    ensures forall k :: k in keys ==> statsMap'[k] == Finished(statsMap[k])
  {
    statsMap' := statsMap;
    var m := 0;
    while m < |keys|
      invariant 0 <= m <= |keys|
      invariant forall k :: k in statsMap' <==> k in keys
      invariant forall t :: 0 <= t < m ==> statsMap'[keys[t]] == Finished(statsMap[keys[t]])
      invariant forall t :: m <= t < |keys| ==> statsMap'[keys[t]] == statsMap[keys[t]]
    {
      var st := statsMap'[keys[m]];
      if st.complete > 0 {
        st := st.(avgScore := st.avgScore / st.complete as real);
      }
      statsMap' := statsMap'[keys[m] := st];
      m := m + 1;
    }
  }

  /** What the status browser is handed for a criteria: the results of the
      first bucket with that key, or nothing. */
  function EntriesForCriteria(stats: seq<CriteriaStats>, criteria: string): (entries: seq<Entry>)
    ensures (forall t :: 0 <= t < |stats| ==> stats[t].criteria != criteria) ==> entries == []
    ensures stats != [] && stats[0].criteria == criteria ==> entries == stats[0].results
    decreases |stats|
  {
    if stats == [] then []
    else if stats[0].criteria == criteria then stats[0].results
    else EntriesForCriteria(stats[1..], criteria)
  }

  /** One evaluation result folded into the buckets: the body of the
      innermost loop. A missing bucket is created first (and its key recorded
      in insertion order), then exactly one counter moves and the entry is kept. */
  method FoldEntry(statsMap: map<string, CriteriaStats>, keys: seq<string>, entry: Entry, ghost seen: seq<Entry>)
    returns (statsMap': map<string, CriteriaStats>, keys': seq<string>)
    requires Accumulated(seen, keys, statsMap)
    ensures Accumulated(seen + [entry], keys', statsMap')
  {
    var evalResult := entry.result;
    var criteria := evalResult.criteria;
    statsMap', keys' := statsMap, keys;
    if criteria !in statsMap' {
      RunningEmpty(seen, criteria);
      statsMap' := statsMap'[criteria := CriteriaStats(criteria, 0.0, 0, 0, 0, [])];
      keys' := keys' + [criteria];
    }
    var st := Counted(statsMap'[criteria], entry);
    FoldStep(seen, keys, statsMap, entry);
    statsMap' := statsMap'[criteria := st];
  }

  /** One evaluation result counted into its bucket: an error, else a
      negative score (skipped), else a complete score added to the sum; the
      entry is kept in every case. */
  function Counted(st: CriteriaStats, entry: Entry): CriteriaStats
  {
    var r := entry.result;
    var st' :=
      if HasError(r) then st.(errors := st.errors + 1)
      else if r.score < 0.0 then st.(skipped := st.skipped + 1)
      else st.(complete := st.complete + 1, avgScore := st.avgScore + r.score);
    st'.(results := st'.results + [entry])
  }

  /** A key no entry has yet has an empty running bucket. */
  lemma RunningEmpty(seen: seq<Entry>, k: string)
    requires k !in Keys(seen)
    ensures Running(seen, k) == CriteriaStats(k, 0.0, 0, 0, 0, [])
  {
    KeysMembership(seen, k);
    FilterNone(seen, (x: Entry) => x.result.criteria == k);
  }

  /** The bookkeeping survives one entry when that entry's bucket is replaced
      by its new running value and a new key is appended. */
  lemma FoldStep(seen: seq<Entry>, keys: seq<string>, statsMap: map<string, CriteriaStats>, e: Entry)
    requires Accumulated(seen, keys, statsMap)
    ensures
      var c := e.result.criteria;
      Accumulated(seen + [e], if c in statsMap then keys else keys + [c],
                  statsMap[c := Counted(Running(seen, c), e)])
  {
    var c := e.result.criteria;
    var m' := statsMap[c := Counted(Running(seen, c), e)];
    KeysSnoc(seen, e);
    BucketsSnoc(seen, statsMap, e);
    if c in statsMap {
      assert forall k :: k in m' <==> k in keys;
      assert Accumulated(seen + [e], keys, m');
    } else {
      assert forall k :: k in m' <==> k in keys + [c];
      assert Accumulated(seen + [e], keys + [c], m');
    }
  }

  lemma KeysSnoc(seen: seq<Entry>, e: Entry)
    ensures Keys(seen + [e]) == if e.result.criteria in Keys(seen) then Keys(seen) else Keys(seen) + [e.result.criteria]
  {
    var s := seen + [e];
    assert s[..|s| - 1] == seen;
  }

  lemma BucketsSnoc(seen: seq<Entry>, statsMap: map<string, CriteriaStats>, e: Entry)
    requires forall k {:trigger statsMap[k]} :: k in statsMap ==> statsMap[k] == Running(seen, k)
    ensures
      var m' := statsMap[e.result.criteria := Counted(Running(seen, e.result.criteria), e)];
      forall k {:trigger m'[k]} :: k in m' ==> m'[k] == Running(seen + [e], k)
  {
    RunningSnoc(seen, e);
  }

  /** Appending an entry changes only its own key's running bucket, by one
      counter, the complete score when it is complete, and the entry itself. */
  lemma RunningSnoc(seen: seq<Entry>, e: Entry)
    ensures forall k :: k != e.result.criteria ==> Running(seen + [e], k) == Running(seen, k)
    ensures Running(seen + [e], e.result.criteria) == Counted(Running(seen, e.result.criteria), e)
  {
    var s := seen + [e];
    assert s[..|s| - 1] == seen;
    var b := Bucket(seen, e.result.criteria);
    assert (b + [e])[..|b|] == b;
  }

  /** Dividing a running bucket's sum by its complete count gives the finished bucket. */
  lemma AverageOfRunning(es: seq<Entry>, k: string)
    ensures Finished(Running(es, k)) == Final(es, k)
  {
    var b := Bucket(es, k);
    if Count(b, Complete) == 0 {
      NoCompleteNoSum(b);
    }
  }

  lemma {:induction false} NoCompleteNoSum(es: seq<Entry>)
    requires Count(es, Complete) == 0
    ensures CompleteSum(es) == 0.0
    decreases |es|
  {
    if es != [] {
      NoCompleteNoSum(es[..|es| - 1]);
    }
  }

  // ---------------------------------------------------------------------
  // The recursive definitions agree with the list filters of the status browser

  /** A bucket is the criteria filter of the entries. */
  lemma {:induction false} BucketIsFilter(es: seq<Entry>, k: string)
    ensures Bucket(es, k) == Filter(es, (e: Entry) => e.result.criteria == k)
    decreases |es|
  {
    if es != [] {
      BucketIsFilter(es[..|es| - 1], k);
    }
  }

  /** The counters are the tab sizes, and the complete sum is the sum of the
      complete tab's scores. */
  lemma {:induction false} CountsAreTabs(es: seq<Entry>)
    ensures Count(es, Complete) == |CompleteEntries(es)|
    ensures Count(es, Skipped) == |SkippedEntries(es)|
    ensures Count(es, Errored) == |ErrorEntries(es)|
    ensures CompleteSum(es) == ScoreSum(CompleteEntries(es))
    decreases |es|
  {
    if es != [] {
      var init, last := es[..|es| - 1], es[|es| - 1];
      CountsAreTabs(init);
      if IsCompleteEntry(last) {
        var c := CompleteEntries(init);
        assert CompleteEntries(es) == c + [last];
        assert (c + [last])[..|c|] == c;
      }
    }
  }

  // ---------------------------------------------------------------------
  // Lemmas about the keys

  /** A key is listed exactly when some entry has that criteria. */
  lemma {:induction false} KeysMembership(es: seq<Entry>, k: string)
    ensures k in Keys(es) <==> exists e :: e in es && e.result.criteria == k
    decreases |es|
  {
    if es != [] {
      var init, last := es[..|es| - 1], es[|es| - 1];
      KeysMembership(init, k);
      assert es == init + [last];
      if exists e :: e in es && e.result.criteria == k {
        var e :| e in es && e.result.criteria == k;
        if e != last {
          assert e in init;
        }
      }
    }
  }

  /** No key is listed twice. */
  lemma {:induction false} KeysDistinct(es: seq<Entry>)
    ensures forall a, b :: 0 <= a < b < |Keys(es)| ==> Keys(es)[a] != Keys(es)[b]
    decreases |es|
  {
    if es != [] {
      KeysDistinct(es[..|es| - 1]);
    }
  }

  /** The index of the first entry with criteria `k`, or `|es|` when there is none. */
  function FirstIndex(es: seq<Entry>, k: string): (i: nat)
    ensures i <= |es|
    ensures i < |es| ==> es[i].result.criteria == k
    ensures forall t :: 0 <= t < i && t < |es| ==> es[t].result.criteria != k
    decreases |es|
  {
    if es == [] then 0
    else
      var init := es[..|es| - 1];
      var f := FirstIndex(init, k);
      if f < |init| then f
      else if es[|es| - 1].result.criteria == k then |init|
      else |es|
  }

  /** A key is listed iff it appears, and the keys are listed in the order of
      their first appearance. */
  lemma {:induction false} KeysFirstAppearance(es: seq<Entry>)
    ensures forall k :: k in Keys(es) <==> FirstIndex(es, k) < |es|
    ensures forall a, b :: 0 <= a < b < |Keys(es)| ==> FirstIndex(es, Keys(es)[a]) < FirstIndex(es, Keys(es)[b])
    decreases |es|
  {
    if es != [] {
      var init := es[..|es| - 1];
      KeysFirstAppearance(init);
      forall k | k in Keys(init) ensures FirstIndex(es, k) == FirstIndex(init, k) {
      }
    }
  }

  // ---------------------------------------------------------------------
  // What the table promises

  /** Only attempts by the selected model contribute, and every evaluation of
      every such attempt does, under its task's name and with its response. */
  lemma {:induction false} ContributingFromModel(records: seq<TaskRecord>, model: string)
    ensures forall e :: e in Contributing(records, model) ==>
              exists r, a :: r in records && a in r.details.taskResults && a.modelName == model
                && e.result in a.evaluationResult && e.taskName == r.name && e.llmResponse == a.llmResponse
    ensures forall r, a, x ::
              (r in records && a in r.details.taskResults && a.modelName == model && x in a.evaluationResult)
              ==> Entry(r.name, x, a.llmResponse) in Contributing(records, model)
    decreases |records|
  {
    if records != [] {
      var init, r := records[..|records| - 1], records[|records| - 1];
      ContributingFromModel(init, model);
      AttemptsEntriesFromModel(r.name, r.details.taskResults, model);
      assert records == init + [r];
    }
  }

  lemma {:induction false} AttemptsEntriesFromModel(taskName: string, attempts: seq<Attempt>, model: string)
    ensures forall e :: e in AttemptsEntries(taskName, attempts, model) ==>
              exists a :: a in attempts && a.modelName == model
                && e.result in a.evaluationResult && e.taskName == taskName && e.llmResponse == a.llmResponse
    ensures forall a, x :: a in attempts && a.modelName == model && x in a.evaluationResult
              ==> Entry(taskName, x, a.llmResponse) in AttemptsEntries(taskName, attempts, model)
    decreases |attempts|
  {
    if attempts != [] {
      var init, a := attempts[..|attempts| - 1], attempts[|attempts| - 1];
      AttemptsEntriesFromModel(taskName, init, model);
      assert attempts == init + [a];
      if a.modelName == model {
        var ev := EvalEntries(taskName, a.llmResponse, a.evaluationResult);
        forall x | x in a.evaluationResult ensures Entry(taskName, x, a.llmResponse) in ev {
          var t :| 0 <= t < |a.evaluationResult| && a.evaluationResult[t] == x;
          assert ev[t] == Entry(taskName, x, a.llmResponse);
        }
      }
    }
  }

  /** Each bucket holds its key's entries in traversal order; its three
      counters add up to its number of entries and equal the status browser's
      tab counts for those entries; its average is the mean of the complete
      tab's scores, or 0 when there is no complete result. */
  lemma BucketFacts(es: seq<Entry>, t: nat)
    requires t < |ExpectedStats(es)|
    ensures
      var s := ExpectedStats(es)[t];
      && s.results == Filter(es, (e: Entry) => e.result.criteria == s.criteria)
      && Subsequence(s.results, es)
      && s.complete + s.skipped + s.errors == |s.results|
      && s.complete == |CompleteEntries(s.results)|
      && s.skipped == |SkippedEntries(s.results)|
      && s.errors == |ErrorEntries(s.results)|
      && (s.complete > 0 ==> s.avgScore == ScoreSum(CompleteEntries(s.results)) / s.complete as real)
      && (s.complete == 0 ==> s.avgScore == 0.0)
  {
    assert ExpectedStats(es)[t] == Final(es, Keys(es)[t]);
    FinalFacts(es, Keys(es)[t]);
  }

  lemma FinalFacts(es: seq<Entry>, k: string)
    ensures
      var s := Final(es, k);
      && s.results == Filter(es, (e: Entry) => e.result.criteria == k)
      && Subsequence(s.results, es)
      && s.complete + s.skipped + s.errors == |s.results|
      && s.complete == |CompleteEntries(s.results)|
      && s.skipped == |SkippedEntries(s.results)|
      && s.errors == |ErrorEntries(s.results)|
      && (s.complete > 0 ==> s.avgScore == ScoreSum(CompleteEntries(s.results)) / s.complete as real)
      && (s.complete == 0 ==> s.avgScore == 0.0)
  {
    var b := Bucket(es, k);
    BucketIsFilter(es, k);
    BucketIsSubsequence(es, k);
    CountsAreTabs(b);
    CountsSum(b);
  }

  lemma BucketIsSubsequence(es: seq<Entry>, k: string)
    ensures Subsequence(Bucket(es, k), es)
  {
    BucketIsFilter(es, k);
    FilterSubsequence(es, (e: Entry) => e.result.criteria == k);
  }

  /** Every entry is counted once. */
  lemma {:induction false} CountsSum(es: seq<Entry>)
    ensures Count(es, Complete) + Count(es, Skipped) + Count(es, Errored) == |es|
    decreases |es|
  {
    if es != [] {
      CountsSum(es[..|es| - 1]);
    }
  }

  /** One bucket per distinct criteria of the contributing entries, in
      first-appearance order. */
  lemma BucketKeys(es: seq<Entry>)
    ensures forall t :: 0 <= t < |ExpectedStats(es)| ==> ExpectedStats(es)[t].criteria == Keys(es)[t]
    ensures forall a, b :: 0 <= a < b < |ExpectedStats(es)| ==>
              ExpectedStats(es)[a].criteria != ExpectedStats(es)[b].criteria
    ensures forall e :: e in es ==> exists t :: 0 <= t < |ExpectedStats(es)| && ExpectedStats(es)[t].criteria == e.result.criteria
    ensures forall a, b :: 0 <= a < b < |ExpectedStats(es)| ==>
              FirstIndex(es, ExpectedStats(es)[a].criteria) < FirstIndex(es, ExpectedStats(es)[b].criteria)
  {
    KeysDistinct(es);
    KeysFirstAppearance(es);
    forall e | e in es
      ensures exists t :: 0 <= t < |ExpectedStats(es)| && ExpectedStats(es)[t].criteria == e.result.criteria
    {
      KeysMembership(es, e.result.criteria);
      var t :| 0 <= t < |Keys(es)| && Keys(es)[t] == e.result.criteria;
      assert ExpectedStats(es)[t].criteria == e.result.criteria;
    }
  }

  /** The status browser receives exactly the entries with the selected
      criteria, in traversal order; an unknown criteria gives an empty list. */
  lemma BrowserGetsBucket(es: seq<Entry>, criteria: string)
    ensures EntriesForCriteria(ExpectedStats(es), criteria) == Bucket(es, criteria)
    ensures EntriesForCriteria(ExpectedStats(es), criteria) == Filter(es, (e: Entry) => e.result.criteria == criteria)
  {
    KeysDistinct(es);
    KeysMembership(es, criteria);
    var stats := ExpectedStats(es);
    if criteria in Keys(es) {
      var t :| 0 <= t < |Keys(es)| && Keys(es)[t] == criteria;
      EntriesForCriteriaAt(stats, criteria, t);
      BucketIsFilter(es, criteria);
    } else {
      BucketIsFilter(es, criteria);
      FilterNone(es, (e: Entry) => e.result.criteria == criteria);
    }
  }

  lemma {:induction false} EntriesForCriteriaAt(stats: seq<CriteriaStats>, criteria: string, t: nat)
    requires t < |stats| && stats[t].criteria == criteria
    requires forall u :: 0 <= u < t ==> stats[u].criteria != criteria
    ensures EntriesForCriteria(stats, criteria) == stats[t].results
    decreases t
  {
    if t > 0 {
      EntriesForCriteriaAt(stats[1..], criteria, t - 1);
    }
  }

  /** Two results that the table cannot tell apart: same criteria, same
      classification, and the same score when it is complete. */
  predicate Alike(e: Entry, f: Entry)
  {
    && e.result.criteria == f.result.criteria
    && Classify(e.result) == Classify(f.result)
    && (Classify(e.result) == Complete ==> e.result.score == f.result.score)
  }

  predicate SameExceptIgnoredScores(es: seq<Entry>, fs: seq<Entry>)
  {
    |es| == |fs| && forall t :: 0 <= t < |es| ==> Alike(es[t], fs[t])
  }

  /** Two result lists that differ only in the scores of errored or skipped
      results give equal counters and averages: those scores have no effect
      on the table. */
  lemma IgnoredScoresIrrelevant(es: seq<Entry>, fs: seq<Entry>)
    requires SameExceptIgnoredScores(es, fs)
    ensures |ExpectedStats(es)| == |ExpectedStats(fs)|
    ensures forall t :: 0 <= t < |ExpectedStats(es)| ==>
              var s, u := ExpectedStats(es)[t], ExpectedStats(fs)[t];
              s.criteria == u.criteria && s.avgScore == u.avgScore
              && s.complete == u.complete && s.skipped == u.skipped && s.errors == u.errors
  {
    KeysAlike(es, fs);
    forall t | 0 <= t < |Keys(es)|
      ensures Final(es, Keys(es)[t]).avgScore == Final(fs, Keys(es)[t]).avgScore
      ensures Final(es, Keys(es)[t]).complete == Final(fs, Keys(es)[t]).complete
      ensures Final(es, Keys(es)[t]).skipped == Final(fs, Keys(es)[t]).skipped
      ensures Final(es, Keys(es)[t]).errors == Final(fs, Keys(es)[t]).errors
    {
      TalliesAlike(es, fs, Keys(es)[t]);
    }
  }

  lemma {:induction false} KeysAlike(es: seq<Entry>, fs: seq<Entry>)
    requires SameExceptIgnoredScores(es, fs)
    ensures Keys(es) == Keys(fs)
    decreases |es|
  {
    if es != [] {
      KeysAlike(es[..|es| - 1], fs[..|fs| - 1]);
    }
  }

  /** The counters and the complete sum of one key agree on both lists. */
  lemma TalliesAlike(es: seq<Entry>, fs: seq<Entry>, k: string)
    requires SameExceptIgnoredScores(es, fs)
    ensures Count(Bucket(es, k), Complete) == Count(Bucket(fs, k), Complete)
    ensures Count(Bucket(es, k), Skipped) == Count(Bucket(fs, k), Skipped)
    ensures Count(Bucket(es, k), Errored) == Count(Bucket(fs, k), Errored)
    ensures CompleteSum(Bucket(es, k)) == CompleteSum(Bucket(fs, k))
  {
    CountsAlike(es, fs, k, Complete);
    CountsAlike(es, fs, k, Skipped);
    CountsAlike(es, fs, k, Errored);
    SumsAlike(es, fs, k);
  }

  lemma {:induction false} CountsAlike(es: seq<Entry>, fs: seq<Entry>, k: string, o: Outcome)
    requires SameExceptIgnoredScores(es, fs)
    ensures Count(Bucket(es, k), o) == Count(Bucket(fs, k), o)
    decreases |es|
  {
    if es != [] {
      var ei, fi := es[..|es| - 1], fs[..|fs| - 1];
      var e, f := es[|es| - 1], fs[|fs| - 1];
      assert SameExceptIgnoredScores(ei, fi) by {
        forall t | 0 <= t < |ei| ensures Alike(ei[t], fi[t]) {
          assert ei[t] == es[t] && fi[t] == fs[t];
        }
      }
      CountsAlike(ei, fi, k, o);
      assert Alike(e, f);
      if e.result.criteria == k {
        var be, bf := Bucket(ei, k), Bucket(fi, k);
        assert (be + [e])[..|be|] == be;
        assert (bf + [f])[..|bf|] == bf;
      }
    }
  }

  lemma {:induction false} SumsAlike(es: seq<Entry>, fs: seq<Entry>, k: string)
    requires SameExceptIgnoredScores(es, fs)
    ensures CompleteSum(Bucket(es, k)) == CompleteSum(Bucket(fs, k))
    decreases |es|
  {
    if es != [] {
      var ei, fi := es[..|es| - 1], fs[..|fs| - 1];
      var e, f := es[|es| - 1], fs[|fs| - 1];
      assert SameExceptIgnoredScores(ei, fi) by {
        forall t | 0 <= t < |ei| ensures Alike(ei[t], fi[t]) {
          assert ei[t] == es[t] && fi[t] == fs[t];
        }
      }
      SumsAlike(ei, fi, k);
      assert Alike(e, f);
      if e.result.criteria == k {
        var be, bf := Bucket(ei, k), Bucket(fi, k);
        assert (be + [e])[..|be|] == be;
        assert (bf + [f])[..|bf|] == bf;
      }
    }
  }
}
