/** The results-history page: the clean-up of suspicious stored history,
    the average and best score, the recent-tests table and the clear dialog. */
module ResultsPage {
  import opened Common
  import opened Seqs
  import opened Json
  import opened Store
  import opened TestHistory
  import opened Results

  /** What the first-load check does to the stored history. */
  datatype Cleanup = Keep | Remove | RemoveAndReload

  /** `parsed.every(test => test.score === 100)`; `None` is the TypeError
      thrown when an entry is null. */
  function EveryPerfect(xs: seq<Json>): (r: Option<bool>)
    ensures r == Some(true) ==> forall i :: 0 <= i < |xs| ==> Score(xs[i]) == Some(100)
    ensures (forall i :: 0 <= i < |xs| ==> Score(xs[i]) == Some(100)) ==> r == Some(true)
  {
    if xs == [] then Some(true)
    else if xs[0] == JNull then None
    else if Score(xs[0]) != Some(100) then Some(false)
    else
      var rest := EveryPerfect(xs[1..]);
      assert forall i :: 1 <= i < |xs| ==> xs[i] == xs[1..][i - 1];
      rest
  }

  /** The verdict on the stored text: unparseable text and values on which
      the test throws (null, a short non-empty string, an array holding null
      before any imperfect score) are removed; an array of more than 100
      entries, or a non-empty one of perfect scores, is removed and the page
      reloads. Strings are compared by length as arrays are; numbers,
      booleans and objects are kept. */
  function Suspicion(stored: Option<string>, json: Format<Json>): Cleanup
  {
    if stored.None? || stored.value == "" then Keep
    else match json.decode(stored.value)
      case None => Remove
      case Some(JNull) => Remove
      case Some(JStr(s)) => if |s| > 100 then RemoveAndReload else if |s| > 0 then Remove else Keep
      case Some(JArr(xs)) =>
        if |xs| > 100 then RemoveAndReload
        else if |xs| == 0 then Keep
        else (match EveryPerfect(xs)
          case None => Remove
          case Some(allPerfect) => if allPerfect then RemoveAndReload else Keep)
      case Some(_) => Keep
  }

  /** The check applied to a stored array: it is removed exactly when it is
      longer than 100 or non-empty with all scores 100, given no null entry. */
  lemma SuspicionOfArray(xs: seq<Json>, json: Format<Json>)
    requires Lawful(json)
    requires forall i :: 0 <= i < |xs| ==> xs[i] != JNull
    ensures Suspicion(Some(json.encode(JArr(xs))), json) != Keep <==>
              |xs| > 100 || (|xs| > 0 && forall i :: 0 <= i < |xs| ==> Score(xs[i]) == Some(100))
  {
    NoNullNoThrow(xs);
  }

  lemma {:induction false} NoNullNoThrow(xs: seq<Json>)
    requires forall i :: 0 <= i < |xs| ==> xs[i] != JNull
    ensures EveryPerfect(xs).Some?
  {
    if xs != [] && Score(xs[0]) == Some(100) {
      NoNullNoThrow(xs[1..]);
    }
  }

  /** The history the app itself writes (a saved result has a score) is
      never removed when it holds an imperfect score and at most 100 tests. */
  lemma OwnHistoryKept(xs: seq<Json>, json: Format<Json>, k: nat)
    requires Lawful(json) && |xs| <= 100 && k < |xs| && Score(xs[k]) != Some(100)
    requires forall i :: 0 <= i < |xs| ==> xs[i] != JNull
    ensures Suspicion(Some(json.encode(JArr(xs))), json) == Keep
  {
    SuspicionOfArray(xs, json);
  }

  /** The first-load effect against the store. */
  method CleanUp(store: Storage, json: Format<Json>) returns (verdict: Cleanup)
    modifies store
    ensures verdict == Suspicion(old(store.Get(HistoryKey)), json)
    ensures verdict == Keep ==> store.items == old(store.items)
    ensures verdict != Keep ==> store.items == old(store.items) - {HistoryKey}
  {
    verdict := Suspicion(store.Get(HistoryKey), json);
    if verdict != Keep {
      store.RemoveItem(HistoryKey);
    }
  }

  /** The scores of the shown tests; `None` when one lacks a numeric score
      (the sum would be NaN). */
  function Scores(h: seq<Json>): (r: Option<seq<int>>)
    ensures r.Some? ==> |r.value| == |h| && forall i :: 0 <= i < |h| ==> Score(h[i]) == Some(r.value[i])
  {
    if h == [] then Some([])
    else match (Score(h[0]), Scores(h[1..]))
      case (Some(s), Some(rest)) => Some([s] + rest)
      case _ => None
  }

  function Sum(s: seq<int>): int
  {
    if s == [] then 0 else s[0] + Sum(s[1..])
  }

  /** `Math.round(sum / n)` for a non-empty list, else 0. */
  function Average(s: seq<int>): (a: int)
    ensures |s| > 0 ==> 2 * |s| * a - |s| <= 2 * Sum(s) < 2 * |s| * a + |s|
    ensures |s| == 0 ==> a == 0
  {
    if |s| > 0 then
      var n := |s|;
      var a := (2 * Sum(s) + n) / (2 * n);
      assert 2 * n * a <= 2 * Sum(s) + n < 2 * n * a + 2 * n;
      a
    else 0
  }

  /** `Math.max(...scores)` for a non-empty list, else 0. */
  function Best(s: seq<int>): (b: int)
    ensures |s| > 0 ==> (exists i :: 0 <= i < |s| && s[i] == b) && forall i :: 0 <= i < |s| ==> s[i] <= b
    ensures |s| == 0 ==> b == 0
  {
    if |s| == 0 then 0
    else if |s| == 1 then s[0]
    else
      var m := Best(s[1..]);
      assert forall i :: 1 <= i < |s| ==> s[i] == s[1..][i - 1];
      if s[0] >= m then s[0] else m
  }

  ghost predicate Percentages(s: seq<int>)
  {
    forall i :: 0 <= i < |s| ==> 0 <= s[i] <= 100
  }

  lemma {:induction false} SumBounds(s: seq<int>, lo: int, hi: int)
    requires forall i :: 0 <= i < |s| ==> lo <= s[i] <= hi
    ensures |s| * lo <= Sum(s) <= |s| * hi
  {
    if s != [] {
      assert forall i :: 0 <= i < |s| - 1 ==> s[1..][i] == s[i + 1];
      SumBounds(s[1..], lo, hi);
    }
  }

  /** With scores in 0..100 both figures are percentages and the average
      never exceeds the best. */
  lemma AverageAtMostBest(s: seq<int>)
    requires Percentages(s)
    ensures 0 <= Average(s) <= Best(s) <= 100
  {
    if |s| > 0 {
      SumBounds(s, 0, Best(s));
      SumBounds(s, 0, 100);
      RoundedMeanBounds(|s|, Sum(s), Average(s), Best(s));
    }
  }

  /** The arithmetic of the mean: a rounded mean of non-negative values at
      most b lies in 0..b. */
  lemma RoundedMeanBounds(n: int, sum: int, a: int, b: int)
    requires n > 0 && 2 * n * a - n <= 2 * sum < 2 * n * a + n
    requires 0 <= sum <= n * b
    ensures 0 <= a <= b
  {
    assert 2 * n * (b + 1) == 2 * (n * b) + 2 * n;
    LessFactor(2 * n, a, b + 1);
    assert 2 * n * (a + 1) == 2 * n * a + 2 * n;
    LessFactor(2 * n, -1, a);
  }

  /** The recent-tests table: the shown tests, newest first by the time of
      their date, at most 10. The date's time value is a parameter. */
  function Recent(h: seq<Json>, time: Json -> int): (r: seq<Json>)
    ensures |r| <= 10 && |r| <= |h|
  {
    var sorted := SortDesc(h, time);
    SortDescSpec(h, time);
    assert |sorted| == |multiset(sorted)| == |multiset(h)| == |h|;
    if |sorted| <= 10 then sorted else sorted[..10]
  }

  /** The table is newest first, holds only shown tests, and omits none
      newer than its last row: it is the ten newest. */
  lemma RecentSpec(h: seq<Json>, time: Json -> int)
    ensures SortedDesc(Recent(h, time), time)
    ensures multiset(Recent(h, time)) <= multiset(h)
    ensures |h| <= 10 ==> multiset(Recent(h, time)) == multiset(h)
    ensures |h| > 10 ==> |Recent(h, time)| == 10
    ensures |h| > 10 ==> forall x :: x in multiset(h) - multiset(Recent(h, time)) ==> time(x) <= time(Recent(h, time)[9])
  {
    var sorted := SortDesc(h, time);
    SortDescSpec(h, time);
    assert |sorted| == |multiset(sorted)| == |multiset(h)| == |h|;
    if |sorted| > 10 {
      PrefixIsNewest(sorted, 10, time);
    }
  }

  /** What a newest-first sequence leaves out past its first n rows is no
      newer than row n. */
  lemma PrefixIsNewest(sorted: seq<Json>, n: nat, time: Json -> int)
    requires SortedDesc(sorted, time) && 0 < n < |sorted|
    ensures multiset(sorted[..n]) <= multiset(sorted)
    ensures forall x :: x in multiset(sorted) - multiset(sorted[..n]) ==> time(x) <= time(sorted[n - 1])
  {
    var r, rest := sorted[..n], sorted[n..];
    assert sorted == r + rest;
    assert multiset(sorted) == multiset(r) + multiset(rest);
    forall x | x in multiset(sorted) - multiset(r) ensures time(x) <= time(sorted[n - 1]) {
      assert x in multiset(rest);
      var j :| 0 <= j < |rest| && rest[j] == x;
      assert sorted[n + j] == x;
    }
  }

  /** The clear-history dialog. */
  class ClearDialog {
    var open: bool

    constructor ()
      ensures !open
    {
      open := false;
    }

    method Open()
      modifies this
      ensures open
    {
      open := true;
    }

    /** Confirm clears the selected exam's history and closes. */
    method Confirm(history: TestHistoryHook)
      requires history.Valid()
      modifies this, history, history.store
      ensures !open && history.Valid() && history.FilteredHistory() == []
      ensures history.selectedExam == old(history.selectedExam)
      ensures Selected(history.selectedExam) ==> history.history == Filter(old(history.history), NotOf(history.selectedExam.value))
      ensures !Selected(history.selectedExam) ==> history.history == []
    {
      history.ClearTestHistory();
      open := false;
    }

    /** Cancel only closes. */
    method Cancel()
      modifies this
      ensures !open
    {
      open := false;
    }
  }
}
