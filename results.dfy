/** The results screen of an exam: the tallies and rounded score, the
    per-tag statistics, the time line, the category ranking, and the effect
    that saves the result once and signals the score-threshold unlock. */
module Results {
  import opened Common
  import opened Store
  import opened Seqs
  import opened Text
  import opened Json
  import opened TestHistory
  import opened Achievements
  import opened AchievementsEngine

  /** A question as the results screen uses it; `tags` is a ", "-separated list. */
  datatype ExamQuestion = ExamQuestion(id: string, correctAnswer: string, tags: string)

  const PassingScore: int := 70
  const TagSeparator: string := ", "

  /** `userAnswers[q.id] === q.correct_answer`. */
  predicate AnsweredCorrectly(q: ExamQuestion, answers: map<string, string>)
  {
    q.id in answers && answers[q.id] == q.correctAnswer
  }

  /** `userAnswers[q.id] && userAnswers[q.id] !== q.correct_answer`. */
  predicate AnsweredWrongly(q: ExamQuestion, answers: map<string, string>)
  {
    q.id in answers && answers[q.id] != "" && answers[q.id] != q.correctAnswer
  }

  /** Neither correct nor wrongly answered. */
  predicate LeftOpen(q: ExamQuestion, answers: map<string, string>)
  {
    !AnsweredCorrectly(q, answers) && !AnsweredWrongly(q, answers)
  }

  function CorrectIn(answers: map<string, string>): ExamQuestion -> bool { q => AnsweredCorrectly(q, answers) }
  function WrongIn(answers: map<string, string>): ExamQuestion -> bool { q => AnsweredWrongly(q, answers) }
  function OpenIn(answers: map<string, string>): ExamQuestion -> bool { q => LeftOpen(q, answers) }

  datatype Tally = Tally(correct: nat, incorrect: nat, unanswered: int)

  /** The three counts of the results memo. */
  function TallyOf(questions: seq<ExamQuestion>, answers: map<string, string>): (t: Tally)
    ensures t.correct + t.incorrect + t.unanswered == |questions|
    ensures t.unanswered == |Filter(questions, OpenIn(answers))| >= 0
  {
    var c := |Filter(questions, CorrectIn(answers))|;
    var w := |Filter(questions, WrongIn(answers))|;
    TallySplit(questions, answers);
    Tally(c, w, |questions| - c - w)
  }

  /** Every question is exactly one of correct, wrong, or open. */
  lemma {:induction false} TallySplit(questions: seq<ExamQuestion>, answers: map<string, string>)
    ensures |Filter(questions, CorrectIn(answers))| + |Filter(questions, WrongIn(answers))|
            + |Filter(questions, OpenIn(answers))| == |questions|
  {
    if questions != [] {
      TallySplit(questions[1..], answers);
    }
  }

  /** `Math.round(c / n * 100)` for n > 0, else 0, with exact arithmetic:
      the nearest integer to 100c/n, halves rounded up. */
  function Percent(c: int, n: int): (s: int)
    ensures n <= 0 ==> s == 0
    ensures n > 0 ==> 2 * n * s - n <= 200 * c < 2 * n * s + n
    ensures n > 0 && 0 <= c <= n ==> 0 <= s <= 100
  {
    if n > 0 then
      var s := (200 * c + n) / (2 * n);
      PercentRange(c, n, s);
      s
    else 0
  }

  lemma PercentRange(c: int, n: int, s: int)
    requires n > 0 && s == (200 * c + n) / (2 * n)
    ensures 2 * n * s - n <= 200 * c < 2 * n * s + n
    ensures 0 <= c <= n ==> 0 <= s <= 100
  {
    var m := 2 * n;
    assert m * s <= 200 * c + n < m * s + m;
    if 0 <= c <= n {
      assert m * s < m * 101;
      LessFactor(m, s, 101);
      assert m * (s + 1) > 0;
      LessFactor(m, 0, s + 1);
    }
  }

  lemma LessFactor(m: int, a: int, b: int)
    requires m > 0 && m * a < m * b
    ensures a < b
  {
    assert m * (b - a) == m * b - m * a > 0;
  }

  /** `passed`, which picks the banner and its colour. */
  predicate Passed(score: int)
  {
    score >= PassingScore
  }

  /** Because the score is rounded half up, a test is passed exactly when the
      correct answers reach 69.5% of the questions. */
  lemma PassedIff(correct: nat, total: nat)
    requires 0 < total
    ensures Passed(Percent(correct, total)) <==> 200 * correct >= 139 * total
  {
    var s := Percent(correct, total);
    var m := 2 * total;
    if s >= 70 {
      if m * s < m * 70 {
        LessFactor(m, s, 70);
      }
    } else {
      if m * 69 < m * s {
        LessFactor(m, 69, s);
      }
    }
  }

  /** A row of the per-tag statistics object; rows are kept in insertion
      order, as JavaScript keeps an object's string keys. */
  datatype TagEntry = TagEntry(tag: string, total: nat, correct: nat)

  /** The tags of one question, split on ", ". */
  function TagsOf(q: ExamQuestion): seq<string>
  {
    Split(q.tags, TagSeparator)
  }

  /** The (tag, question answered correctly) pairs the nested loops visit. */
  function Marked(tags: seq<string>, isCorrect: bool): (r: seq<(string, bool)>)
    ensures |r| == |tags|
    ensures forall i :: 0 <= i < |tags| ==> r[i] == (tags[i], isCorrect)
  {
    if tags == [] then [] else Marked(tags[..|tags| - 1], isCorrect) + [(tags[|tags| - 1], isCorrect)]
  }

  function PairsOf(questions: seq<ExamQuestion>, answers: map<string, string>): seq<(string, bool)>
  {
    if questions == [] then []
    else
      var q := questions[|questions| - 1];
      PairsOf(questions[..|questions| - 1], answers) + Marked(TagsOf(q), AnsweredCorrectly(q, answers))
  }

  /** `questions.flatMap(q => q.tags.split(", "))`. */
  function AllTags(questions: seq<ExamQuestion>): seq<string>
  {
    if questions == [] then [] else AllTags(questions[..|questions| - 1]) + TagsOf(questions[|questions| - 1])
  }

  function PairTags(pairs: seq<(string, bool)>): (r: seq<string>)
    ensures |r| == |pairs|
    ensures forall i :: 0 <= i < |pairs| ==> r[i] == pairs[i].0
  {
    if pairs == [] then [] else PairTags(pairs[..|pairs| - 1]) + [pairs[|pairs| - 1].0]
  }

  function RowTags(table: seq<TagEntry>): (r: seq<string>)
    ensures |r| == |table|
    ensures forall i :: 0 <= i < |table| ==> r[i] == table[i].tag
  {
    if table == [] then [] else RowTags(table[..|table| - 1]) + [table[|table| - 1].tag]
  }

  /** Where a tag's row is. */
  function RowOf(table: seq<TagEntry>, tag: string): (r: Option<nat>)
    ensures r.Some? ==> r.value < |table| && table[r.value].tag == tag
    ensures r.None? ==> tag !in RowTags(table)
  {
    if table == [] then None
    else if table[|table| - 1].tag == tag then Some(|table| - 1)
    else
      var r := RowOf(table[..|table| - 1], tag);
      assert RowTags(table) == RowTags(table[..|table| - 1]) + [table[|table| - 1].tag];
      r
  }

  /** One visit of the inner loop: create the tag's row if missing, count
      the question, and count it as correct when it is. */
  function AddPair(table: seq<TagEntry>, p: (string, bool)): seq<TagEntry>
  {
    var bump := if p.1 then 1 else 0;
    var row := RowOf(table, p.0);
    if row.Some? then
      table[row.value := TagEntry(p.0, table[row.value].total + 1, table[row.value].correct + bump)]
    else
      table + [TagEntry(p.0, 1, bump)]
  }

  /** The statistics the loops build from the visited pairs. */
  function TableOf(pairs: seq<(string, bool)>): seq<TagEntry>
  {
    if pairs == [] then [] else AddPair(TableOf(pairs[..|pairs| - 1]), pairs[|pairs| - 1])
  }

  function SumTotals(table: seq<TagEntry>): int
  {
    if table == [] then 0 else SumTotals(table[..|table| - 1]) + table[|table| - 1].total
  }

  lemma {:induction false} SumTotalsUpdate(table: seq<TagEntry>, i: nat, e: TagEntry)
    requires i < |table|
    ensures SumTotals(table[i := e]) == SumTotals(table) - table[i].total + e.total
  {
    var n := |table|;
    if i < n - 1 {
      assert table[i := e][..n - 1] == table[..n - 1][i := e];
      SumTotalsUpdate(table[..n - 1], i, e);
    } else {
      assert table[i := e][..n - 1] == table[..n - 1];
    }
  }

  lemma {:induction false} SumTotalsAppend(table: seq<TagEntry>, e: TagEntry)
    ensures SumTotals(table + [e]) == SumTotals(table) + e.total
  {
    assert (table + [e])[..|table|] == table;
  }

  /** Each row counts at least one question and no more correct answers than
      questions. */
  lemma {:induction false} TableRowsBounded(pairs: seq<(string, bool)>)
    ensures forall i :: 0 <= i < |TableOf(pairs)| ==>
              1 <= TableOf(pairs)[i].total && TableOf(pairs)[i].correct <= TableOf(pairs)[i].total
  {
    if pairs != [] {
      TableRowsBounded(pairs[..|pairs| - 1]);
    }
  }

  lemma RowTagsUpdate(t: seq<TagEntry>, i: nat, e: TagEntry)
    requires i < |t| && e.tag == t[i].tag
    ensures RowTags(t[i := e]) == RowTags(t)
  {
    assert forall k :: 0 <= k < |t| ==> RowTags(t[i := e])[k] == RowTags(t)[k];
  }

  lemma RowTagsAppend(t: seq<TagEntry>, e: TagEntry)
    ensures RowTags(t + [e]) == RowTags(t) + [e.tag]
  {
    assert (t + [e])[..|t|] == t;
  }

  /** One visit adds the tag as a new last row exactly when it has none. */
  lemma AddPairRowTags(t: seq<TagEntry>, p: (string, bool))
    ensures RowTags(AddPair(t, p)) == if p.0 in RowTags(t) then RowTags(t) else RowTags(t) + [p.0]
  {
    var bump := if p.1 then 1 else 0;
    match RowOf(t, p.0)
    case Some(i) =>
      RowTagsUpdate(t, i, TagEntry(p.0, t[i].total + 1, t[i].correct + bump));
      assert RowTags(t)[i] == p.0;
    case None =>
      RowTagsAppend(t, TagEntry(p.0, 1, bump));
  }

  /** One visit counts one more question. */
  lemma AddPairTotals(t: seq<TagEntry>, p: (string, bool))
    ensures SumTotals(AddPair(t, p)) == SumTotals(t) + 1
  {
    var bump := if p.1 then 1 else 0;
    match RowOf(t, p.0)
    case Some(i) =>
      SumTotalsUpdate(t, i, TagEntry(p.0, t[i].total + 1, t[i].correct + bump));
    case None =>
      SumTotalsAppend(t, TagEntry(p.0, 1, bump));
  }

  /** The rows are the distinct visited tags, in first-seen order. */
  lemma {:induction false} TableRowTags(pairs: seq<(string, bool)>)
    ensures RowTags(TableOf(pairs)) == Distinct(PairTags(pairs))
  {
    if pairs != [] {
      var init, p := pairs[..|pairs| - 1], pairs[|pairs| - 1];
      TableRowTags(init);
      AddPairRowTags(TableOf(init), p);
      var tags := PairTags(pairs);
      assert tags[..|tags| - 1] == PairTags(init);
      assert tags[|tags| - 1] == p.0;
      var d := Distinct(PairTags(init));
      assert Distinct(tags) == if p.0 in d then d else d + [p.0];
    }
  }

  /** The row totals add up to the number of visited pairs. */
  lemma {:induction false} TableTotals(pairs: seq<(string, bool)>)
    ensures SumTotals(TableOf(pairs)) == |pairs|
  {
    if pairs != [] {
      var init := pairs[..|pairs| - 1];
      TableTotals(init);
      AddPairTotals(TableOf(init), pairs[|pairs| - 1]);
    }
  }

  lemma {:induction false} PairTagsAppend(a: seq<(string, bool)>, b: seq<(string, bool)>)
    ensures PairTags(a + b) == PairTags(a) + PairTags(b)
  {
    assert PairTags(a + b) == PairTags(a) + PairTags(b);
  }

  /** The visited tags are the flattened tag lists of the questions. */
  lemma {:induction false} PairTagsAllTags(questions: seq<ExamQuestion>, answers: map<string, string>)
    ensures PairTags(PairsOf(questions, answers)) == AllTags(questions)
  {
    if questions != [] {
      var init, q := questions[..|questions| - 1], questions[|questions| - 1];
      PairTagsAllTags(init, answers);
      PairTagsAppend(PairsOf(init, answers), Marked(TagsOf(q), AnsweredCorrectly(q, answers)));
      assert PairTags(Marked(TagsOf(q), AnsweredCorrectly(q, answers))) == TagsOf(q);
    }
  }

  /** The tags saved with a result (`Array.from(new Set(...))`) are the rows
      of the statistics, in the same order. */
  lemma SavedTagsAreRows(questions: seq<ExamQuestion>, answers: map<string, string>)
    ensures Distinct(AllTags(questions)) == RowTags(TableOf(PairsOf(questions, answers)))
  {
    TableRowTags(PairsOf(questions, answers));
    PairTagsAllTags(questions, answers);
  }

  /** The pairs of one question's tags added to a table. */
  function AddTags(table: seq<TagEntry>, tags: seq<string>, isCorrect: bool): seq<TagEntry>
  {
    if tags == [] then table else AddPair(AddTags(table, tags[..|tags| - 1], isCorrect), (tags[|tags| - 1], isCorrect))
  }

  lemma {:induction false} TableOfMarked(before: seq<(string, bool)>, tags: seq<string>, isCorrect: bool)
    ensures TableOf(before + Marked(tags, isCorrect)) == AddTags(TableOf(before), tags, isCorrect)
  {
    if tags == [] {
      assert before + Marked(tags, isCorrect) == before;
    } else {
      var n := |tags|;
      TableOfMarked(before, tags[..n - 1], isCorrect);
      assert before + Marked(tags, isCorrect) == (before + Marked(tags[..n - 1], isCorrect)) + [(tags[n - 1], isCorrect)];
    }
  }

  lemma AddTagsStep(table0: seq<TagEntry>, tags: seq<string>, j: nat, isCorrect: bool)
    requires j < |tags|
    ensures AddTags(table0, tags[..j + 1], isCorrect) == AddPair(AddTags(table0, tags[..j], isCorrect), (tags[j], isCorrect))
  {
    assert tags[..j + 1][..j] == tags[..j];
  }

  /** The inner `tags.forEach` loop. */
  method CountTags(table0: seq<TagEntry>, tags: seq<string>, isCorrect: bool) returns (table: seq<TagEntry>)
    ensures table == AddTags(table0, tags, isCorrect)
  {
    table := table0;
    var j := 0;
    while j < |tags|
      invariant 0 <= j <= |tags|
      invariant table == AddTags(table0, tags[..j], isCorrect)
    {
      var tag := tags[j];
      AddTagsStep(table0, tags, j, isCorrect);
      ghost var prev := table;
      var row := RowOf(table, tag);
      if row.Some? {
        var k := row.value;
        table := table[k := TagEntry(tag, table[k].total + 1, table[k].correct + (if isCorrect then 1 else 0))];
      } else {
        table := table + [TagEntry(tag, 1, if isCorrect then 1 else 0)];
      }
      assert table == AddPair(prev, (tag, isCorrect));
      j := j + 1;
    }
    assert tags[..j] == tags;
  }

  /** The `tagStats` loops: for each question, for each of its tags, count it. */
  method BuildTagStats(questions: seq<ExamQuestion>, answers: map<string, string>) returns (table: seq<TagEntry>)
    ensures table == TableOf(PairsOf(questions, answers))
  {
    table := [];
    var i := 0;
    while i < |questions|
      invariant 0 <= i <= |questions|
      invariant table == TableOf(PairsOf(questions[..i], answers))
    {
      var q := questions[i];
      var isCorrect := AnsweredCorrectly(q, answers);
      TableOfMarked(PairsOf(questions[..i], answers), TagsOf(q), isCorrect);
      table := CountTags(table, TagsOf(q), isCorrect);
      assert questions[..i + 1][..i] == questions[..i];
      i := i + 1;
    }
    assert questions[..i] == questions;
  }

  /** A row of the category ranking. */
  datatype Category = Category(tag: string, total: nat, correct: nat, percentage: int)

  function Pct(c: Category): int { c.percentage }

  function Categories(table: seq<TagEntry>): (r: seq<Category>)
    ensures |r| == |table|
    ensures forall i :: 0 <= i < |table| ==>
              r[i] == Category(table[i].tag, table[i].total, table[i].correct, Percent(table[i].correct, table[i].total))
  {
    if table == [] then []
    else
      var e := table[0];
      [Category(e.tag, e.total, e.correct, Percent(e.correct, e.total))] + Categories(table[1..])
  }

  /** `sortedCategories`: the rows, best percentage first (a stable sort). */
  function SortedCategories(table: seq<TagEntry>): seq<Category>
  {
    SortDesc(Categories(table), Pct)
  }

  /** The ranking is non-increasing in percentage and holds exactly the rows. */
  lemma SortedCategoriesSpec(table: seq<TagEntry>)
    ensures SortedDesc(SortedCategories(table), Pct)
    ensures multiset(SortedCategories(table)) == multiset(Categories(table))
  {
    SortDescSpec(Categories(table), Pct);
  }

  /** `getTimeDisplay()`. Times are whole seconds. */
  function TimeDisplay(isTestMode: bool, elapsed: nat, totalExamTime: int): string
  {
    if isTestMode then
      var remaining := if totalExamTime - elapsed > 0 then totalExamTime - elapsed else 0;
      if remaining == 0 then "Time's up (" + Clock(elapsed) + " used)"
      else "Time used: " + Clock(elapsed) + " (" + Clock(remaining) + " remaining)"
    else "Total time: " + Clock(elapsed)
  }

  /** "Time's up" is shown exactly in test mode once the time is spent. */
  lemma {:induction false} TimeDisplaySpec(isTestMode: bool, elapsed: nat, totalExamTime: int)
    ensures var d := TimeDisplay(isTestMode, elapsed, totalExamTime);
            |d| >= 9 && (d[..9] == "Time's up" <==> isTestMode && totalExamTime <= elapsed)
  {
    var d := TimeDisplay(isTestMode, elapsed, totalExamTime);
    if isTestMode && totalExamTime <= elapsed {
      assert d[..9] == "Time's up";
    } else if isTestMode {
      assert d[5] == 'u';
    } else {
      assert d[4] == 'l';
    }
  }

  /** The threshold the results screen compares against:
      `parseInt(localStorage.getItem(key) || "60", 10)`; `None` is NaN. */
  function StoredThreshold(items: map<string, string>, exam: string): Option<int>
  {
    var key := ThresholdKey(exam);
    ParseInt(if key in items && items[key] != "" then items[key] else "60")
  }

  /** A threshold written by the achievements hook is read back unchanged,
      and a missing one is 60, the hook's default. */
  lemma StoredThresholdAgrees(items: map<string, string>, exam: string, t: int)
    ensures StoredThreshold(items[ThresholdKey(exam) := IntFormat().encode(t)], exam) == Some(t)
    ensures ThresholdKey(exam) !in items ==> StoredThreshold(items, exam) == Some(DefaultThreshold)
  {
    ParseIntIntText(t);
    assert NatText(6) == "6";
    assert IntText(60) == "60";
    ParseIntIntText(60);
  }

  /** The score-threshold unlock check of the results screen: the score
      reaches the stored threshold, the stored achievement parses, one more
      test brings its count to 3, and it is not completed yet. */
  predicate SignalsThreshold(items: map<string, string>, exam: string, score: int, fmt: Format<Achievement>)
  {
    var key := ScoreAchievementKey(exam);
    StoredThreshold(items, exam).Some? && score >= StoredThreshold(items, exam).value
    && key in items && items[key] != "" && fmt.decode(items[key]).Some?
    && OrZero(fmt.decode(items[key]).value.currentCount) + 1 >= 3
    && !fmt.decode(items[key]).value.isCompleted
  }

  /** The fields passed to `saveTestResult`. */
  function ResultFields(t: Tally, score: int, total: nat, testType: string, tags: seq<string>): map<string, Json>
  {
    map["score" := JNum(score), "totalQuestions" := JNum(total), "correctAnswers" := JNum(t.correct),
        "testType" := JStr(testType), "tags" := JArr(StrList(tags))]
  }

  function StrList(tags: seq<string>): (r: seq<Json>)
    ensures |r| == |tags| && forall i :: 0 <= i < |tags| ==> r[i] == JStr(tags[i])
  {
    if tags == [] then [] else [JStr(tags[0])] + StrList(tags[1..])
  }

  /** The `testResultSaved` payload; `id` is the saved result's id. */
  function ResultEvent(saved: Json, score: int, total: nat, correct: nat, exam: string): (e: Json)
    ensures Field(e, "id") == Some(if Field(saved, "id").Some? then Field(saved, "id").value else JNull)
    ensures Field(e, "examType") == Some(JStr(exam)) && Field(e, "score") == Some(JNum(score))
  {
    var id := match Field(saved, "id") case Some(v) => v case None => JNull;
    JObj(map["id" := id, "score" := JNum(score), "totalQuestions" := JNum(total),
             "correctAnswers" := JNum(correct), "examType" := JStr(exam)])
  }

  /** `saveTestResult` together with the `testResultSaved` event it
      dispatches synchronously with the saved result as payload, heard by the
      mounted achievements engine. */
  method SaveAndDispatch(history: TestHistoryHook, engine: Engine, fields: map<string, Json>, nowMs: int, isoDate: string)
    returns (saved: Json)
    requires history.Valid() && engine.Valid() && engine.store == history.store
    modifies history, history.store, engine, engine.scoreAchievement
    ensures history.Valid() && engine.Valid()
    ensures history.selectedExam == old(history.selectedExam) && history.isLoaded == old(history.isLoaded)
    ensures engine.examType == old(engine.examType) && engine.listenerScore == old(engine.listenerScore)
    ensures saved == NewResult(fields, nowMs, isoDate, history.selectedExam)
    ensures history.history == StoredArray(old(history.store.items), history.json) + [saved]
    ensures var h := Heard(engine.listenerScore, old(engine.scoreAchievement.state), saved, nowMs,
                           old(engine.lastProcessedTestId), engine.examType, engine.threshold.state);
            engine.scoreAchievement.state == h.next
            && engine.newlyUnlocked == old(engine.newlyUnlocked) + Unlocked(h.fires, ScoreThresholdId)
    ensures history.store.items
         == HeardStore(old(history.store.items)[HistoryKey := history.json.encode(JArr(history.history))],
                       engine.scoreAchievement.fmt, engine.listenerScore, old(engine.scoreAchievement.state), saved,
                       nowMs, old(engine.lastProcessedTestId), engine.examType, engine.threshold.state)
  {
    saved := history.SaveTestResult(fields, nowMs, isoDate);
    engine.OnTestResultSaved(saved, nowMs);
  }

  /** Because the engine hears the saved result first, the results screen's
      check adds one to a count that already includes this test: with a
      stored count of 1, a qualifying test leaves the stored count at 2 and
      still raises the score-threshold unlock flags. */
  lemma UnlockFlagsAtTwo(items: map<string, string>, fmt: Format<Achievement>, a: Achievement, saved: Json,
                         nowMs: int, exam: string)
    requires Lawful(fmt)
    requires a.currentCount == Some(1) && !a.isCompleted
    requires StoredThreshold(items, exam).Some?
    requires TestOutcome(a, saved, nowMs, None, exam, StoredThreshold(items, exam).value) == Counted
    ensures var written := HeardStore(items, fmt, a, a, saved, nowMs, None, exam, StoredThreshold(items, exam).value)
                             [CompletedKey(exam) := "true"];
            var key := ScoreAchievementKey(exam);
            key in written && fmt.decode(written[key]).Some?
            && fmt.decode(written[key]).value.currentCount == Some(2)
            && SignalsThreshold(written, exam, Score(saved).value, fmt)
  {
    var threshold := StoredThreshold(items, exam).value;
    var next := ThresholdStep(a, 2, nowMs).next;
    assert Heard(a, a, saved, nowMs, None, exam, threshold) == Step(next, false);
    assert next != a;
    var key := ScoreAchievementKey(exam);
    var written := items[key := fmt.encode(next)][CompletedKey(exam) := "true"];
    assert |CompletedKey(exam)| != |key|;
    assert |ThresholdKey(exam)| != |key| && |ThresholdKey(exam)| != |CompletedKey(exam)|;
    assert written[key] == fmt.encode(next);
    assert fmt.decode(fmt.encode(next)) == Some(next);
    assert StoredThreshold(written, exam) == StoredThreshold(items, exam);
  }

  /** The exam is marked completed, then the unlock check reads the store
      and, when it holds, raises the score-threshold unlock flags. */
  method MarkCompleted(store: Storage, exam: string, score: int, fmt: Format<Achievement>)
    modifies store
    ensures var written := old(store.items)[CompletedKey(exam) := "true"];
            store.items == SignalIf(written, SignalsThreshold(written, exam, score, fmt), exam, ScoreThresholdId)
  {
    store.SetItem(CompletedKey(exam), "true");
    if SignalsThreshold(store.items, exam, score, fmt) {
      store.SetItem(UnlockedKey(exam), "true");
      store.SetItem(TypeUnlockedKey(exam), ScoreThresholdId);
    }
  }

  /** The body of the save effect for the selected exam: save and dispatch,
      mark the exam completed, run the unlock check, and build the payload. */
  method Record(history: TestHistoryHook, engine: Engine, exam: string, fields: map<string, Json>,
                score: int, total: nat, correct: nat, nowMs: int, isoDate: string)
    returns (saved: Json, event: Json)
    requires history.Valid() && engine.Valid() && engine.store == history.store
    requires history.selectedExam == Some(exam)
    modifies history, history.store, engine, engine.scoreAchievement
    ensures history.Valid() && engine.Valid() && history.selectedExam == old(history.selectedExam)
    ensures engine.examType == old(engine.examType) && engine.listenerScore == old(engine.listenerScore)
    ensures saved == NewResult(fields, nowMs, isoDate, Some(exam))
    ensures history.history == StoredArray(old(history.store.items), history.json) + [saved]
    ensures event == ResultEvent(saved, score, total, correct, exam)
    ensures var stored := old(history.store.items)[HistoryKey := history.json.encode(JArr(history.history))];
            var written := HeardStore(stored, engine.scoreAchievement.fmt, engine.listenerScore,
                                      old(engine.scoreAchievement.state), saved, nowMs,
                                      old(engine.lastProcessedTestId), engine.examType, engine.threshold.state)
                           [CompletedKey(exam) := "true"];
            history.store.items == SignalIf(written, SignalsThreshold(written, exam, score, engine.scoreAchievement.fmt),
                                            exam, ScoreThresholdId)
  {
    saved := SaveAndDispatch(history, engine, fields, nowMs, isoDate);
    MarkCompleted(history.store, exam, score, engine.scoreAchievement.fmt);
    event := ResultEvent(saved, score, total, correct, exam);
  }

  class ResultsScreen {
    var resultSaved: bool
    var eventDispatched: bool

    constructor ()
      ensures !resultSaved && !eventDispatched
    {
      resultSaved := false;
      eventDispatched := false;
    }

    /** The save effect, with its 100 ms delay taken as elapsed: once per
        screen and only with an exam selected, saves the result, marks the
        exam completed, produces the event payload and sets the unlock flags
        when the check holds. Returns the payload, if one was sent.
        `saveTestResult` dispatches `testResultSaved` itself, synchronously,
        and the home page's achievements engine is mounted meanwhile, so the
        engine hears the saved result before the completed mark is written and
        before the check reads the stored record. The delayed copy of the
        event carries the same id and is ignored (`DuplicateIgnored`). */
    method SaveOnce(history: TestHistoryHook, engine: Engine, questions: seq<ExamQuestion>,
                    answers: map<string, string>, testType: string, nowMs: int, isoDate: string)
      returns (event: Option<Json>)
      requires history.Valid() && engine.Valid() && engine.store == history.store
      modifies this, history, history.store, engine, engine.scoreAchievement
      ensures history.Valid() && engine.Valid() && history.selectedExam == old(history.selectedExam)
      ensures engine.examType == old(engine.examType) && engine.listenerScore == old(engine.listenerScore)
      ensures old(resultSaved) || old(eventDispatched) || !Selected(history.selectedExam) ==>
                event.None? && history.history == old(history.history)
                && history.store.items == old(history.store.items)
                && resultSaved == old(resultSaved) && eventDispatched == old(eventDispatched)
                && engine.scoreAchievement.state == old(engine.scoreAchievement.state)
                && engine.newlyUnlocked == old(engine.newlyUnlocked)
                && engine.lastProcessedTestId == old(engine.lastProcessedTestId)
      ensures !old(resultSaved) && !old(eventDispatched) && Selected(history.selectedExam) ==>
                var exam := history.selectedExam.value;
                var t := TallyOf(questions, answers);
                var score := Percent(t.correct, |questions|);
                var saved := NewResult(ResultFields(t, score, |questions|, testType, Distinct(AllTags(questions))),
                                       nowMs, isoDate, history.selectedExam);
                var stored := old(history.store.items)[HistoryKey := history.json.encode(JArr(history.history))];
                var heard := HeardStore(stored, engine.scoreAchievement.fmt, engine.listenerScore,
                                        old(engine.scoreAchievement.state), saved, nowMs,
                                        old(engine.lastProcessedTestId), engine.examType, engine.threshold.state);
                var written := heard[CompletedKey(exam) := "true"];
                resultSaved && eventDispatched
                && history.history == StoredArray(old(history.store.items), history.json) + [saved]
                && event == Some(ResultEvent(saved, score, |questions|, t.correct, exam))
                && history.store.items == SignalIf(written, SignalsThreshold(written, exam, score, engine.scoreAchievement.fmt),
                                                   exam, ScoreThresholdId)
    {
      if resultSaved || eventDispatched || !Selected(history.selectedExam) {
        return None;
      }
      var payload := Save(history, engine, questions, answers, testType, nowMs, isoDate);
      event := Some(payload);
    }

    /** The save effect past its guard. */
    method Save(history: TestHistoryHook, engine: Engine, questions: seq<ExamQuestion>,
                answers: map<string, string>, testType: string, nowMs: int, isoDate: string)
      returns (event: Json)
      requires history.Valid() && engine.Valid() && engine.store == history.store
      requires Selected(history.selectedExam)
      modifies this, history, history.store, engine, engine.scoreAchievement
      ensures history.Valid() && engine.Valid() && history.selectedExam == old(history.selectedExam)
      ensures engine.examType == old(engine.examType) && engine.listenerScore == old(engine.listenerScore)
      ensures var exam := history.selectedExam.value;
              var t := TallyOf(questions, answers);
              var score := Percent(t.correct, |questions|);
              var saved := NewResult(ResultFields(t, score, |questions|, testType, Distinct(AllTags(questions))),
                                     nowMs, isoDate, history.selectedExam);
              var stored := old(history.store.items)[HistoryKey := history.json.encode(JArr(history.history))];
              var heard := HeardStore(stored, engine.scoreAchievement.fmt, engine.listenerScore,
                                      old(engine.scoreAchievement.state), saved, nowMs,
                                      old(engine.lastProcessedTestId), engine.examType, engine.threshold.state);
              var written := heard[CompletedKey(exam) := "true"];
              resultSaved && eventDispatched
              && history.history == StoredArray(old(history.store.items), history.json) + [saved]
              && event == ResultEvent(saved, score, |questions|, t.correct, exam)
              && history.store.items == SignalIf(written, SignalsThreshold(written, exam, score, engine.scoreAchievement.fmt),
                                                 exam, ScoreThresholdId)
    {
      var exam := history.selectedExam.value;
      var t := TallyOf(questions, answers);
      var score := Percent(t.correct, |questions|);
      var saved;
      saved, event := Record(history, engine, exam, ResultFields(t, score, |questions|, testType, Distinct(AllTags(questions))),
                             score, |questions|, t.correct, nowMs, isoDate);
      MarkSent();
    }

    /** The result is saved and the event sent. */
    method MarkSent()
      modifies this
      ensures resultSaved && eventDispatched
    {
      eventDispatched := true;
      resultSaved := true;
    }

    /** `handleReset`: clears the dispatched flag and the completed mark. */
    method Reset(store: Storage, selectedExam: Option<string>)
      modifies this, store
      ensures !eventDispatched && resultSaved == old(resultSaved)
      ensures Selected(selectedExam) ==> store.items == old(store.items) - {CompletedKey(selectedExam.value)}
      ensures !Selected(selectedExam) ==> store.items == old(store.items)
    {
      eventDispatched := false;
      if Selected(selectedExam) {
        store.RemoveItem(CompletedKey(selectedExam.value));
      }
    }
  }
}
