/** The `useDailyQuestion` hook: one question per day and exam, a persisted
    list of daily records, and the streak of correct answers. Dates are day
    numbers; the question server's reply is a parameter. */
module DailyQuestion {
  import opened Common
  import opened Store
  import opened Seqs

  datatype Question = Question(id: string, correctAnswer: string)

  datatype DailyRecord = DailyRecord(
    date: int,
    questionId: string,
    question: Question,
    answered: bool,
    correct: bool)

  /** What a request to the question server ends with: the questions it sent
      back, an error with its message (a failed status or a network error), or
      an abort because a newer request replaced it. */
  datatype Reply = Delivered(questions: seq<Question>) | Failed(message: string) | Aborted

  const NoQuestionsMessage: string := "No se recibieron preguntas del servidor"
  const QuestionsEndpoint: string := "https://quientecrea.pythonanywhere.com/api/v1/questions/1?table_name="

  function StorageKey(selectedExam: Option<string>): string
  {
    ExamOrDefault(selectedExam) + "-daily-questions"
  }

  function TableName(selectedExam: Option<string>): string
  {
    ExamOrDefault(selectedExam) + "questions"
  }

  function DateKey(r: DailyRecord): int { r.date }

  function QuestionIds(h: seq<DailyRecord>): (ids: seq<string>)
    ensures |ids| == |h|
    ensures forall i :: 0 <= i < |h| ==> ids[i] == h[i].questionId
  {
    if h == [] then [] else [h[0].questionId] + QuestionIds(h[1..])
  }

  /** The URL of a new question, excluding the questions already seen. */
  function QuestionUrl(table: string, h: seq<DailyRecord>): string
  {
    QuestionsEndpoint + table + (if |h| > 0 then "&exclude=" + Join(QuestionIds(h), ",") else "")
  }

  /** The exclude parameter lists the seen question ids in history order: when
      no id contains a comma, splitting it on commas gives them back. */
  lemma ExcludeListRoundTrip(table: string, h: seq<DailyRecord>)
    requires |h| > 0
    requires forall i :: 0 <= i < |h| ==> ',' !in h[i].questionId
    ensures var url := QuestionUrl(table, h);
            var prefix := QuestionsEndpoint + table + "&exclude=";
            |prefix| <= |url| && url[..|prefix|] == prefix
            && Split(url[|prefix|..], ",") == QuestionIds(h)
  {
    var ids := QuestionIds(h);
    forall i | 0 <= i < |ids| ensures ',' !in ids[i] {
      assert ids[i] == h[i].questionId;
    }
    SplitJoin(ids, ',');
    var prefix := QuestionsEndpoint + table + "&exclude=";
    var list := Join(ids, [',']);
    assert QuestionUrl(table, h) == prefix + list;
    assert (prefix + list)[|prefix|..] == list;
    assert (prefix + list)[..|prefix|] == prefix;
  }

  /** No URL without history carries an exclude list. */
  lemma EmptyHistoryUrl(table: string)
    ensures QuestionUrl(table, []) == QuestionsEndpoint + table
  {
  }

  /** The length of the run of answered-and-correct records at the head. */
  function CorrectRun(s: seq<DailyRecord>): (n: nat)
    ensures n <= |s|
  {
    if s == [] || !(s[0].answered && s[0].correct) then 0 else 1 + CorrectRun(s[1..])
  }

  /** CorrectRun is the longest such run: every record before it is answered
      and correct, and the record right after it (if any) is not. */
  lemma {:induction false} CorrectRunIsLongestRun(s: seq<DailyRecord>)
    ensures forall i :: 0 <= i < CorrectRun(s) ==> s[i].answered && s[i].correct
    ensures CorrectRun(s) < |s| ==> !(s[CorrectRun(s)].answered && s[CorrectRun(s)].correct)
  {
    if s != [] && s[0].answered && s[0].correct {
      CorrectRunIsLongestRun(s[1..]);
    }
  }

  /** The records newest first (a stable sort by date). */
  function NewestFirst(h: seq<DailyRecord>): seq<DailyRecord>
  {
    SortDesc(h, DateKey)
  }

  /** The streak the hook computes from a history. */
  function StreakOf(h: seq<DailyRecord>): nat
  {
    CorrectRun(NewestFirst(h))
  }

  /** The counting loop: count answered-and-correct records from the head of
      the sorted history, stopping at the first other one. */
  method CountStreak(sorted: seq<DailyRecord>) returns (streak: nat)
    ensures streak == CorrectRun(sorted)
  {
    streak := 0;
    var i := 0;
    while i < |sorted|
      invariant 0 <= i <= |sorted| && streak == i
      invariant CorrectRun(sorted) == i + CorrectRun(sorted[i..])
    {
      if sorted[i].answered && sorted[i].correct {
        assert sorted[i..][1..] == sorted[i + 1..];
        streak := streak + 1;
        i := i + 1;
      } else {
        break;
      }
    }
    if i == |sorted| {
      assert sorted[i..] == [];
    }
  }

  /** `history.find(entry => entry.date === today)`. */
  function FindDay(h: seq<DailyRecord>, day: int): (r: Option<nat>)
    ensures r.Some? ==> r.value < |h| && h[r.value].date == day
    ensures r.Some? ==> forall j :: 0 <= j < r.value ==> h[j].date != day
    ensures r.None? ==> forall j :: 0 <= j < |h| ==> h[j].date != day
  {
    if h == [] then None
    else if h[0].date == day then Some(0)
    else match FindDay(h[1..], day)
      case None => None
      case Some(k) => Some(k + 1)
  }

  /** At most one record per date. */
  ghost predicate OnePerDay(h: seq<DailyRecord>)
  {
    forall i, j :: 0 <= i < j < |h| ==> h[i].date != h[j].date
  }

  /** The history update of `answerQuestion`: records dated today become
      answered with the given correctness; the others are kept. */
  function MarkAnswered(h: seq<DailyRecord>, day: int, isCorrect: bool): (r: seq<DailyRecord>)
    ensures |r| == |h|
    ensures forall i :: 0 <= i < |h| && h[i].date == day ==>
              r[i] == h[i].(answered := true, correct := isCorrect)
    ensures forall i :: 0 <= i < |h| && h[i].date != day ==> r[i] == h[i]
  {
    if h == [] then []
    else
      var first := if h[0].date == day then h[0].(answered := true, correct := isCorrect) else h[0];
      [first] + MarkAnswered(h[1..], day, isCorrect)
  }

  /** Marking keeps every date, so one record per day is preserved. */
  lemma MarkAnsweredKeepsDates(h: seq<DailyRecord>, day: int, isCorrect: bool)
    ensures forall i :: 0 <= i < |h| ==> MarkAnswered(h, day, isCorrect)[i].date == h[i].date
    ensures OnePerDay(h) ==> OnePerDay(MarkAnswered(h, day, isCorrect))
  {
    var r := MarkAnswered(h, day, isCorrect);
    forall i | 0 <= i < |h| ensures r[i].date == h[i].date {
      if h[i].date == day {
        assert r[i] == h[i].(answered := true, correct := isCorrect);
      }
    }
  }

  function NewRecord(day: int, q: Question): DailyRecord
  {
    DailyRecord(day, q.id, q, false, false)
  }

  class DailyQuestionHook {
    const store: Storage
    /** The JSON codec of the stored record list. */
    const fmt: Format<seq<DailyRecord>>
    var selectedExam: Option<string>
    var question: Option<Question>
    var loading: bool
    var error: Option<string>
    var history: seq<DailyRecord>
    var streak: nat
    var todayAnswered: bool
    var todayCorrect: Option<bool>

    ghost predicate Valid()
      reads this
    {
      Lawful(fmt)
    }

    function Key(): string
      reads this
    {
      StorageKey(selectedExam)
    }

    constructor (store: Storage, fmt: Format<seq<DailyRecord>>, selectedExam: Option<string>)
      requires Lawful(fmt)
      ensures Valid()
      ensures this.store == store && this.fmt == fmt && this.selectedExam == selectedExam
      ensures question.None? && loading && error.None? && history == [] && streak == 0
      ensures !todayAnswered && todayCorrect.None?
    {
      this.store := store;
      this.fmt := fmt;
      this.selectedExam := selectedExam;
      question := None;
      loading := true;
      error := None;
      history := [];
      streak := 0;
      todayAnswered := false;
      todayCorrect := None;
    }

    /** The first part of the load effect: reset the state and read the
        stored records. An unparseable list is removed from the store. Returns
        the history the rest of the load works with, and where today's record
        is in it. */
    method ReadStored(today: int) returns (h: seq<DailyRecord>, todayIndex: Option<nat>)
      requires Valid()
      modifies this, store
      ensures Valid() && selectedExam == old(selectedExam)
      ensures h == ParsedStored(old(store.items), Key(), fmt)
      ensures history == h && streak == StreakOf(h) && error.None?
      ensures store.items == DropMalformed(old(store.items), Key(), fmt)
      ensures todayIndex == FindDay(h, today)
      ensures todayIndex.Some? ==>
                question == Some(h[todayIndex.value].question) && !loading
                && todayAnswered == h[todayIndex.value].answered
                && todayCorrect == (if h[todayIndex.value].correct then Some(true) else None)
      ensures todayIndex.None? ==> question.None? && loading && !todayAnswered && todayCorrect.None?
    {
      question, loading, error, history, streak, todayAnswered, todayCorrect :=
        None, true, None, [], 0, false, None;
      h := [];
      var key := Key();
      if store.Holds(key) {
        match fmt.decode(store.items[key])
        case Some(stored) =>
          h := stored;
          var run := CountStreak(NewestFirst(stored));
          history := stored;
          streak := run;
        case None =>
          store.RemoveItem(key);
      }
      todayIndex := FindDay(h, today);
      if todayIndex.Some? {
        var entry := h[todayIndex.value];
        todayAnswered := entry.answered;
        todayCorrect := if entry.correct then Some(true) else None;
        question := Some(entry.question);
        loading := false;
      }
    }

    /** The load effect (run on mount and whenever the selected exam changes):
        read the stored records and, when none is dated today, request a new
        question excluding the ones already seen. Returns the URL requested,
        if any; `reply` is the server's answer to it. */
    method Load(today: int, reply: Reply) returns (url: Option<string>)
      requires Valid()
      modifies this, store
      ensures Valid() && selectedExam == old(selectedExam)
      ensures var h := ParsedStored(old(store.items), Key(), fmt);
              streak == StreakOf(h)
      ensures var h := ParsedStored(old(store.items), Key(), fmt);
              var i := FindDay(h, today);
              i.Some? ==>
                url.None? && history == h && store.items == old(store.items) && error.None?
                && question == Some(h[i.value].question) && !loading
                && todayAnswered == h[i.value].answered
                && todayCorrect == (if h[i.value].correct then Some(true) else None)
      ensures var h := ParsedStored(old(store.items), Key(), fmt);
              FindDay(h, today).None? ==>
                url == Some(QuestionUrl(TableName(selectedExam), h)) && !todayAnswered && todayCorrect.None?
      ensures var h := ParsedStored(old(store.items), Key(), fmt);
              FindDay(h, today).None? && Fetched(reply) ==>
                history == h + [NewRecord(today, reply.questions[0])]
                && question == Some(reply.questions[0]) && !loading && error.None?
                && store.items == DropMalformed(old(store.items), Key(), fmt)[Key() := fmt.encode(history)]
      ensures var h := ParsedStored(old(store.items), Key(), fmt);
              FindDay(h, today).None? && !Fetched(reply) ==>
                history == h && question.None? && store.items == DropMalformed(old(store.items), Key(), fmt)
                && (reply.Aborted? ==> loading && error.None?)
                && (!reply.Aborted? ==> !loading && error == Some(ErrorMessage(reply)))
    {
      var h, todayIndex := ReadStored(today);
      url := None;
      if todayIndex.None? {
        url := Some(QuestionUrl(TableName(selectedExam), h));
        match reply
        case Delivered(qs) =>
          if |qs| == 0 {
            error := Some(NoQuestionsMessage);
            loading := false;
          } else {
            var updated := h + [NewRecord(today, qs[0])];
            store.SetItem(Key(), fmt.encode(updated));
            question := Some(qs[0]);
            history := updated;
            loading := false;
          }
        case Failed(m) =>
          error := Some(m);
          loading := false;
        case Aborted =>
      }
    }

    /** `answerQuestion(answer)`: with a question loaded and today not yet
        answered, records the answer on today's records, persists them and
        moves the streak; returns whether the answer was correct. */
    method AnswerQuestion(answer: string, today: int) returns (isCorrect: bool)
      requires Valid()
      modifies this, store
      ensures Valid() && selectedExam == old(selectedExam) && question == old(question)
      ensures loading == old(loading) && error == old(error)
      ensures old(question).None? || old(todayAnswered) ==>
                !isCorrect && history == old(history) && streak == old(streak)
                && todayAnswered == old(todayAnswered) && todayCorrect == old(todayCorrect)
                && store.items == old(store.items)
      ensures old(question).Some? && !old(todayAnswered) ==>
                isCorrect == (answer == old(question).value.correctAnswer)
                && history == MarkAnswered(old(history), today, isCorrect)
                && streak == (if isCorrect then old(streak) + 1 else 0)
                && todayAnswered && todayCorrect == Some(isCorrect)
                && store.items == old(store.items)[Key() := fmt.encode(history)]
      ensures OnePerDay(old(history)) ==> OnePerDay(history)
    {
      if question.None? || todayAnswered {
        return false;
      }
      isCorrect := answer == question.value.correctAnswer;
      var updated := MarkAnswered(history, today, isCorrect);
      MarkAnsweredKeepsDates(history, today, isCorrect);
      var newStreak := if isCorrect then streak + 1 else 0;
      store.SetItem(Key(), fmt.encode(updated));
      history := updated;
      todayAnswered := true;
      todayCorrect := Some(isCorrect);
      streak := newStreak;
    }

    /** `refreshQuestion()`: requests another question (without an exclude
        list) and replaces today's record in place, or appends one. Returns
        whether a question was installed. An aborted request leaves the hook
        loading. */
    method RefreshQuestion(today: int, reply: Reply) returns (ok: bool)
      requires Valid()
      modifies this, store
      ensures Valid() && selectedExam == old(selectedExam) && streak == old(streak)
      ensures ok <==> Fetched(reply)
      ensures ok ==>
                var q := reply.questions[0];
                history == Refreshed(old(history), today, q)
                && question == Some(q) && !loading && error.None?
                && !todayAnswered && todayCorrect.None?
                && store.items == old(store.items)[Key() := fmt.encode(history)]
      ensures !ok ==>
                history == old(history) && question == old(question)
                && todayAnswered == old(todayAnswered) && todayCorrect == old(todayCorrect)
                && store.items == old(store.items)
      ensures !ok && reply.Aborted? ==> loading && error.None?
      ensures !ok && !reply.Aborted? ==> !loading && error == Some(ErrorMessage(reply))
      ensures OnePerDay(old(history)) ==> OnePerDay(history)
    {
      loading := true;
      error := None;
      match reply
      case Delivered(qs) =>
        if |qs| == 0 {
          error := Some(NoQuestionsMessage);
          loading := false;
          return false;
        }
        var q := qs[0];
        var updated := history;
        var todayIndex := FindDay(updated, today);
        if todayIndex.Some? {
          var i := todayIndex.value;
          updated := updated[i := updated[i].(questionId := q.id, question := q, answered := false, correct := false)];
        } else {
          updated := updated + [NewRecord(today, q)];
        }
        RefreshedKeepsOnePerDay(history, today, q);
        store.SetItem(Key(), fmt.encode(updated));
        question := Some(q);
        history := updated;
        loading := false;
        todayAnswered := false;
        todayCorrect := None;
        return true;
      case Failed(m) =>
        error := Some(m);
        loading := false;
        return false;
      case Aborted =>
        return false;
    }
  }

  /** The records a load starts from: the stored list when it is present and
      parses, otherwise none. */
  function ParsedStored(items: map<string, string>, key: string, fmt: Format<seq<DailyRecord>>): seq<DailyRecord>
  {
    if key in items && items[key] != "" && fmt.decode(items[key]).Some?
    then fmt.decode(items[key]).value
    else []
  }

  /** The store after a load's read: an unparseable list is removed. */
  function DropMalformed(items: map<string, string>, key: string, fmt: Format<seq<DailyRecord>>): map<string, string>
  {
    if key in items && items[key] != "" && fmt.decode(items[key]).None? then items - {key} else items
  }

  /** A load adds today's record only when none is stored, and then exactly
      one; with one record per day stored, the loaded history keeps one per day. */
  lemma LoadKeepsOnePerDay(stored: seq<DailyRecord>, today: int, q: Question)
    requires FindDay(stored, today).None?
    ensures OnePerDay(stored) ==> OnePerDay(stored + [NewRecord(today, q)])
  {
    var r := stored + [NewRecord(today, q)];
    if OnePerDay(stored) {
      forall i, j | 0 <= i < j < |r| ensures r[i].date != r[j].date {
        if j == |stored| {
          assert r[i] == stored[i];
        } else {
          assert r[i] == stored[i] && r[j] == stored[j];
        }
      }
    }
  }

  predicate Fetched(reply: Reply)
  {
    reply.Delivered? && |reply.questions| > 0
  }

  function ErrorMessage(reply: Reply): string
  {
    match reply
    case Delivered(_) => NoQuestionsMessage
    case Failed(m) => m
    case Aborted => ""
  }

  /** The history after a refresh: today's record (the first one dated today)
      gets the new question and is reset to unanswered; without one, a new
      record is appended. */
  function Refreshed(h: seq<DailyRecord>, day: int, q: Question): (r: seq<DailyRecord>)
    ensures FindDay(h, day).Some? ==> |r| == |h|
    ensures FindDay(h, day).None? ==> r == h + [NewRecord(day, q)]
  {
    match FindDay(h, day)
    case Some(i) => h[i := h[i].(questionId := q.id, question := q, answered := false, correct := false)]
    case None => h + [NewRecord(day, q)]
  }

  /** A refresh changes only today's record: it keeps its index and date,
      takes the new question and becomes unanswered. */
  lemma RefreshedOnlyToday(h: seq<DailyRecord>, day: int, q: Question)
    ensures FindDay(h, day).Some? ==>
              var i := FindDay(h, day).value;
              Refreshed(h, day, q)[i] == DailyRecord(day, q.id, q, false, false)
              && forall j :: 0 <= j < |h| && j != i ==> Refreshed(h, day, q)[j] == h[j]
  {
  }

  lemma RefreshedKeepsOnePerDay(h: seq<DailyRecord>, day: int, q: Question)
    ensures forall i :: 0 <= i < |h| ==> Refreshed(h, day, q)[i].date == h[i].date
    ensures OnePerDay(h) ==> OnePerDay(Refreshed(h, day, q))
  {
    var r := Refreshed(h, day, q);
    if FindDay(h, day).None? && OnePerDay(h) {
      forall i, j | 0 <= i < j < |r| ensures r[i].date != r[j].date {
        if j == |h| {
          assert r[j].date == day && r[i] == h[i];
        } else {
          assert r[i] == h[i] && r[j] == h[j];
        }
      }
    }
  }
}
