/** The daily-challenge card: the question tab with its answer choice, the
    calendar tab, submitting an answer (which raises the exam's unlock flag
    and announces the new streak) and refreshing the question. */
module DailyQuestionCard {
  import opened Common
  import opened Store
  import opened DailyQuestion
  import opened AchievementsEngine

  const QuestionTab: int := 0
  const CalendarTab: int := 1

  /** The answer letters offered. */
  const Options: seq<string> := ["A", "B", "C", "D"]

  datatype Tone = Success | Error | Primary

  /** The colour of an option: once today is answered the correct option is
      green and a wrongly chosen one red; before, all are plain. */
  function OptionTone(answered: bool, option: string, correct: string, selected: string): Tone
  {
    if !answered then Primary
    else if option == correct then Success
    else if selected == option then Error
    else Primary
  }

  /** After answering, exactly the correct option is green, and an option is
      red exactly when it was chosen and is wrong; before, nothing stands out. */
  lemma OptionToneSpec(option: string, correct: string, selected: string)
    ensures OptionTone(true, option, correct, selected) == Success <==> option == correct
    ensures OptionTone(true, option, correct, selected) == Error <==> option == selected && option != correct
    ensures OptionTone(false, option, correct, selected) == Primary
  {
  }

  /** A right answer paints no option red. */
  lemma RightAnswerNoError(correct: string)
    ensures forall o :: o in Options ==> OptionTone(true, o, correct, correct) != Error
  {
  }

  class Card {
    const hook: DailyQuestionHook
    /** The exam the card last saw (the selected one, or the default). */
    var previousExam: string
    var selectedAnswer: string
    var activeTab: int
    var refreshing: bool
    var dataLoaded: bool

    ghost predicate Valid()
      reads this, hook
    {
      hook.Valid()
    }

    constructor (hook: DailyQuestionHook)
      requires hook.Valid()
      ensures Valid() && this.hook == hook
      ensures previousExam == ExamOrDefault(hook.selectedExam)
      ensures selectedAnswer == "" && activeTab == QuestionTab && !refreshing && !dataLoaded
    {
      this.hook := hook;
      previousExam := ExamOrDefault(hook.selectedExam);
      selectedAnswer := "";
      activeTab := QuestionTab;
      refreshing := false;
      dataLoaded := false;
    }

    /** The card shows only a spinner until the first data arrive. */
    predicate Spinner()
      reads this, hook
    {
      hook.loading && !dataLoaded
    }

    /** A change of exam starts the card afresh on the question tab. */
    method ExamChanged(exam: string)
      modifies this
      ensures previousExam == exam
      ensures old(previousExam) != exam ==>
                !dataLoaded && selectedAnswer == "" && activeTab == QuestionTab
      ensures old(previousExam) == exam ==>
                dataLoaded == old(dataLoaded) && selectedAnswer == old(selectedAnswer)
                && activeTab == old(activeTab)
      ensures refreshing == old(refreshing)
    {
      if previousExam != exam {
        previousExam := exam;
        dataLoaded := false;
        selectedAnswer := "";
        activeTab := QuestionTab;
      }
    }

    /** Once loaded, the card opens the calendar when today is answered and
        the question otherwise. */
    method SyncTab()
      modifies this
      ensures !hook.loading ==> dataLoaded && activeTab == (if hook.todayAnswered then CalendarTab else QuestionTab)
      ensures hook.loading ==> dataLoaded == old(dataLoaded) && activeTab == old(activeTab)
      ensures !hook.loading ==> !Spinner()
      ensures selectedAnswer == old(selectedAnswer) && previousExam == old(previousExam)
      ensures refreshing == old(refreshing)
    {
      if !hook.loading {
        activeTab := if hook.todayAnswered then CalendarTab else QuestionTab;
        dataLoaded := true;
      }
    }

    /** The answer can be changed only while today is unanswered. */
    method ChangeAnswer(value: string)
      modifies this
      ensures selectedAnswer == (if hook.todayAnswered then old(selectedAnswer) else value)
      ensures activeTab == old(activeTab) && dataLoaded == old(dataLoaded)
      ensures previousExam == old(previousExam) && refreshing == old(refreshing)
    {
      if !hook.todayAnswered {
        selectedAnswer := value;
      }
    }

    method ChangeTab(tab: int)
      modifies this
      ensures activeTab == tab
      ensures selectedAnswer == old(selectedAnswer) && dataLoaded == old(dataLoaded)
      ensures previousExam == old(previousExam) && refreshing == old(refreshing)
    {
      activeTab := tab;
    }

    /** `handleSubmit`: nothing happens without a chosen answer or once today
        is answered. Otherwise the answer goes to the hook and the calendar
        opens; a right answer raises the exam's unlock flag and announces the
        streak, which is the hook's new streak. */
    method Submit(today: int) returns (announced: Option<int>)
      requires Valid()
      modifies this, hook, hook.store
      ensures Valid() && hook.selectedExam == old(hook.selectedExam)
      ensures old(selectedAnswer) == "" || old(hook.todayAnswered) ==>
                announced.None? && activeTab == old(activeTab)
                && hook.history == old(hook.history) && hook.streak == old(hook.streak)
                && hook.store.items == old(hook.store.items)
      ensures old(selectedAnswer) != "" && !old(hook.todayAnswered) ==> activeTab == CalendarTab
      ensures old(hook.question).None? ==>
                announced.None? && hook.history == old(hook.history) && hook.streak == old(hook.streak)
                && hook.store.items == old(hook.store.items)
      ensures old(selectedAnswer) != "" && !old(hook.todayAnswered) && old(hook.question).Some? ==>
                var right := old(selectedAnswer) == old(hook.question).value.correctAnswer;
                hook.todayAnswered
                && hook.history == MarkAnswered(old(hook.history), today, right)
                && (right ==> announced == Some(hook.streak) && hook.streak == old(hook.streak) + 1
                              && hook.store.items == old(hook.store.items)[hook.Key() := hook.fmt.encode(hook.history)]
                                                     [UnlockedKey(previousExam) := "true"])
                && (!right ==> announced.None? && hook.streak == 0
                               && hook.store.items == old(hook.store.items)[hook.Key() := hook.fmt.encode(hook.history)])
      ensures selectedAnswer == old(selectedAnswer) && previousExam == old(previousExam)
      ensures dataLoaded == old(dataLoaded) && refreshing == old(refreshing)
    {
      announced := None;
      if selectedAnswer == "" || hook.todayAnswered {
        return;
      }
      var before := hook.streak;
      var isCorrect := hook.AnswerQuestion(selectedAnswer, today);
      activeTab := CalendarTab;
      if isCorrect {
        hook.store.SetItem(UnlockedKey(previousExam), "true");
        announced := Some(before + 1);
      }
    }

    /** `handleRefresh`: a new question, the choice cleared, the question tab
        shown. */
    method Refresh(today: int, reply: Reply) returns (ok: bool)
      requires Valid()
      modifies this, hook, hook.store
      ensures Valid() && hook.selectedExam == old(hook.selectedExam)
      ensures ok <==> Fetched(reply)
      ensures ok ==> hook.history == Refreshed(old(hook.history), today, reply.questions[0]) && !hook.todayAnswered
      ensures !ok ==> hook.history == old(hook.history) && hook.store.items == old(hook.store.items)
      ensures selectedAnswer == "" && activeTab == QuestionTab && !refreshing
      ensures previousExam == old(previousExam) && dataLoaded == old(dataLoaded)
    {
      refreshing := true;
      ok := hook.RefreshQuestion(today, reply);
      selectedAnswer := "";
      refreshing := false;
      activeTab := QuestionTab;
    }
  }
}
