/** The exam simulator: the answer sheet, the question cursor, the time
    budget, submission (by the button or by the clock) and reset. The loaded
    questions, the clock and the confirmation dialog are parameters. */
module ExamSimulator {
  import opened Common
  import opened Store
  import opened ExamSetup
  import opened Timer
  import opened Results

  /** `Math.round(count * 240 / 180) * 60` seconds in test mode with a
      positive count; otherwise the budget stays at its initial 0. */
  function TotalExamTime(isTestMode: bool, questionCount: int): (t: int)
    ensures isTestMode && questionCount > 0 ==> t == 60 * EstimatedMinutes(questionCount)
    ensures !(isTestMode && questionCount > 0) ==> t == 0
    ensures isTestMode && MinQuestions <= questionCount <= 180 ==> 420 <= t <= 14400
  {
    if isTestMode && questionCount > 0 then EstimatedMinutes(questionCount) * 60
    else 0
  }

  class Simulator {
    const store: Storage
    const exam: string
    const questions: seq<ExamQuestion>
    const isTestMode: bool
    const totalExamTime: int
    var answers: map<string, string>
    var submitted: bool
    var timeElapsed: int
    var examStartTime: Option<int>
    var index: int

    /** The cursor is on a question, or at 0 when there are none. */
    ghost predicate Valid()
      reads this
    {
      0 <= index && (index == 0 || index < |questions|)
    }

    /** Mounting with the loaded questions: the run's completed flag is
        removed and the budget is set. */
    constructor (store: Storage, selectedExam: Option<string>, questionCount: int, testType: string,
                 questions: seq<ExamQuestion>)
      modifies store
      ensures Valid() && this.store == store && this.exam == ExamOrDefault(selectedExam)
      ensures this.questions == questions && isTestMode == (testType == TestMode)
      ensures totalExamTime == TotalExamTime(testType == TestMode, questionCount)
      ensures answers == map[] && !submitted && timeElapsed == 0 && examStartTime.None? && index == 0
      ensures store.items == old(store.items) - {CompletedKey(ExamOrDefault(selectedExam))}
    {
      this.store := store;
      exam := ExamOrDefault(selectedExam);
      this.questions := questions;
      isTestMode := testType == TestMode;
      totalExamTime := TotalExamTime(testType == TestMode, questionCount);
      answers := map[];
      submitted := false;
      timeElapsed := 0;
      examStartTime := None;
      index := 0;
      new;
      store.RemoveItem(CompletedKey(exam));
    }

    /** The start-time effect: with questions and no start time, the clock
        starts now and the completed flag is removed again. */
    method StartClock(now: int)
      requires Valid()
      modifies this, store
      ensures Valid() && answers == old(answers) && submitted == old(submitted) && index == old(index)
      ensures |questions| > 0 && old(examStartTime).None? ==>
                examStartTime == Some(now) && store.items == old(store.items) - {CompletedKey(exam)}
      ensures !(|questions| > 0 && old(examStartTime).None?) ==>
                examStartTime == old(examStartTime) && store.items == old(store.items)
    {
      if |questions| > 0 && examStartTime.None? {
        examStartTime := Some(now);
        store.RemoveItem(CompletedKey(exam));
      }
    }

    /** `handleAnswerSelect`: after submission nothing changes; before it
        only this question's answer does. */
    method SelectAnswer(questionId: string, answer: string)
      requires Valid()
      modifies this
      ensures Valid() && submitted == old(submitted) && index == old(index) && examStartTime == old(examStartTime)
      ensures old(submitted) ==> answers == old(answers)
      ensures !old(submitted) ==> answers == old(answers)[questionId := answer]
    {
      if submitted {
        return;
      }
      answers := answers[questionId := answer];
    }

    method NextQuestion()
      requires Valid()
      modifies this
      ensures Valid() && answers == old(answers) && submitted == old(submitted)
      ensures old(index) < |questions| - 1 ==> index == old(index) + 1
      ensures old(index) >= |questions| - 1 ==> index == old(index)
    {
      if index < |questions| - 1 {
        index := index + 1;
      }
    }

    method PrevQuestion()
      requires Valid()
      modifies this
      ensures Valid() && answers == old(answers) && submitted == old(submitted)
      ensures old(index) > 0 ==> index == old(index) - 1
      ensures old(index) == 0 ==> index == 0
    {
      if index > 0 {
        index := index - 1;
      }
    }

    /** The number of answered questions, and whether Submit is enabled. */
    function AnsweredCount(): (n: nat)
      reads this
      ensures n == 0 <==> answers == map[]
    {
      |answers.Keys|
    }

    function SubmitEnabled(): bool
      reads this
    {
      AnsweredCount() > 0
    }

    /** `handleSubmit`: the run is submitted and marked completed. */
    method Submit()
      requires Valid()
      modifies this, store
      ensures Valid() && submitted && answers == old(answers) && index == old(index)
      ensures examStartTime == old(examStartTime) && timeElapsed == old(timeElapsed)
      ensures store.items == old(store.items)[CompletedKey(exam) := "true"]
    {
      submitted := true;
      store.SetItem(CompletedKey(exam), "true");
    }

    /** `handleTimeExpired`: submits unless already submitted; the result
        says whether the alert is shown. */
    method TimeExpired() returns (alerted: bool)
      requires Valid()
      modifies this, store
      ensures Valid() && submitted && answers == old(answers) && index == old(index)
      ensures examStartTime == old(examStartTime) && timeElapsed == old(timeElapsed)
      ensures alerted <==> !old(submitted)
      ensures old(submitted) ==> store.items == old(store.items)
      ensures !old(submitted) ==> store.items == old(store.items)[CompletedKey(exam) := "true"]
    {
      alerted := !submitted;
      if !submitted {
        Submit();
      }
    }

    /** A clock reading while the test-mode timer shows: the elapsed time is
        recorded and an expired countdown submits. */
    method ClockTick(timer: TimerDisplay, now: int) returns (alerted: bool)
      requires Valid() && isTestMode && examStartTime.Some? && examStartTime.value != 0
      modifies this, store, timer
      ensures Valid() && answers == old(answers) && index == old(index) && examStartTime == old(examStartTime)
      ensures timeElapsed == Elapsed(now, examStartTime.value)
      ensures timer.remainingTime == Remaining(totalExamTime, timeElapsed)
      ensures submitted <==> old(submitted) || totalExamTime <= timeElapsed
      ensures alerted <==> !old(submitted) && totalExamTime <= timeElapsed
    {
      var update, expired := timer.Calculate(examStartTime, now, totalExamTime, true);
      timeElapsed := update.value;
      alerted := false;
      if expired {
        alerted := TimeExpired();
      }
    }

    /** `handleReset`: a run in progress is reset only when the user
        confirms; a submitted one always is. */
    method Reset(confirmed: bool)
      requires Valid()
      modifies this, store
      ensures Valid()
      ensures old(submitted) || confirmed ==>
                answers == map[] && !submitted && examStartTime.None? && index == 0
                && store.items == old(store.items) - {CompletedKey(exam)}
      ensures !old(submitted) && !confirmed ==>
                answers == old(answers) && !submitted && examStartTime == old(examStartTime)
                && index == old(index) && store.items == old(store.items)
    {
      if submitted || confirmed {
        answers := map[];
        submitted := false;
        examStartTime := None;
        index := 0;
        store.RemoveItem(CompletedKey(exam));
      }
    }
  }
}
