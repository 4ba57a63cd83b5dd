/** The exam set-up screen: the category chips, the tags handed to the
    simulator, the question-count slider, the time estimate, and the reset
    effects on the store. */
module ExamSetup {
  import opened Common
  import opened Store
  import opened Seqs
  import opened Text

  const All: string := "All"
  const PracticeMode: string := "practice"
  const TestMode: string := "test"
  const MinQuestions: int := 5

  const PmpAreas: seq<string> := [All, "Scope", "Cost", "Quality", "Procurement", "Communication",
    "Stakeholders", "Resources", "Schedule", "Integration", "People", "Process", "Business"]
  const FceAreas: seq<string> := [All, "Grammar", "Prepositions", "ReadingComprehension", "Vocabulary",
    "WordFormation", "Collocation", "SentenceCompletion", "Pronunciation", "PhrasalVerbs"]

  /** The chips offered: the FCE areas for "fce", the PMP areas otherwise. */
  function KnowledgeAreas(selectedExam: Option<string>): seq<string>
  {
    if selectedExam == Some("fce") then FceAreas else PmpAreas
  }

  function MaxQuestions(testType: string): int
  {
    if testType == TestMode then 180 else 50
  }

  function QuestionStep(testType: string): int
  {
    if testType == TestMode then 10 else 5
  }

  /** `Math.round(count * 240 / 180)`, the time budget in minutes: the
      nearest integer to 4/3 of the count, halves rounded up. */
  function EstimatedMinutes(count: int): (m: int)
    ensures 6 * m - 3 <= 8 * count < 6 * m + 3
  {
    (8 * count + 3) / 6
  }

  /** The estimate grows with the count and spans 7..240 minutes over the
      test-mode range. */
  lemma EstimatedMinutesRange(count: int, more: int)
    requires count <= more
    ensures EstimatedMinutes(count) <= EstimatedMinutes(more)
    ensures EstimatedMinutes(MinQuestions) == 7 && EstimatedMinutes(180) == 240
  {
  }

  /** A well-formed chip selection: exactly ["All"], or distinct specific tags. */
  ghost predicate WellFormed(selection: seq<string>)
  {
    selection == [All] || (|selection| >= 1 && All !in selection && NoDuplicates(selection))
  }

  /** The selection after `handleTagClick(tag)`. */
  function AfterClick(selection: seq<string>, tag: string): (r: seq<string>)
    ensures tag == All ==> r == [All]
    ensures tag != All && All in selection ==> r == [tag]
    ensures tag != All && All !in selection && tag !in selection ==> r == selection + [tag]
    ensures tag != All && All !in selection && tag in selection ==>
              tag !in r && (r == [All] || forall t :: t in r <==> t in selection && t != tag)
    ensures |Filter(selection, Unequal(tag))| == 0 && All !in selection && tag in selection ==> r == [All]
  {
    if tag == All then [All]
    else if All in selection then [tag]
    else if tag in selection then
      var rest := Filter(selection, Unequal(tag));
      if |rest| == 0 then [All] else rest
    else selection + [tag]
  }

  /** Starting from ["All"], every click keeps the selection well formed:
      never empty, and either ["All"] or distinct specific tags. */
  lemma AfterClickWellFormed(selection: seq<string>, tag: string)
    requires WellFormed(selection)
    ensures WellFormed(AfterClick(selection, tag))
  {
    if tag != All && All !in selection {
      if tag in selection {
        FilterNoDuplicates(selection, Unequal(tag));
      } else {
        var r := selection + [tag];
        forall i, j | 0 <= i < j < |r| ensures r[i] != r[j] {
          if j == |r| - 1 {
            assert r[i] == selection[i];
          }
        }
      }
    }
  }

  /** Clicking a specific tag toggles it, except that it is always selected
      when "All" was. */
  lemma AfterClickToggles(selection: seq<string>, tag: string)
    requires tag != All
    ensures tag in AfterClick(selection, tag) <==> All in selection || tag !in selection
  {
  }

  /** Clicking an unselected tag twice in filtered mode restores the selection. */
  lemma AfterClickTwice(selection: seq<string>, tag: string)
    requires WellFormed(selection) && All !in selection && tag != All && tag !in selection
    ensures AfterClick(AfterClick(selection, tag), tag) == selection
  {
    var once := selection + [tag];
    assert AfterClick(selection, tag) == once;
    FilterAppend(selection, [tag], Unequal(tag));
    FilterAllPass(selection, Unequal(tag));
    assert Filter([tag], Unequal(tag)) == [];
    assert Filter(once, Unequal(tag)) == selection;
  }

  /** `toLowerCase` on ASCII letters. */
  function LowerChar(c: char): (d: char)
    ensures 'A' <= c <= 'Z' ==> 'a' <= d <= 'z' && d as int - c as int == 32
    ensures !('A' <= c <= 'Z') ==> d == c
  {
    if 'A' <= c <= 'Z' then (c as int + 32) as char else c
  }

  function Lower(s: string): (r: string)
    ensures |r| == |s| && forall i :: 0 <= i < |s| ==> r[i] == LowerChar(s[i])
  {
    if s == [] then [] else [LowerChar(s[0])] + Lower(s[1..])
  }

  function LowerAll(tags: seq<string>): (r: seq<string>)
    ensures |r| == |tags| && forall i :: 0 <= i < |tags| ==> r[i] == Lower(tags[i])
  {
    if tags == [] then [] else [Lower(tags[0])] + LowerAll(tags[1..])
  }

  /** The tags passed on start: none in test mode or with "All" selected,
      else the selection lower-cased, in order. */
  function TagsToPass(testType: string, selection: seq<string>): (r: seq<string>)
    ensures testType == TestMode || All in selection ==> r == []
    ensures testType != TestMode && All !in selection ==>
              |r| == |selection| && forall i :: 0 <= i < |r| ==> r[i] == Lower(selection[i])
  {
    if testType == TestMode then []
    else if All in selection then []
    else LowerAll(selection)
  }

  /** The set-up screen's state. */
  class SetupScreen {
    const store: Storage
    var selectedExam: Option<string>
    var questionCount: int
    var testType: string
    var selectedTags: seq<string>
    var currentCardIndex: int
    var isFlipped: bool

    ghost predicate Valid()
      reads this
    {
      WellFormed(selectedTags) && MinQuestions <= questionCount <= MaxQuestions(testType)
    }

    /** Mounting: the defaults, and the clean-up effect for the selected
        exam (or "pmp"). */
    constructor (store: Storage, selectedExam: Option<string>)
      modifies store
      ensures Valid() && this.store == store && this.selectedExam == selectedExam
      ensures questionCount == MinQuestions && testType == PracticeMode && selectedTags == [All]
      ensures currentCardIndex == 0 && !isFlipped
      ensures store.items == WithoutRun(old(store.items), ExamOrDefault(selectedExam))
    {
      this.store := store;
      this.selectedExam := selectedExam;
      questionCount := MinQuestions;
      testType := PracticeMode;
      selectedTags := [All];
      currentCardIndex := 0;
      isFlipped := false;
      new;
      ClearRun(store, ExamOrDefault(selectedExam));
    }

    /** The effects keyed on the selected exam: clean the run keys and
        reset the chips to ["All"]. */
    method ChangeExam(exam: Option<string>)
      requires Valid()
      modifies this, store
      ensures Valid() && selectedExam == exam
      ensures questionCount == old(questionCount) && testType == old(testType)
      ensures currentCardIndex == old(currentCardIndex) && isFlipped == old(isFlipped)
      ensures exam == old(selectedExam) ==> selectedTags == old(selectedTags) && store.items == old(store.items)
      ensures exam != old(selectedExam) ==>
                selectedTags == [All] && store.items == WithoutRun(old(store.items), ExamOrDefault(exam))
    {
      if exam != selectedExam {
        selectedExam := exam;
        ClearRun(store, ExamOrDefault(exam));
        selectedTags := [All];
      }
    }

    /** `handleTestTypeChange`: a null choice is ignored; a new mode resets
        the count to the minimum. */
    method ChangeTestType(mode: Option<string>)
      requires Valid()
      modifies this
      ensures Valid() && selectedTags == old(selectedTags) && selectedExam == old(selectedExam)
      ensures mode.None? || mode.value == old(testType) ==>
                testType == old(testType) && questionCount == old(questionCount)
      ensures mode.Some? && mode.value != old(testType) ==> testType == mode.value && questionCount == MinQuestions
      ensures currentCardIndex == old(currentCardIndex) && isFlipped == old(isFlipped)
    {
      if mode.Some? && mode.value != testType {
        testType := mode.value;
        questionCount := MinQuestions;
      }
    }

    /** The slider reports a value within its bounds. */
    method ChangeQuestionCount(count: int)
      requires Valid() && MinQuestions <= count <= MaxQuestions(testType)
      modifies this
      ensures Valid() && questionCount == count
      ensures testType == old(testType) && selectedTags == old(selectedTags) && selectedExam == old(selectedExam)
      ensures currentCardIndex == old(currentCardIndex) && isFlipped == old(isFlipped)
    {
      questionCount := count;
    }

    /** `handleTagClick`: a specific tag also sends the card back to the
        first one, face up; "All" returns before that. */
    method TagClick(tag: string)
      requires Valid()
      modifies this
      ensures Valid() && selectedTags == AfterClick(old(selectedTags), tag)
      ensures questionCount == old(questionCount) && testType == old(testType) && selectedExam == old(selectedExam)
      ensures tag == All ==> currentCardIndex == old(currentCardIndex) && isFlipped == old(isFlipped)
      ensures tag != All ==> currentCardIndex == 0 && !isFlipped
    {
      AfterClickWellFormed(selectedTags, tag);
      selectedTags := AfterClick(selectedTags, tag);
      if tag != All {
        currentCardIndex := 0;
        isFlipped := false;
      }
    }

    /** `handleStartExam`: cleans the run keys and hands over the count,
        the tags and the mode. */
    method Start() returns (count: int, tags: seq<string>, mode: string)
      requires Valid()
      modifies store
      ensures count == questionCount && mode == testType && tags == TagsToPass(testType, selectedTags)
      ensures MinQuestions <= count <= MaxQuestions(mode)
      ensures store.items == WithoutRun(old(store.items), ExamOrDefault(selectedExam))
    {
      ClearRun(store, ExamOrDefault(selectedExam));
      count, tags, mode := questionCount, TagsToPass(testType, selectedTags), testType;
    }
  }

  /** Removes the four run keys of an exam. */
  method ClearRun(store: Storage, exam: string)
    modifies store
    ensures store.items == WithoutRun(old(store.items), exam)
  {
    store.RemoveItem(AnswersKey(exam));
    store.RemoveItem(SubmittedKey(exam));
    store.RemoveItem(StartTimeKey(exam));
    store.RemoveItem(CompletedKey(exam));
  }
}
