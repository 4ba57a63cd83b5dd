/** The home page: the exam-setup / simulator switch, the stored-run
    clean-up, the completed-exam check and the reading of the unlock flags
    the achievement engine leaves in the store. */
module HomePage {
  import opened Common
  import opened Store
  import opened TestHistory
  import opened AchievementsEngine
  import opened ExamSetup

  /** What reading the unlock flags yields: whether a notice is shown, the
      achievement type it names (`None` when the type key is missing), and
      the store afterwards. */
  datatype Flags = Flags(announce: bool, kind: Option<string>, rest: map<string, string>)

  function Lookup(items: map<string, string>, key: string): (r: Option<string>)
    ensures r.Some? <==> key in items
    ensures r.Some? ==> r.value == items[key]
  {
    if key in items then Some(items[key]) else None
  }

  /** The flags of `prefix` are set. */
  predicate Raised(items: map<string, string>, prefix: string)
  {
    Lookup(items, UnlockedKey(prefix)) == Some("true")
  }

  /** Reading the flags for an exam: the exam's own flags win; otherwise the
      global ones are read. The flags read are removed, the others stay. */
  function TakeFlags(items: map<string, string>, exam: string): (f: Flags)
    ensures f.announce <==> Raised(items, exam) || Raised(items, GlobalPrefix)
    ensures Raised(items, exam) ==>
              f.kind == Lookup(items, TypeUnlockedKey(exam))
              && f.rest == items - {UnlockedKey(exam), TypeUnlockedKey(exam)}
    ensures !Raised(items, exam) && Raised(items, GlobalPrefix) ==>
              f.kind == Lookup(items, TypeUnlockedKey(GlobalPrefix))
              && f.rest == items - {UnlockedKey(GlobalPrefix), TypeUnlockedKey(GlobalPrefix)}
    ensures !f.announce ==> f.rest == items
  {
    if Raised(items, exam) then
      Flags(true, Lookup(items, TypeUnlockedKey(exam)), items - {UnlockedKey(exam), TypeUnlockedKey(exam)})
    else if Raised(items, GlobalPrefix) then
      Flags(true, Lookup(items, TypeUnlockedKey(GlobalPrefix)),
            items - {UnlockedKey(GlobalPrefix), TypeUnlockedKey(GlobalPrefix)})
    else Flags(false, None, items)
  }

  /** What the engine signals for an exam the page reads back: the
      achievement id, with both flags gone afterwards. */
  lemma SignalThenTake(items: map<string, string>, exam: string, id: string)
    ensures var f := TakeFlags(SignalIf(items, true, exam, id), exam);
            f.announce && f.kind == Some(id)
            && f.rest == items - {UnlockedKey(exam), TypeUnlockedKey(exam)}
  {
    var signalled := SignalIf(items, true, exam, id);
    assert Lookup(signalled, UnlockedKey(exam)) == Some("true");
    assert Lookup(signalled, TypeUnlockedKey(exam)) == Some(id);
  }

  /** A global signal is read back when the exam has no flag of its own, and
      the exam's keys are left as they were. */
  lemma GlobalSignalThenTake(items: map<string, string>, exam: string, id: string)
    requires exam != GlobalPrefix && !Raised(items, exam)
    ensures var f := TakeFlags(SignalIf(items, true, GlobalPrefix, id), exam);
            f.announce && f.kind == Some(id)
            && f.rest == items - {UnlockedKey(GlobalPrefix), TypeUnlockedKey(GlobalPrefix)}
  {
    var signalled := SignalIf(items, true, GlobalPrefix, id);
    PrefixKeysDistinct(exam, GlobalPrefix);
    assert Lookup(signalled, UnlockedKey(exam)) == Lookup(items, UnlockedKey(exam));
    assert Lookup(signalled, UnlockedKey(GlobalPrefix)) == Some("true");
    assert Lookup(signalled, TypeUnlockedKey(GlobalPrefix)) == Some(id);
  }

  lemma PrefixKeysDistinct(a: string, b: string)
    requires a != b
    ensures UnlockedKey(a) != UnlockedKey(b) && UnlockedKey(a) != TypeUnlockedKey(b)
  {
    var ua, ub, tb := UnlockedKey(a), UnlockedKey(b), TypeUnlockedKey(b);
    // "-achievement-unlocked" and "-achievement-type-unlocked" differ ten
    // characters from their ends
    assert ua[|ua| - 10] == 't' && tb[|tb| - 10] == 'e';
    if |a| == |b| {
      var i :| 0 <= i < |a| && a[i] != b[i];
      assert ua[i] != ub[i];
    }
  }

  /** Reading drains the flags: after at most two readings (the exam's,
      then the global ones) nothing is left to announce. */
  lemma TakeFlagsDrains(items: map<string, string>, exam: string)
    ensures var second := TakeFlags(TakeFlags(items, exam).rest, exam);
            !TakeFlags(second.rest, exam).announce
  {
    var first := TakeFlags(items, exam);
    if exam != GlobalPrefix {
      PrefixKeysDistinct(exam, GlobalPrefix);
      PrefixKeysDistinct(GlobalPrefix, exam);
    }
    assert !Raised(first.rest, exam) || first.rest == items;
  }

  /** What the page shows. */
  datatype View = Spinner | Setup | Simulator

  class Home {
    const store: Storage
    /** The exam chosen on the selection page, and whether it has been read. */
    const selectedExam: Option<string>
    const isLoaded: bool
    var mounted: bool
    var pageLoaded: bool
    var examStarted: bool
    var examSubmitted: bool
    var questionCount: int
    var selectedTags: seq<string>
    var testType: string
    var shouldExpandAchievements: bool
    var unlockedAchievementType: Option<string>

    /** The achievements panel is never forced open. */
    predicate Valid()
      reads this
    {
      !shouldExpandAchievements
    }

    /** The first render. `pageLoaded` starts as a state pair, which is
        truthy, so it reads as loaded from the start. */
    constructor (store: Storage, selectedExam: Option<string>, isLoaded: bool)
      ensures Valid() && this.store == store && this.selectedExam == selectedExam && this.isLoaded == isLoaded
      ensures !mounted && pageLoaded && !examStarted && !examSubmitted
      ensures questionCount == MinQuestions && selectedTags == [] && testType == PracticeMode
      ensures unlockedAchievementType == None
    {
      this.store := store;
      this.selectedExam := selectedExam;
      this.isLoaded := isLoaded;
      mounted := false;
      pageLoaded := true;
      examStarted := false;
      examSubmitted := false;
      questionCount := MinQuestions;
      selectedTags := [];
      testType := PracticeMode;
      shouldExpandAchievements := false;
      unlockedAchievementType := None;
    }

    method Mount()
      modifies this
      ensures mounted
      ensures pageLoaded == old(pageLoaded) && examStarted == old(examStarted) && examSubmitted == old(examSubmitted)
      ensures unlockedAchievementType == old(unlockedAchievementType) && Valid() == old(Valid())
    {
      mounted := true;
    }

    /** The page sends the user to the exam selection. */
    predicate Redirects()
      reads this
    {
      mounted && isLoaded && !Selected(selectedExam)
    }

    /** The leave-page guard is on while an exam runs unsubmitted. */
    predicate ExamInProgress()
      reads this
    {
      examStarted && !examSubmitted
    }

    function Shown(): (v: View)
      reads this
      ensures Redirects() ==> v == Spinner
      ensures v == Simulator ==> mounted && examStarted && (Selected(selectedExam) || !isLoaded)
    {
      if !mounted || (isLoaded && !Selected(selectedExam)) then Spinner
      else if examStarted then Simulator
      else Setup
    }

    /** The completed-exam check: a stored completion flag marks the exam as
        submitted (the default exam's when none is selected). */
    method CheckCompleted()
      modifies this
      ensures pageLoaded
      ensures examSubmitted == (old(examSubmitted) || store.Get(CompletedKey(ExamOrDefault(selectedExam))) == Some("true"))
      ensures examStarted == old(examStarted) && mounted == old(mounted)
      ensures unlockedAchievementType == old(unlockedAchievementType) && Valid() == old(Valid())
    {
      if store.Get(CompletedKey(ExamOrDefault(selectedExam))) == Some("true") {
        examSubmitted := true;
      }
      pageLoaded := true;
    }

    /** While no exam runs, the stored run of the selected exam is cleared. */
    method ClearWhenIdle()
      modifies store
      ensures !examStarted && Selected(selectedExam) ==> store.items == WithoutRun(old(store.items), selectedExam.value)
      ensures examStarted || !Selected(selectedExam) ==> store.items == old(store.items)
    {
      if !examStarted && Selected(selectedExam) {
        ClearRun(store, selectedExam.value);
      }
    }

    /** The unlock-flag check, which runs only on the set-up screen once the
        page is loaded and an exam is selected. */
    method CheckUnlockFlags()
      requires Valid()
      modifies this, store
      ensures Valid()
      ensures var ready := !examStarted && pageLoaded && Selected(selectedExam);
              var f := TakeFlags(old(store.items), if ready then selectedExam.value else "");
              if ready && f.announce then
                store.items == f.rest && unlockedAchievementType == f.kind
              else
                store.items == old(store.items) && unlockedAchievementType == old(unlockedAchievementType)
      ensures examStarted == old(examStarted) && examSubmitted == old(examSubmitted)
      ensures pageLoaded == old(pageLoaded) && mounted == old(mounted)
    {
      if !examStarted && pageLoaded && Selected(selectedExam) {
        var exam := selectedExam.value;
        if store.Get(UnlockedKey(exam)) == Some("true") {
          shouldExpandAchievements := false;
          unlockedAchievementType := store.Get(TypeUnlockedKey(exam));
          store.RemoveItem(UnlockedKey(exam));
          store.RemoveItem(TypeUnlockedKey(exam));
        } else if store.Get(UnlockedKey(GlobalPrefix)) == Some("true") {
          shouldExpandAchievements := false;
          unlockedAchievementType := store.Get(TypeUnlockedKey(GlobalPrefix));
          store.RemoveItem(UnlockedKey(GlobalPrefix));
          store.RemoveItem(TypeUnlockedKey(GlobalPrefix));
        }
      }
    }

    /** A fresh unlock names its first achievement in the panel. */
    method OnNewlyUnlocked(newlyUnlocked: seq<string>)
      requires Valid()
      modifies this
      ensures Valid()
      ensures |newlyUnlocked| > 0 ==> unlockedAchievementType == Some(newlyUnlocked[0])
      ensures |newlyUnlocked| == 0 ==> unlockedAchievementType == old(unlockedAchievementType)
      ensures examStarted == old(examStarted) && examSubmitted == old(examSubmitted)
    {
      if |newlyUnlocked| > 0 {
        shouldExpandAchievements := false;
        unlockedAchievementType := Some(newlyUnlocked[0]);
      }
    }

    /** The notice timer: the panel forgets the unlocked type. */
    method NoticeExpired()
      modifies this
      ensures Valid() && unlockedAchievementType == None
      ensures examStarted == old(examStarted) && examSubmitted == old(examSubmitted)
    {
      shouldExpandAchievements := false;
      unlockedAchievementType := None;
    }

    /** `handleStartExam`: clear the stored run, take the set-up's choices
        and start a fresh, unsubmitted exam. */
    method StartExam(count: int, tags: seq<string>, kind: string)
      modifies this, store
      ensures examStarted && !examSubmitted && ExamInProgress()
      ensures questionCount == count && selectedTags == tags && testType == kind
      ensures Selected(selectedExam) ==> store.items == WithoutRun(old(store.items), selectedExam.value)
      ensures !Selected(selectedExam) ==> store.items == old(store.items)
      ensures unlockedAchievementType == old(unlockedAchievementType) && Valid() == old(Valid())
    {
      if Selected(selectedExam) {
        ClearRun(store, selectedExam.value);
      }
      questionCount := count;
      selectedTags := tags;
      testType := kind;
      examSubmitted := false;
      examStarted := true;
    }

    /** `handleResetExam`: clear the stored run and go back to the set-up. */
    method ResetExam()
      modifies this, store
      ensures !examStarted && !examSubmitted && !ExamInProgress()
      ensures Selected(selectedExam) ==> store.items == WithoutRun(old(store.items), selectedExam.value)
      ensures !Selected(selectedExam) ==> store.items == old(store.items)
      ensures questionCount == old(questionCount) && selectedTags == old(selectedTags) && testType == old(testType)
      ensures unlockedAchievementType == old(unlockedAchievementType) && Valid() == old(Valid())
    {
      if Selected(selectedExam) {
        ClearRun(store, selectedExam.value);
      }
      examStarted := false;
      examSubmitted := false;
    }

    /** The simulator reports a submission: the leave-page guard turns off. */
    method ExamSubmitted()
      modifies this
      ensures examSubmitted && !ExamInProgress()
      ensures examStarted == old(examStarted)
      ensures unlockedAchievementType == old(unlockedAchievementType) && Valid() == old(Valid())
    {
      examSubmitted := true;
    }
  }
}
