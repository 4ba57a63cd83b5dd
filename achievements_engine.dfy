/** The `useAchievements` hook as a whole: three persisted achievements and
    the persisted score threshold (each a `useLocalStorage` slot), the list
    of ids unlocked in this session, and the handlers that move them. The
    window events it listens to are direct method calls here. */
module AchievementsEngine {
  import opened Common
  import opened Store
  import opened Seqs
  import opened Json
  import opened Text
  import opened LocalStorage
  import opened Achievements
  import opened DailyQuestion

  const AppUsageKey: string := "global-achievement-app-usage"
  const LastUsageKey: string := "global-last-usage-date"
  const GlobalPrefix: string := "global"

  function DailyStreakKey(exam: string): string { exam + "-achievement-daily-question" }
  function ScoreAchievementKey(exam: string): string { exam + "-achievement-score-threshold" }
  function ThresholdKey(exam: string): string { exam + "-score-threshold" }
  function UnlockedKey(prefix: string): string { prefix + "-achievement-unlocked" }
  function TypeUnlockedKey(prefix: string): string { prefix + "-achievement-type-unlocked" }

  /** The unlock flags an update leaves: when it fires, "<prefix>-achievement-
      unlocked" is "true" and the type key names the achievement. */
  function SignalIf(items: map<string, string>, fires: bool, prefix: string, id: string): map<string, string>
  {
    if fires then items[UnlockedKey(prefix) := "true"][TypeUnlockedKey(prefix) := id] else items
  }

  /** The ids a firing update adds to `newlyUnlocked`. */
  function Unlocked(fires: bool, id: string): seq<string>
  {
    if fires then [id] else []
  }

  /** The threshold achievement is done: completed with a count of 3 or more. */
  predicate Done(a: Achievement)
  {
    a.isCompleted && OrZero(a.currentCount) >= 3
  }

  /** `test.score >= scoreThreshold` (a missing score compares false). */
  function AtLeast(threshold: int): Json -> bool
  {
    e => Score(e).Some? && Score(e).value >= threshold
  }

  /** The number of tests scoring at least the threshold. */
  function CountAtLeast(tests: seq<Json>, threshold: int): (n: nat)
    ensures n <= |tests|
  {
    |Filter(tests, AtLeast(threshold))|
  }

  /** Raising the threshold never raises the count. */
  lemma {:induction false} CountAtLeastAntitone(tests: seq<Json>, t: int, u: int)
    requires t <= u
    ensures CountAtLeast(tests, u) <= CountAtLeast(tests, t)
  {
    if tests != [] {
      CountAtLeastAntitone(tests[1..], t, u);
    }
  }

  /** A `dailyQuestionCorrect` payload is acted on: it has a numeric streak
      and names the active exam. */
  predicate AcceptsStreak(detail: Json, examType: string)
  {
    IsNumber(Field(detail, "streak")) && Truthy(Field(detail, "examType"))
    && Field(detail, "examType") == Some(JStr(examType))
  }

  /** `event.detail.id || Date.now().toString()`. */
  function TestId(detail: Json, nowMs: int): Json
  {
    if Truthy(Field(detail, "id")) then Field(detail, "id").value else JStr(IntText(nowMs))
  }

  /** A `testResultSaved` payload for another exam (a missing exam matches). */
  predicate OtherExam(detail: Json, examType: string)
  {
    Truthy(Field(detail, "examType")) && Field(detail, "examType").value != JStr(examType)
  }

  /** What the `testResultSaved` listener does with a payload. */
  datatype Outcome = Ignored | OtherExamOnly | BelowThreshold | Counted

  /** Ignored once the achievement is done, without a numeric score, or for
      the id processed last; a result of another exam only records its id; a
      score below the threshold records the id; otherwise the test counts. */
  function TestOutcome(a: Achievement, detail: Json, nowMs: int, last: Option<Json>, examType: string, threshold: int): (o: Outcome)
    ensures o == Ignored <==> Done(a) || Score(detail).None? || last == Some(TestId(detail, nowMs))
    ensures o == OtherExamOnly <==> o != Ignored && OtherExam(detail, examType)
    ensures o == Counted <==> o != Ignored && !OtherExam(detail, examType) && Score(detail).value >= threshold
  {
    if Done(a) || Score(detail).None? || last == Some(TestId(detail, nowMs)) then Ignored
    else if OtherExam(detail, examType) then OtherExamOnly
    else if Score(detail).value >= threshold then Counted
    else BelowThreshold
  }

  /** A payload with an id delivered twice is counted at most once: after it
      is processed its id is the last processed one, so a second delivery,
      at any time and whatever the state, is ignored. */
  lemma DuplicateIgnored(a: Achievement, b: Achievement, detail: Json, nowMs: int, later: int,
                         last: Option<Json>, examType: string, t: int, u: int)
    requires Truthy(Field(detail, "id"))
    requires TestOutcome(a, detail, nowMs, last, examType, t) != Ignored
    ensures TestOutcome(b, detail, later, Some(TestId(detail, nowMs)), examType, u) == Ignored
  {
  }

  /** What the `testResultSaved` listener does to the score-threshold record.
      `heard` is the record the listener closed over and `live` the slot's
      current one: a counted result steps from `heard` with its count plus
      one, anything else leaves `live` and fires nothing. */
  function Heard(heard: Achievement, live: Achievement, detail: Json, nowMs: int, last: Option<Json>,
                 examType: string, threshold: int): Step
  {
    if TestOutcome(heard, detail, nowMs, last, examType, threshold) == Counted
    then ThresholdStep(heard, OrZero(heard.currentCount) + 1, nowMs)
    else Step(live, false)
  }

  /** The store after the `testResultSaved` listener handles a payload: the
      unlock flags when it fires, and the record written unless it equals the
      live one. */
  ghost function HeardStore(items: map<string, string>, fmt: Format<Achievement>, heard: Achievement,
                            live: Achievement, detail: Json, nowMs: int, last: Option<Json>,
                            examType: string, threshold: int): map<string, string>
  {
    var h := Heard(heard, live, detail, nowMs, last, examType, threshold);
    Saved(SignalIf(items, h.fires, examType, ScoreThresholdId), ScoreAchievementKey(examType), fmt, live, h.next)
  }

  /** A result that does not count leaves the live record and the store. */
  lemma HeardUncounted(items: map<string, string>, fmt: Format<Achievement>, heard: Achievement, live: Achievement,
                       detail: Json, nowMs: int, last: Option<Json>, examType: string, threshold: int)
    requires TestOutcome(heard, detail, nowMs, last, examType, threshold) != Counted
    ensures Heard(heard, live, detail, nowMs, last, examType, threshold) == Step(live, false)
    ensures HeardStore(items, fmt, heard, live, detail, nowMs, last, examType, threshold) == items
  {
  }

  /** A counted result steps the heard record and writes it under the exam's key. */
  lemma HeardCounted(items: map<string, string>, fmt: Format<Achievement>, heard: Achievement, live: Achievement,
                     detail: Json, nowMs: int, last: Option<Json>, examType: string, threshold: int)
    requires TestOutcome(heard, detail, nowMs, last, examType, threshold) == Counted
    ensures var s := ThresholdStep(heard, OrZero(heard.currentCount) + 1, nowMs);
            Heard(heard, live, detail, nowMs, last, examType, threshold) == s
            && HeardStore(items, fmt, heard, live, detail, nowMs, last, examType, threshold)
               == Saved(SignalIf(items, s.fires, examType, ScoreThresholdId), ScoreAchievementKey(examType), fmt, live, s.next)
  {
  }

  /** Two counted results heard by the same registration store the same
      count, whatever the live record was in between: the count does not
      advance until the listener is registered again. */
  lemma ListenerCountStuck(heard: Achievement, live: Achievement, later: Achievement,
                           d: Json, e: Json, t: int, u: int, last: Option<Json>, next: Option<Json>,
                           examType: string, threshold: int)
    requires TestOutcome(heard, d, t, last, examType, threshold) == Counted
    requires TestOutcome(heard, e, u, next, examType, threshold) == Counted
    ensures Heard(heard, live, d, t, last, examType, threshold).next.currentCount
         == Heard(heard, later, e, u, next, examType, threshold).next.currentCount
         == Some(OrZero(heard.currentCount) + 1)
  {
  }

  class Engine {
    const store: Storage
    const appUsage: Slot<Achievement>
    const dailyStreak: Slot<Achievement>
    const scoreAchievement: Slot<Achievement>
    const threshold: Slot<int>
    /** `selectedExam || "pmp"`. */
    var examType: string
    var newlyUnlocked: seq<string>
    var lastProcessedTestId: Option<Json>
    var historyProcessed: bool
    var appUsageCheckedToday: bool
    /** The daily-streak record the `dailyQuestionCorrect` listener closed over
        when it was last registered; it is registered again only when the exam
        changes. */
    var listenerStreak: Achievement
    /** The score-threshold record the `testResultSaved` listener closed over
        when it was last registered; it is registered again only when the exam
        or the threshold changes. */
    var listenerScore: Achievement

    ghost predicate Valid()
      reads this, appUsage, dailyStreak, scoreAchievement, threshold
    {
      SlotsMounted() && appUsage.key == AppUsageKey && dailyStreak.key == DailyStreakKey(examType)
      && scoreAchievement.key == ScoreAchievementKey(examType) && threshold.key == ThresholdKey(examType)
    }

    /** The four slots are distinct and mounted on the engine's store. */
    ghost predicate SlotsMounted()
      reads appUsage, dailyStreak, scoreAchievement, threshold
    {
      && appUsage.Mounted(store, DefaultAppUsage) && dailyStreak.Mounted(store, DefaultDailyQuestion)
      && scoreAchievement.Mounted(store, DefaultScoreThreshold) && threshold.Mounted(store, DefaultThreshold)
      && appUsage != dailyStreak && appUsage != scoreAchievement && dailyStreak != scoreAchievement
      && threshold as object != appUsage && threshold as object != dailyStreak
      && threshold as object != scoreAchievement
      && threshold.fmt == IntFormat()
    }

    /** Mounting. The exam selection is still null on the first render, so
        every per-exam slot reads its "pmp" key (or takes its default), and
        both listeners close over the records just read. A stored exam
        selection arrives afterwards, through `ChangeExam`. */
    constructor (store: Storage, fmt: Format<Achievement>)
      requires Lawful(fmt)
      ensures Valid() && this.store == store && examType == DefaultExam
      ensures fresh(appUsage) && fresh(dailyStreak) && fresh(scoreAchievement) && fresh(threshold)
      ensures appUsage.state == ValueOr(ReadKey(store.items, AppUsageKey, fmt), DefaultAppUsage)
      ensures dailyStreak.state == ValueOr(ReadKey(store.items, DailyStreakKey(DefaultExam), fmt), DefaultDailyQuestion)
      ensures scoreAchievement.state == ValueOr(ReadKey(store.items, ScoreAchievementKey(DefaultExam), fmt), DefaultScoreThreshold)
      ensures threshold.state == ValueOr(ReadKey(store.items, ThresholdKey(DefaultExam), IntFormat()), DefaultThreshold)
      ensures listenerStreak == dailyStreak.state && listenerScore == scoreAchievement.state
      ensures newlyUnlocked == [] && lastProcessedTestId.None? && !historyProcessed && !appUsageCheckedToday
    {
      IntFormatLawful();
      var usage := new Slot(store, fmt, AppUsageKey, DefaultAppUsage);
      var daily := new Slot(store, fmt, DailyStreakKey(DefaultExam), DefaultDailyQuestion);
      var score := new Slot(store, fmt, ScoreAchievementKey(DefaultExam), DefaultScoreThreshold);
      var limit := new Slot(store, IntFormat(), ThresholdKey(DefaultExam), DefaultThreshold);
      this.store := store;
      examType := DefaultExam;
      appUsage := usage;
      dailyStreak := daily;
      scoreAchievement := score;
      threshold := limit;
      newlyUnlocked := [];
      lastProcessedTestId := None;
      historyProcessed := false;
      appUsageCheckedToday := false;
      listenerStreak := daily.state;
      listenerScore := score.state;
    }

    /** Unlock signalling: the id joins `newlyUnlocked` and the prefix's two
        flags are set. */
    method Signal(fires: bool, prefix: string, id: string)
      modifies this, store
      ensures examType == old(examType) && lastProcessedTestId == old(lastProcessedTestId)
      ensures historyProcessed == old(historyProcessed) && appUsageCheckedToday == old(appUsageCheckedToday)
      ensures listenerStreak == old(listenerStreak) && listenerScore == old(listenerScore)
      ensures newlyUnlocked == old(newlyUnlocked) + Unlocked(fires, id)
      ensures store.items == SignalIf(old(store.items), fires, prefix, id)
    {
      if fires {
        newlyUnlocked := newlyUnlocked + [id];
        store.SetItem(UnlockedKey(prefix), "true");
        store.SetItem(TypeUnlockedKey(prefix), id);
      }
    }

    /** `updateAppUsageStreak` (slot `appUsage`, prefix "global") and
        `updateDailyQuestionStreak` (slot `dailyStreak`, prefix the exam), as
        seen by a caller whose render held the record `base`: the step is
        computed from `base`, while the write is compared with the slot's
        current value. */
    method UpdateStreak(slot: Slot<Achievement>, prefix: string, id: string, base: Achievement, newValue: int, now: int)
      requires Valid() && (slot == appUsage || slot == dailyStreak)
      modifies this, store, slot
      ensures Valid() && examType == old(examType)
      ensures lastProcessedTestId == old(lastProcessedTestId) && historyProcessed == old(historyProcessed)
      ensures appUsageCheckedToday == old(appUsageCheckedToday)
      ensures listenerStreak == old(listenerStreak) && listenerScore == old(listenerScore)
      ensures var s := StreakStep(base, newValue, now);
              slot.state == s.next
              && newlyUnlocked == old(newlyUnlocked) + Unlocked(s.fires, id)
              && store.items == Saved(SignalIf(old(store.items), s.fires, prefix, id), slot.key, slot.fmt, old(slot.state), s.next)
    {
      var step := ComputeStreakStep(base, newValue, now);
      Signal(step.fires, prefix, id);
      slot.SetValue(step.next);
    }

    /** `updateTestScoreThresholdAchievement(newCount)`, as seen by a caller
        whose render held the record `base`. */
    method UpdateThreshold(base: Achievement, newCount: int, now: int)
      requires Valid()
      modifies this, store, scoreAchievement
      ensures Valid() && examType == old(examType)
      ensures lastProcessedTestId == old(lastProcessedTestId) && historyProcessed == old(historyProcessed)
      ensures appUsageCheckedToday == old(appUsageCheckedToday)
      ensures listenerStreak == old(listenerStreak) && listenerScore == old(listenerScore)
      ensures var s := ThresholdStep(base, newCount, now);
              scoreAchievement.state == s.next
              && newlyUnlocked == old(newlyUnlocked) + Unlocked(s.fires, ScoreThresholdId)
              && store.items == Saved(SignalIf(old(store.items), s.fires, examType, ScoreThresholdId),
                                      scoreAchievement.key, scoreAchievement.fmt, old(scoreAchievement.state), s.next)
    {
      var leveledUp := !base.isCompleted && newCount >= 3;
      Signal(leveledUp, examType, ScoreThresholdId);
      scoreAchievement.SetValue(base.(currentValue := newCount, currentCount := Some(newCount),
                                      isCompleted := newCount >= 3,
                                      lastUnlocked := if leveledUp then Some(now) else base.lastUnlocked));
    }

    /** `checkAppUsage()`, run once per mount: records today as the last
        usage day and moves the app-usage streak by the day rule. */
    method CheckAppUsage(today: int, now: int)
      requires Valid()
      modifies this, store, appUsage
      ensures Valid() && examType == old(examType) && appUsageCheckedToday
      ensures lastProcessedTestId == old(lastProcessedTestId) && historyProcessed == old(historyProcessed)
      ensures listenerStreak == old(listenerStreak) && listenerScore == old(listenerScore)
      ensures old(appUsageCheckedToday) || old(store.Get(LastUsageKey)) == Some(DayText(today)) ==>
                store.items == old(store.items) && appUsage.state == old(appUsage.state)
                && newlyUnlocked == old(newlyUnlocked)
      ensures !old(appUsageCheckedToday) && old(store.Get(LastUsageKey)) != Some(DayText(today)) ==>
                var dated := old(store.items)[LastUsageKey := DayText(today)];
                match AppUsageValue(old(store.Get(LastUsageKey)), today, old(appUsage.state).currentValue)
                case None =>
                  store.items == dated && appUsage.state == old(appUsage.state)
                  && newlyUnlocked == old(newlyUnlocked)
                case Some(v) =>
                  var s := StreakStep(old(appUsage.state), v, now);
                  appUsage.state == s.next
                  && newlyUnlocked == old(newlyUnlocked) + Unlocked(s.fires, AppUsageId)
                  && store.items == Saved(SignalIf(dated, s.fires, GlobalPrefix, AppUsageId),
                                          AppUsageKey, appUsage.fmt, old(appUsage.state), s.next)
    {
      if appUsageCheckedToday {
        return;
      }
      var last := store.Get(LastUsageKey);
      if last == Some(DayText(today)) {
        appUsageCheckedToday := true;
        return;
      }
      store.SetItem(LastUsageKey, DayText(today));
      appUsageCheckedToday := true;
      var newValue := AppUsageValue(last, today, appUsage.state.currentValue);
      if newValue.Some? {
        UpdateStreak(appUsage, GlobalPrefix, AppUsageId, appUsage.state, newValue.value, now);
      }
    }

    /** The daily-history effect: a non-empty history sets the daily streak
        to its run of correct answers, newest date first. */
    method RecountDailyStreak(history: seq<DailyRecord>, now: int)
      requires Valid()
      modifies this, store, dailyStreak
      ensures Valid() && examType == old(examType)
      ensures lastProcessedTestId == old(lastProcessedTestId) && historyProcessed == old(historyProcessed)
      ensures listenerStreak == old(listenerStreak) && listenerScore == old(listenerScore)
      ensures |history| == 0 ==>
                store.items == old(store.items) && dailyStreak.state == old(dailyStreak.state)
                && newlyUnlocked == old(newlyUnlocked)
      ensures |history| > 0 ==>
                var s := StreakStep(old(dailyStreak.state), StreakOf(history), now);
                dailyStreak.state == s.next
                && newlyUnlocked == old(newlyUnlocked) + Unlocked(s.fires, DailyQuestionId)
                && store.items == Saved(SignalIf(old(store.items), s.fires, examType, DailyQuestionId),
                                        dailyStreak.key, dailyStreak.fmt, old(dailyStreak.state), s.next)
    {
      if |history| > 0 {
        var streak := CountStreak(NewestFirst(history));
        UpdateStreak(dailyStreak, examType, DailyQuestionId, dailyStreak.state, streak, now);
      }
    }

    /** The `dailyQuestionCorrect` listener: a payload with a numeric streak
        for the active exam sets the daily streak to it, stepping from the
        record the listener closed over rather than the slot's current one. */
    method OnDailyQuestionCorrect(detail: Json, now: int)
      requires Valid()
      modifies this, store, dailyStreak
      ensures Valid() && examType == old(examType)
      ensures lastProcessedTestId == old(lastProcessedTestId) && historyProcessed == old(historyProcessed)
      ensures listenerStreak == old(listenerStreak) && listenerScore == old(listenerScore)
      ensures !AcceptsStreak(detail, examType) ==>
                store.items == old(store.items) && dailyStreak.state == old(dailyStreak.state)
                && newlyUnlocked == old(newlyUnlocked)
      ensures AcceptsStreak(detail, examType) ==>
                var s := StreakStep(listenerStreak, Field(detail, "streak").value.n, now);
                dailyStreak.state == s.next
                && newlyUnlocked == old(newlyUnlocked) + Unlocked(s.fires, DailyQuestionId)
                && store.items == Saved(SignalIf(old(store.items), s.fires, examType, DailyQuestionId),
                                        dailyStreak.key, dailyStreak.fmt, old(dailyStreak.state), s.next)
    {
      var streak := Field(detail, "streak");
      var exam := Field(detail, "examType");
      if !(streak.Some? && streak.value.JNum?) || !Truthy(exam) {
        return;
      }
      if exam == Some(JStr(examType)) {
        UpdateStreak(dailyStreak, examType, DailyQuestionId, listenerStreak, streak.value.n, now);
      }
    }

    /** The test-history effect: once per mount, a non-empty history sets the
        threshold count to the number of tests at or above the threshold,
        unless the achievement is done or that number is 0. */
    method RecountScoreThreshold(testHistory: seq<Json>, now: int)
      requires Valid()
      modifies this, store, scoreAchievement
      ensures Valid() && examType == old(examType) && lastProcessedTestId == old(lastProcessedTestId)
      ensures listenerStreak == old(listenerStreak) && listenerScore == old(listenerScore)
      ensures historyProcessed == (old(historyProcessed) || (!Done(old(scoreAchievement.state)) && |testHistory| > 0))
      ensures var n := CountAtLeast(testHistory, threshold.state);
              var runs := !old(historyProcessed) && !Done(old(scoreAchievement.state)) && |testHistory| > 0 && n > 0;
              (!runs ==>
                 store.items == old(store.items) && scoreAchievement.state == old(scoreAchievement.state)
                 && newlyUnlocked == old(newlyUnlocked))
              && (runs ==>
                 var s := ThresholdStep(old(scoreAchievement.state), n, now);
                 scoreAchievement.state == s.next
                 && newlyUnlocked == old(newlyUnlocked) + Unlocked(s.fires, ScoreThresholdId)
                 && store.items == Saved(SignalIf(old(store.items), s.fires, examType, ScoreThresholdId),
                                         scoreAchievement.key, scoreAchievement.fmt, old(scoreAchievement.state), s.next))
    {
      if historyProcessed {
        return;
      }
      if Done(scoreAchievement.state) {
        return;
      }
      if |testHistory| > 0 {
        var n := |Filter(testHistory, AtLeast(threshold.state))|;
        if n > 0 {
          UpdateThreshold(scoreAchievement.state, n, now);
        }
        historyProcessed := true;
      }
    }

    /** The `testResultSaved` listener: `Heard` of the record it closed over.
        Because that record is refreshed only when the exam or the threshold
        changes, every counted result between two refreshes writes the same
        count: the captured count plus one. */
    method OnTestResultSaved(detail: Json, nowMs: int)
      requires Valid()
      modifies this, store, scoreAchievement
      ensures Valid() && examType == old(examType) && historyProcessed == old(historyProcessed)
      ensures listenerStreak == old(listenerStreak) && listenerScore == old(listenerScore)
      ensures appUsageCheckedToday == old(appUsageCheckedToday)
      ensures var outcome := TestOutcome(listenerScore, detail, nowMs, old(lastProcessedTestId), examType, threshold.state);
              lastProcessedTestId == (if outcome == Ignored then old(lastProcessedTestId) else Some(TestId(detail, nowMs)))
      ensures var h := Heard(listenerScore, old(scoreAchievement.state), detail, nowMs, old(lastProcessedTestId),
                             examType, threshold.state);
              scoreAchievement.state == h.next
              && newlyUnlocked == old(newlyUnlocked) + Unlocked(h.fires, ScoreThresholdId)
              && store.items == HeardStore(old(store.items), scoreAchievement.fmt, listenerScore, old(scoreAchievement.state),
                                           detail, nowMs, old(lastProcessedTestId), examType, threshold.state)
    {
      if TestOutcome(listenerScore, detail, nowMs, lastProcessedTestId, examType, threshold.state) == Counted {
        CountTest(detail, nowMs);
      } else {
        SkipTest(detail, nowMs);
      }
    }

    /** A counted result: its id becomes the last processed one and the
        captured record steps with its count plus one. */
    method CountTest(detail: Json, nowMs: int)
      requires Valid()
      requires TestOutcome(listenerScore, detail, nowMs, lastProcessedTestId, examType, threshold.state) == Counted
      modifies this, store, scoreAchievement
      ensures Valid() && examType == old(examType) && historyProcessed == old(historyProcessed)
      ensures listenerStreak == old(listenerStreak) && listenerScore == old(listenerScore)
      ensures appUsageCheckedToday == old(appUsageCheckedToday)
      ensures var outcome := TestOutcome(listenerScore, detail, nowMs, old(lastProcessedTestId), examType, threshold.state);
              lastProcessedTestId == (if outcome == Ignored then old(lastProcessedTestId) else Some(TestId(detail, nowMs)))
      ensures var h := Heard(listenerScore, old(scoreAchievement.state), detail, nowMs, old(lastProcessedTestId),
                             examType, threshold.state);
              scoreAchievement.state == h.next
              && newlyUnlocked == old(newlyUnlocked) + Unlocked(h.fires, ScoreThresholdId)
              && store.items == HeardStore(old(store.items), scoreAchievement.fmt, listenerScore, old(scoreAchievement.state),
                                           detail, nowMs, old(lastProcessedTestId), examType, threshold.state)
    {
      HeardCounted(store.items, scoreAchievement.fmt, listenerScore, scoreAchievement.state, detail, nowMs,
                   lastProcessedTestId, examType, threshold.state);
      StepCaptured(TestId(detail, nowMs), nowMs);
    }

    /** Records `id` as processed and steps the captured record with its
        count plus one. */
    method StepCaptured(id: Json, nowMs: int)
      requires Valid()
      modifies this, store, scoreAchievement
      ensures Valid() && examType == old(examType) && historyProcessed == old(historyProcessed)
      ensures listenerStreak == old(listenerStreak) && listenerScore == old(listenerScore)
      ensures appUsageCheckedToday == old(appUsageCheckedToday) && lastProcessedTestId == Some(id)
      ensures var s := ThresholdStep(listenerScore, OrZero(listenerScore.currentCount) + 1, nowMs);
              scoreAchievement.state == s.next
              && newlyUnlocked == old(newlyUnlocked) + Unlocked(s.fires, ScoreThresholdId)
              && store.items == Saved(SignalIf(old(store.items), s.fires, examType, ScoreThresholdId),
                                      ScoreAchievementKey(examType), scoreAchievement.fmt, old(scoreAchievement.state), s.next)
    {
      UpdateThreshold(listenerScore, OrZero(listenerScore.currentCount) + 1, nowMs);
      lastProcessedTestId := Some(id);
    }

    /** A result that does not count: ignored, or only its id recorded as
        the last processed one. */
    method SkipTest(detail: Json, nowMs: int)
      requires Valid()
      requires TestOutcome(listenerScore, detail, nowMs, lastProcessedTestId, examType, threshold.state) != Counted
      modifies this
      ensures Valid() && examType == old(examType) && historyProcessed == old(historyProcessed)
      ensures listenerStreak == old(listenerStreak) && listenerScore == old(listenerScore)
      ensures appUsageCheckedToday == old(appUsageCheckedToday)
      ensures var outcome := TestOutcome(listenerScore, detail, nowMs, old(lastProcessedTestId), examType, threshold.state);
              lastProcessedTestId == (if outcome == Ignored then old(lastProcessedTestId) else Some(TestId(detail, nowMs)))
      ensures var h := Heard(listenerScore, old(scoreAchievement.state), detail, nowMs, old(lastProcessedTestId),
                             examType, threshold.state);
              scoreAchievement.state == h.next
              && newlyUnlocked == old(newlyUnlocked) + Unlocked(h.fires, ScoreThresholdId)
              && store.items == HeardStore(old(store.items), scoreAchievement.fmt, listenerScore, old(scoreAchievement.state),
                                           detail, nowMs, old(lastProcessedTestId), examType, threshold.state)
    {
      HeardUncounted(store.items, scoreAchievement.fmt, listenerScore, scoreAchievement.state, detail, nowMs,
                     lastProcessedTestId, examType, threshold.state);
      if TestOutcome(listenerScore, detail, nowMs, lastProcessedTestId, examType, threshold.state) != Ignored {
        lastProcessedTestId := Some(TestId(detail, nowMs));
      }
    }

    /** The raw setter the hook returns for the threshold. The threshold
        achievement is not reset; a changed value re-registers the
        `testResultSaved` listener, which then closes over the current record. */
    method SetScoreThreshold(v: int)
      requires Valid()
      modifies this, threshold, store
      ensures Valid() && threshold.state == v && examType == old(examType)
      ensures store.items == Saved(old(store.items), threshold.key, IntFormat(), old(threshold.state), v)
      ensures newlyUnlocked == old(newlyUnlocked) && lastProcessedTestId == old(lastProcessedTestId)
      ensures historyProcessed == old(historyProcessed) && appUsageCheckedToday == old(appUsageCheckedToday)
      ensures listenerStreak == old(listenerStreak)
      ensures listenerScore == (if v == old(threshold.state) then old(listenerScore) else scoreAchievement.state)
    {
      if v != threshold.state {
        listenerScore := scoreAchievement.state;
      }
      threshold.SetValue(v);
    }

    /** The per-exam slots render with the keys of `exam`. */
    method Rekey(exam: string)
      requires Valid()
      modifies this, dailyStreak, scoreAchievement, threshold
      ensures Valid() && examType == exam
      ensures newlyUnlocked == old(newlyUnlocked) && lastProcessedTestId == old(lastProcessedTestId)
      ensures historyProcessed == old(historyProcessed) && appUsageCheckedToday == old(appUsageCheckedToday)
      ensures listenerStreak == old(listenerStreak) && listenerScore == old(listenerScore)
      ensures dailyStreak.state == Reloaded(store.items, DailyStreakKey(exam), dailyStreak.fmt,
                                            DefaultDailyQuestion, old(dailyStreak.prevKey), old(dailyStreak.state))
      ensures scoreAchievement.state == Reloaded(store.items, ScoreAchievementKey(exam), scoreAchievement.fmt,
                                                 DefaultScoreThreshold, old(scoreAchievement.prevKey),
                                                 old(scoreAchievement.state))
      ensures threshold.state == Reloaded(store.items, ThresholdKey(exam), IntFormat(),
                                          DefaultThreshold, old(threshold.prevKey), old(threshold.state))
    {
      examType := exam;
      dailyStreak.Render(DailyStreakKey(exam));
      scoreAchievement.Render(ScoreAchievementKey(exam));
      threshold.Render(ThresholdKey(exam));
    }

    /** A change of the selected exam. The render with the new exam still
        holds the old exam's records, and both listeners are registered again
        in it, so they close over those; each per-exam slot then reloads from
        its new key unless that is the key it last loaded. When the reloaded
        threshold differs, the `testResultSaved` listener is registered once
        more, over the reloaded record. The same exam changes nothing. */
    method ChangeExam(selectedExam: Option<string>)
      requires Valid()
      modifies this, dailyStreak, scoreAchievement, threshold
      ensures Valid() && examType == ExamOrDefault(selectedExam)
      ensures newlyUnlocked == old(newlyUnlocked) && lastProcessedTestId == old(lastProcessedTestId)
      ensures historyProcessed == old(historyProcessed) && appUsageCheckedToday == old(appUsageCheckedToday)
      ensures examType == old(examType) ==>
                dailyStreak.state == old(dailyStreak.state) && scoreAchievement.state == old(scoreAchievement.state)
                && threshold.state == old(threshold.state)
                && listenerStreak == old(listenerStreak) && listenerScore == old(listenerScore)
      ensures examType != old(examType) ==>
                dailyStreak.state == Reloaded(store.items, DailyStreakKey(examType), dailyStreak.fmt,
                                              DefaultDailyQuestion, old(dailyStreak.prevKey), old(dailyStreak.state))
                && scoreAchievement.state == Reloaded(store.items, ScoreAchievementKey(examType), scoreAchievement.fmt,
                                                      DefaultScoreThreshold, old(scoreAchievement.prevKey),
                                                      old(scoreAchievement.state))
                && threshold.state == Reloaded(store.items, ThresholdKey(examType), IntFormat(),
                                               DefaultThreshold, old(threshold.prevKey), old(threshold.state))
                && listenerStreak == old(dailyStreak.state)
                && listenerScore == (if threshold.state == old(threshold.state) then old(scoreAchievement.state)
                                     else scoreAchievement.state)
    {
      var exam := ExamOrDefault(selectedExam);
      if exam == examType {
        return;
      }
      var before := threshold.state;
      listenerStreak := dailyStreak.state;
      listenerScore := scoreAchievement.state;
      Rekey(exam);
      if threshold.state != before {
        listenerScore := scoreAchievement.state;
      }
    }
  }
}
