/** The achievement records of `useAchievements` and the pure rules that move
    them: the level table, the streak step with its re-lap rule, the
    score-threshold step, and the app-usage day rule. */
module Achievements {
  import opened Common
  import opened Text

  /** The level thresholds (a Fibonacci run). */
  const Levels: seq<int> := [3, 5, 8, 13, 21, 34]
  const MaxLevel: int := 34

  /** A stored achievement. `lastUnlocked` is a timestamp in milliseconds;
      the three optional counts may be missing from stored records. */
  datatype Achievement = Achievement(
    id: string,
    name: string,
    description: string,
    currentValue: int,
    nextLevel: int,
    maxLevel: int,
    currentLevel: int,
    isCompleted: bool,
    lastUnlocked: Option<int>,
    targetCount: Option<int>,
    currentCount: Option<int>,
    completedLevels: Option<int>)

  const AppUsageId: string := "appUsageStreak"
  const DailyQuestionId: string := "dailyQuestionStreak"
  const ScoreThresholdId: string := "testScoreThreshold"

  const DefaultAppUsage: Achievement := Achievement(
    "app-usage-streak", "App Usage Streak", "Use the app for consecutive days",
    0, 3, 34, 0, false, None, None, None, Some(0))

  const DefaultDailyQuestion: Achievement := Achievement(
    "daily-question-streak", "Daily Question Streak",
    "Answer daily questions correctly for consecutive days",
    0, 3, 34, 0, false, None, None, None, Some(0))

  const DefaultScoreThreshold: Achievement := Achievement(
    "test-score-threshold", "Score Threshold",
    "Complete 3 tests with scores above your target threshold",
    0, 3, 3, 0, false, None, Some(3), Some(0), Some(0))

  const DefaultThreshold: int := 60

  /** The number of thresholds at the head of `levels` that `v` reaches. */
  function Reached(levels: seq<int>, v: int): (n: nat)
    ensures n <= |levels|
  {
    if levels == [] || v < levels[0] then 0 else 1 + Reached(levels[1..], v)
  }

  /** The level of a value. */
  function LevelOf(v: int): (n: nat)
    ensures n <= |Levels|
  {
    Reached(Levels, v)
  }

  /** The threshold to reach next (the top one once all are reached). */
  function NextLevelOf(v: int): int
  {
    var n := LevelOf(v);
    if n < |Levels| then Levels[n] else MaxLevel
  }

  lemma {:induction false} ReachedPrefix(levels: seq<int>, v: int)
    ensures forall i :: 0 <= i < Reached(levels, v) ==> levels[i] <= v
    ensures Reached(levels, v) < |levels| ==> v < levels[Reached(levels, v)]
  {
    if levels != [] && v >= levels[0] {
      ReachedPrefix(levels[1..], v);
    }
  }

  /** The level is the number of thresholds at most the value (the table is
      increasing, so these are its first entries), and the next level is the
      least threshold above the value, or the top one. */
  lemma LevelOfSpec(v: int)
    ensures forall i :: 0 <= i < |Levels| ==> (i < LevelOf(v) <==> Levels[i] <= v)
    ensures v < MaxLevel ==> v < NextLevelOf(v) && NextLevelOf(v) in Levels
    ensures forall i :: 0 <= i < |Levels| && v < Levels[i] ==> NextLevelOf(v) <= Levels[i]
    ensures v >= MaxLevel ==> LevelOf(v) == |Levels| && NextLevelOf(v) == MaxLevel
  {
    ReachedPrefix(Levels, v);
  }

  /** Levels rise with the value. */
  lemma LevelOfMonotone(v: int, w: int)
    requires v <= w
    ensures LevelOf(v) <= LevelOf(w)
  {
    LevelOfSpec(v);
    LevelOfSpec(w);
  }

  /** The level loop of the update functions: walk the table while the value
      reaches the threshold. */
  method ComputeLevel(v: int) returns (currentLevel: nat, nextLevel: int)
    ensures currentLevel == LevelOf(v) && nextLevel == NextLevelOf(v)
  {
    currentLevel := 0;
    nextLevel := Levels[0];
    var i := 0;
    while i < |Levels|
      invariant 0 <= i <= |Levels| && currentLevel == i
      invariant Reached(Levels, v) == i + Reached(Levels[i..], v)
      invariant nextLevel == (if i < |Levels| then Levels[i] else MaxLevel)
    {
      if v >= Levels[i] {
        assert Levels[i..][1..] == Levels[i + 1..];
        currentLevel := i + 1;
        nextLevel := if i < |Levels| - 1 then Levels[i + 1] else Levels[i];
        i := i + 1;
      } else {
        break;
      }
    }
    if i == |Levels| {
      assert Levels[i..] == [];
    }
  }

  /** The result of one streak update: the new record and whether an unlock
      is signalled. */
  datatype Step = Step(next: Achievement, fires: bool)

  /** A re-lap: the stored value is 3 and the new value goes past it. */
  predicate Completing(a: Achievement, newValue: int)
  {
    a.currentValue == 3 && newValue > 3
  }

  /** `updateAppUsageStreak` / `updateDailyQuestionStreak` on a record: the
      re-lap rule, the level figures, the completion flag, when an unlock
      fires, and that nothing else changes. */
  function StreakStep(a: Achievement, newValue: int, now: int): (s: Step)
    ensures Completing(a, newValue) ==>
              s.next.currentValue == 1 && s.next.completedLevels == Some(OrZero(a.completedLevels) + 1)
    ensures !Completing(a, newValue) ==>
              s.next.currentValue == newValue && s.next.completedLevels == Some(OrZero(a.completedLevels))
    ensures 0 <= s.next.currentLevel <= |Levels|
    ensures s.next.currentLevel == LevelOf(s.next.currentValue)
    ensures s.next.nextLevel == NextLevelOf(s.next.currentValue)
    ensures s.next.isCompleted <==> s.next.currentValue >= 3
    ensures s.fires <==>
              s.next.currentLevel > a.currentLevel || Completing(a, newValue)
              || (s.next.currentValue == 3 && !a.isCompleted)
    ensures s.next.lastUnlocked
            == if s.next.currentLevel > a.currentLevel || Completing(a, newValue) then Some(now) else a.lastUnlocked
    ensures s.next.id == a.id && s.next.name == a.name && s.next.description == a.description
    ensures s.next.maxLevel == a.maxLevel && s.next.targetCount == a.targetCount
    ensures s.next.currentCount == a.currentCount
  {
    var completing := Completing(a, newValue);
    var completed := if completing then OrZero(a.completedLevels) + 1 else OrZero(a.completedLevels);
    var adjusted := if completing then 1 else newValue;
    var level := LevelOf(adjusted);
    var leveledUp := level > a.currentLevel || completing;
    Step(
      a.(currentValue := adjusted, currentLevel := level, nextLevel := NextLevelOf(adjusted),
         isCompleted := adjusted >= 3,
         lastUnlocked := if leveledUp then Some(now) else a.lastUnlocked,
         completedLevels := Some(completed)),
      leveledUp || (adjusted == 3 && !a.isCompleted))
  }

  /** The computing half of the streak update, with the level loop. */
  method ComputeStreakStep(a: Achievement, newValue: int, now: int) returns (s: Step)
    ensures s == StreakStep(a, newValue, now)
  {
    var completing := a.currentValue == 3 && newValue > 3;
    var completed := if completing then OrZero(a.completedLevels) + 1 else OrZero(a.completedLevels);
    var adjusted := if completing then 1 else newValue;
    var level, next := ComputeLevel(adjusted);
    var leveledUp := level > a.currentLevel || completing;
    var fires := leveledUp || (adjusted == 3 && !a.isCompleted);
    s := Step(a.(currentValue := adjusted, currentLevel := level, nextLevel := next,
                 isCompleted := adjusted >= 3,
                 lastUnlocked := if leveledUp then Some(now) else a.lastUnlocked,
                 completedLevels := Some(completed)),
              fires);
  }

  /** `updateTestScoreThresholdAchievement(n)`: the count becomes n, which
      never wraps; an unlock fires when it first reaches 3; nothing else
      changes (in particular `completedLevels`). */
  function ThresholdStep(a: Achievement, newCount: int, now: int): (s: Step)
    ensures s.next.currentValue == newCount && s.next.currentCount == Some(newCount)
    ensures s.next.isCompleted <==> newCount >= 3
    ensures s.fires <==> !a.isCompleted && newCount >= 3
    ensures s.next.lastUnlocked == (if s.fires then Some(now) else a.lastUnlocked)
    ensures s.next == a.(currentValue := newCount, currentCount := Some(newCount),
                         isCompleted := newCount >= 3, lastUnlocked := s.next.lastUnlocked)
  {
    var leveledUp := !a.isCompleted && newCount >= 3;
    Step(
      a.(currentValue := newCount, currentCount := Some(newCount), isCompleted := newCount >= 3,
         lastUnlocked := if leveledUp then Some(now) else a.lastUnlocked),
      leveledUp)
  }

  /** Once completed, the threshold achievement never signals again. */
  lemma ThresholdFiresOnce(a: Achievement, m: int, n: int, now: int, later: int)
    ensures var s := ThresholdStep(a, m, now);
            s.fires ==> !ThresholdStep(s.next, n, later).fires
  {
  }

  /** The text stored under "global-last-usage-date": the day's decimal number. */
  function DayText(day: int): string
  {
    IntText(day)
  }

  /** The value `checkAppUsage` passes to the streak update, given the stored
      last-usage text, today and the current value; `None` is no update.
      Text DayText did not write is an invalid date, whose day difference
      (NaN) passes neither test. */
  function AppUsageValue(last: Option<string>, today: int, current: int): (r: Option<int>)
  {
    if last == Some(DayText(today)) then None
    else if last.None? || last.value == "" then Some(1)
    else match DecodeInt(last.value)
      case None => None
      case Some(d) =>
        if today - d == 1 then Some(current + 1)
        else if today - d > 1 then Some(1)
        else None
  }

  /** The day rule: the same day changes nothing, no stored date starts at 1,
      the next day adds one, a longer gap restarts at 1, and an earlier or
      unreadable date changes nothing. */
  lemma AppUsageValueSpec(last: int, today: int, current: int)
    ensures AppUsageValue(None, today, current) == Some(1)
    ensures AppUsageValue(Some(""), today, current) == Some(1)
    ensures last == today ==> AppUsageValue(Some(DayText(last)), today, current).None?
    ensures last == today - 1 ==> AppUsageValue(Some(DayText(last)), today, current) == Some(current + 1)
    ensures last < today - 1 ==> AppUsageValue(Some(DayText(last)), today, current) == Some(1)
    ensures last > today ==> AppUsageValue(Some(DayText(last)), today, current).None?
  {
    ParseIntIntText(last);
    ParseIntIntText(today);
  }

  /** The app-usage value stays within 1..3: from a value in 0..3, any update
      the day rule makes lands in 1..3 (3 followed by a next day re-laps to 1). */
  lemma AppUsageStaysSmall(a: Achievement, last: Option<string>, today: int, now: int)
    requires 0 <= a.currentValue <= 3
    requires AppUsageValue(last, today, a.currentValue).Some?
    ensures 1 <= StreakStep(a, AppUsageValue(last, today, a.currentValue).value, now).next.currentValue <= 3
  {
  }
}
