/** An achievement card: the progress bar figure, the "value/target" label,
    and the confetti that plays once per achievement. */
module AchievementCard {
  import opened Common
  import opened Store
  import opened Seqs
  import opened Text
  import opened Achievements

  const ThresholdCardId: string := "test-score-threshold"

  /** A non-negative-denominator fraction `num / den` (per cent). */
  datatype Share = Share(num: int, den: int)

  predicate Proper(s: Share)
  {
    s.den > 0
  }

  /** `Math.min(100, x)` on a fraction. */
  function Min100(s: Share): (r: Share)
    requires Proper(s)
    ensures Proper(r) && r.num <= 100 * r.den
    ensures s.num >= 100 * s.den ==> r == Share(100, 1)
    ensures s.num < 100 * s.den ==> r == s
  {
    if s.num >= 100 * s.den then Share(100, 1) else s
  }

  /** `100 * part / whole` as a proper fraction, for a non-zero whole. */
  function PerCent(part: int, whole: int): (s: Share)
    requires whole != 0
    ensures Proper(s) && s.num * whole == 100 * part * s.den
  {
    if whole > 0 then Share(100 * part, whole) else Share(-100 * part, -whole)
  }

  /** `achievement.targetCount || 3` and `achievement.currentCount || 0`. */
  function Target(a: Achievement): (t: int)
    ensures t != 0
  {
    if a.targetCount.Some? && a.targetCount.value != 0 then a.targetCount.value else 3
  }

  function Count(a: Achievement): int
  {
    OrZero(a.currentCount)
  }

  /** The level threshold below the current level, or 0 at level 0; `None`
      is a level beyond the table (an undefined entry). */
  function PrevLevel(a: Achievement): Option<int>
  {
    if a.currentLevel <= 0 then Some(0)
    else if a.currentLevel <= |Levels| then Some(Levels[a.currentLevel - 1])
    else None
  }

  /** `calculateProgress()`: the bar figure. `None` stands for the results
      that are not numbers the bar can show: NaN (an undefined level entry,
      or 0/0) and minus infinity (a negative value over an empty range). A
      positive value over an empty range is plus infinity, shown as 100. */
  function Progress(a: Achievement): (r: Option<Share>)
    ensures r.Some? ==> Proper(r.value) && r.value.num <= 100 * r.value.den
    ensures a.id == ThresholdCardId ==> r == Some(Min100(PerCent(Count(a), Target(a))))
    ensures a.id != ThresholdCardId && a.isCompleted ==> r == Some(Share(100, 1))
    ensures a.id != ThresholdCardId && !a.isCompleted ==>
              (r.None? <==> PrevLevel(a).None?
                            || (a.nextLevel == PrevLevel(a).value && a.currentValue <= PrevLevel(a).value))
    ensures a.id != ThresholdCardId && !a.isCompleted && PrevLevel(a).Some? ==>
              var prev := PrevLevel(a).value;
              (a.nextLevel != prev ==> r == Some(Min100(PerCent(a.currentValue - prev, a.nextLevel - prev))))
              && (a.nextLevel == prev && a.currentValue > prev ==> r == Some(Share(100, 1)))
  {
    if a.id == ThresholdCardId then Some(Min100(PerCent(Count(a), Target(a))))
    else if a.isCompleted then Some(Share(100, 1))
    else match PrevLevel(a)
      case None => None
      case Some(prev) =>
        if a.nextLevel - prev != 0 then Some(Min100(PerCent(a.currentValue - prev, a.nextLevel - prev)))
        else if a.currentValue - prev > 0 then Some(Share(100, 1))
        else None
  }

  /** For the records the streak update writes, an open streak card shows
      value/3 of the way to the first level. */
  lemma ProgressOfStoredRecords(a: Achievement, newValue: int, now: int)
    requires a.id != ThresholdCardId
    ensures var s := StreakStep(a, newValue, now).next;
            !s.isCompleted ==> Progress(s) == Some(Min100(PerCent(s.currentValue, 3)))
  {
    var s := StreakStep(a, newValue, now).next;
    if !s.isCompleted {
      LevelOfSpec(s.currentValue);
      assert s.currentLevel == 0 && s.nextLevel == 3;
    }
  }

  /** The threshold card with the default target shows count/3, full from 3 on. */
  lemma ThresholdProgress(a: Achievement)
    requires a.id == ThresholdCardId && a.targetCount == Some(3) && a.currentCount.Some?
    ensures a.currentCount.value < 3 ==> Progress(a) == Some(Share(100 * a.currentCount.value, 3))
    ensures a.currentCount.value >= 3 ==> Progress(a) == Some(Share(100, 1))
  {
  }

  /** `formatLevelDisplay()`: "count/target" for the threshold card, else
      "value/nextLevel" (the same whether or not completed). */
  function Label(a: Achievement): string
  {
    if a.id == ThresholdCardId then IntText(Count(a)) + "/" + IntText(Target(a))
    else IntText(a.currentValue) + "/" + IntText(a.nextLevel)
  }

  lemma NoSlash(n: int)
    ensures '/' !in IntText(n)
  {
    var t := IntText(n);
    if n >= 0 {
      assert forall i :: 0 <= i < |t| ==> IsDigit(t[i]);
    } else {
      assert forall i :: 1 <= i < |t| ==> IsDigit(t[i]) by {
        assert t[1..] == NatText(-n);
      }
    }
  }

  /** The label reads back as the two figures it shows. */
  lemma LabelRoundTrip(a: Achievement)
    ensures var parts := Split(Label(a), "/");
            |parts| == 2
            && ParseInt(parts[0]) == Some(if a.id == ThresholdCardId then Count(a) else a.currentValue)
            && ParseInt(parts[1]) == Some(if a.id == ThresholdCardId then Target(a) else a.nextLevel)
  {
    var x := if a.id == ThresholdCardId then Count(a) else a.currentValue;
    var y := if a.id == ThresholdCardId then Target(a) else a.nextLevel;
    NoSlash(x);
    NoSlash(y);
    JoinCons(IntText(x), [IntText(y)], "/");
    assert Label(a) == Join([IntText(x), IntText(y)], ['/']);
    SplitJoin([IntText(x), IntText(y)], '/');
    ParseIntIntText(x);
    ParseIntIntText(y);
  }

  function ConfettiKey(id: string): string
  {
    "confetti-shown-" + id
  }

  /** The confetti effect: whether it plays, and the store afterwards. */
  function Confetti(items: map<string, string>, id: string, isNewlyUnlocked: bool): (r: (bool, map<string, string>))
    ensures r.0 <==> isNewlyUnlocked && !(ConfettiKey(id) in items && items[ConfettiKey(id)] != "")
    ensures r.1 == if r.0 then items[ConfettiKey(id) := "true"] else items
  {
    var key := ConfettiKey(id);
    if isNewlyUnlocked && !(key in items && items[key] != "") then (true, items[key := "true"]) else (false, items)
  }

  /** Confetti plays at most once per achievement id. */
  lemma ConfettiOnce(items: map<string, string>, id: string, first: bool, second: bool)
    ensures Confetti(items, id, first).0 ==> !Confetti(Confetti(items, id, first).1, id, second).0
  {
  }

  /** The effect as it runs against the store. */
  method ShowConfetti(store: Storage, id: string, isNewlyUnlocked: bool) returns (show: bool)
    modifies store
    ensures (show, store.items) == Confetti(old(store.items), id, isNewlyUnlocked)
  {
    var key := ConfettiKey(id);
    show := isNewlyUnlocked && !store.Holds(key);
    if show {
      store.SetItem(key, "true");
    }
  }
}
