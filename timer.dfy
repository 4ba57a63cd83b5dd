/** The exam timer: whole seconds since the start, the countdown, when the
    expiry callback fires, and the colour of the display. The clock reading
    is a parameter. */
module Timer {
  import opened Common

  /** `Math.floor((now - startTime) / 1000)`; Dafny's division by a positive
      divisor is the floor. */
  function Elapsed(now: int, startTime: int): (e: int)
    ensures 1000 * e <= now - startTime < 1000 * e + 1000
    ensures now >= startTime ==> e >= 0
  {
    (now - startTime) / 1000
  }

  /** `Math.max(0, totalTime - elapsed)`. */
  function Remaining(totalTime: int, elapsed: int): (r: int)
    ensures r >= 0 && r >= totalTime - elapsed
    ensures r == 0 <==> totalTime <= elapsed
    ensures r > 0 ==> r == totalTime - elapsed
  {
    if totalTime - elapsed > 0 then totalTime - elapsed else 0
  }

  /** What one `calculateTime` reports: the elapsed seconds passed to
      `onTimeUpdate`, and whether `onTimeExpired` is called. */
  datatype Tick = Tick(elapsed: int, remaining: int, expired: bool)

  function Reading(startTime: int, now: int, totalTime: int, isCountdown: bool, remainingBefore: int): (t: Tick)
    ensures t.elapsed == Elapsed(now, startTime)
    ensures isCountdown ==> t.remaining == Remaining(totalTime, t.elapsed)
    ensures !isCountdown ==> t.remaining == remainingBefore && !t.expired
    ensures t.expired <==> isCountdown && totalTime <= t.elapsed
  {
    var elapsed := Elapsed(now, startTime);
    if isCountdown then
      var remaining := Remaining(totalTime, elapsed);
      Tick(elapsed, remaining, remaining == 0)
    else Tick(elapsed, remainingBefore, false)
  }

  /** Once the countdown has run out, every later reading fires again. */
  lemma ExpiryPersists(startTime: int, now: int, later: int, totalTime: int, r: int, r': int)
    requires now <= later && Reading(startTime, now, totalTime, true, r).expired
    ensures Reading(startTime, later, totalTime, true, r').expired
  {
    assert Elapsed(now, startTime) <= Elapsed(later, startTime);
  }

  const White: string := "white"
  const Red: string := "#ff5252"
  const Orange: string := "#ffab40"

  /** `getTimerColor()`. The percentage `remaining / total * 100` is compared
      by cross-multiplying when the total is positive. With a zero total the
      quotient is NaN or +Infinity and no comparison holds; with a negative
      total it is at most 0. */
  function TimerColor(isCountdown: bool, remaining: int, totalTime: int): (c: string)
    requires remaining >= 0
    ensures !isCountdown ==> c == White
    ensures isCountdown && totalTime > 0 ==>
              (c == Red <==> 10 * remaining <= totalTime)
              && (c == Orange <==> totalTime < 10 * remaining && 4 * remaining <= totalTime)
              && (c == White <==> totalTime < 4 * remaining)
  {
    if !isCountdown then White
    else if totalTime == 0 then White
    else if totalTime < 0 then Red
    else if 100 * remaining <= 10 * totalTime then Red
    else if 100 * remaining <= 25 * totalTime then Orange
    else White
  }

  /** As the remaining time falls the colour only moves from white to
      orange to red. */
  lemma TimerColorMonotone(remaining: int, less: int, totalTime: int)
    requires 0 <= less <= remaining && totalTime > 0
    ensures TimerColor(true, remaining, totalTime) == Red ==> TimerColor(true, less, totalTime) == Red
    ensures TimerColor(true, remaining, totalTime) == Orange ==> TimerColor(true, less, totalTime) != White
  {
  }

  /** The timer component's state. */
  class TimerDisplay {
    var elapsedTime: int
    var remainingTime: int

    constructor (totalTime: int)
      ensures elapsedTime == 0 && remainingTime == totalTime
    {
      elapsedTime := 0;
      remainingTime := totalTime;
    }

    /** `calculateTime`: nothing without a (truthy) start time; otherwise the
        state follows the reading, and the elapsed seconds and the expiry are
        reported. */
    method Calculate(startTime: Option<int>, now: int, totalTime: int, isCountdown: bool)
      returns (update: Option<int>, expired: bool)
      modifies this
      ensures startTime.None? || startTime.value == 0 ==>
                update.None? && !expired && elapsedTime == old(elapsedTime) && remainingTime == old(remainingTime)
      ensures startTime.Some? && startTime.value != 0 ==>
                var t := Reading(startTime.value, now, totalTime, isCountdown, old(remainingTime));
                update == Some(t.elapsed) && expired == t.expired
                && elapsedTime == t.elapsed && remainingTime == t.remaining
    {
      if startTime.None? || startTime.value == 0 {
        return None, false;
      }
      var elapsed := (now - startTime.value) / 1000;
      elapsedTime := elapsed;
      expired := false;
      if isCountdown {
        var remaining := if totalTime - elapsed > 0 then totalTime - elapsed else 0;
        remainingTime := remaining;
        update := Some(elapsed);
        if remaining == 0 {
          expired := true;
        }
      } else {
        update := Some(elapsed);
      }
    }
  }
}
