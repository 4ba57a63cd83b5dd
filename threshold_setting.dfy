/** The score-threshold editor: the clamped text input, and the
    save / confirm / cancel rules around the reset warning. */
module ThresholdSetting {
  import opened Common
  import opened Text

  const MinThreshold: int := 10
  const MaxThreshold: int := 100

  /** `Math.max(10, Math.min(100, v))`. */
  function Clamp(v: int): (r: int)
    ensures MinThreshold <= r <= MaxThreshold
    ensures MinThreshold <= v <= MaxThreshold ==> r == v
    ensures v < MinThreshold ==> r == MinThreshold
    ensures v > MaxThreshold ==> r == MaxThreshold
  {
    if v > MaxThreshold then MaxThreshold else if v < MinThreshold then MinThreshold else v
  }

  /** The value after typing `text`: parsed and clamped, or unchanged when
      `parseInt` gives NaN. */
  function Typed(value: int, text: string): (r: int)
    ensures ParseInt(text).None? ==> r == value
    ensures ParseInt(text).Some? ==> MinThreshold <= r <= MaxThreshold
  {
    match ParseInt(text)
    case None => value
    case Some(n) => Clamp(n)
  }

  /** Typing back a value in range gives that value. */
  lemma TypedRoundTrip(value: int, v: int)
    requires MinThreshold <= v <= MaxThreshold
    ensures Typed(value, IntText(v)) == v
  {
    ParseIntIntText(v);
  }

  class ThresholdEditor {
    var value: int
    var isEditing: bool
    var showResetAlert: bool
    var originalThreshold: int
    var previousExam: Option<string>
    var previousThreshold: int

    constructor (threshold: int, selectedExam: Option<string>)
      ensures value == threshold && originalThreshold == threshold && !isEditing && !showResetAlert
      ensures previousExam == selectedExam && previousThreshold == threshold
    {
      value := threshold;
      originalThreshold := threshold;
      isEditing := false;
      showResetAlert := false;
      previousExam := selectedExam;
      previousThreshold := threshold;
    }

    /** The synchronising effect, its delay taken as elapsed: a new exam or
        a new threshold replaces the value and the original. */
    method Sync(threshold: int, selectedExam: Option<string>)
      modifies this
      ensures isEditing == old(isEditing) && showResetAlert == old(showResetAlert)
      ensures old(previousExam) == selectedExam && old(previousThreshold) == threshold ==>
                value == old(value) && originalThreshold == old(originalThreshold)
                && previousExam == old(previousExam) && previousThreshold == old(previousThreshold)
      ensures old(previousExam) != selectedExam || old(previousThreshold) != threshold ==>
                value == threshold && originalThreshold == threshold
                && previousExam == selectedExam && previousThreshold == threshold
    {
      if previousExam != selectedExam || previousThreshold != threshold {
        value := threshold;
        originalThreshold := threshold;
        previousExam := selectedExam;
        previousThreshold := threshold;
      }
    }

    /** The "Change" button. */
    method StartEditing()
      modifies this
      ensures isEditing && value == old(value) && showResetAlert == old(showResetAlert)
      ensures originalThreshold == old(originalThreshold)
    {
      isEditing := true;
    }

    /** The slider reports a value in 10..100. */
    method SliderChange(v: int)
      requires MinThreshold <= v <= MaxThreshold
      modifies this
      ensures value == v && isEditing == old(isEditing) && showResetAlert == old(showResetAlert)
      ensures originalThreshold == old(originalThreshold)
    {
      value := v;
    }

    /** `handleInputChange`. */
    method InputChange(text: string)
      modifies this
      ensures value == Typed(old(value), text)
      ensures isEditing == old(isEditing) && showResetAlert == old(showResetAlert)
      ensures originalThreshold == old(originalThreshold)
    {
      var n := ParseInt(text);
      if n.Some? {
        value := if n.value > 100 then 100 else if n.value < 10 then 10 else n.value;
      }
    }

    /** `handleSave`: an unchanged value closes the editor; a changed one
        raises the reset warning and keeps it open. */
    method Save()
      modifies this
      ensures value == old(value) && originalThreshold == old(originalThreshold)
      ensures value == originalThreshold ==> !isEditing && showResetAlert == old(showResetAlert)
      ensures value != originalThreshold ==> showResetAlert && isEditing == old(isEditing)
    {
      if value != originalThreshold {
        showResetAlert := true;
      } else {
        isEditing := false;
      }
    }

    /** `confirmThresholdChange`: the new threshold is reported exactly when
        it differs from the original, which it then becomes. */
    method Confirm() returns (update: Option<int>)
      modifies this
      ensures update.Some? <==> old(value) != old(originalThreshold)
      ensures update.Some? ==> update.value == old(value)
      ensures value == old(value) && originalThreshold == value && !showResetAlert && !isEditing
    {
      update := None;
      if value != originalThreshold {
        update := Some(value);
        originalThreshold := value;
      }
      showResetAlert := false;
      isEditing := false;
    }

    /** `cancelThresholdChange`: only the warning goes away. */
    method CancelAlert()
      modifies this
      ensures !showResetAlert && value == old(value) && isEditing == old(isEditing)
      ensures originalThreshold == old(originalThreshold)
    {
      showResetAlert := false;
    }

    /** The editor's Cancel button restores the original and leaves editing. */
    method CancelEditing()
      modifies this
      ensures value == originalThreshold && originalThreshold == old(originalThreshold) && !isEditing
      ensures showResetAlert == old(showResetAlert)
    {
      value := originalThreshold;
      isEditing := false;
    }
  }
}
