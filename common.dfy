/** Shared vocabulary: optional values (JavaScript's null/undefined) and the
    text encoding that the app uses for everything it persists (JSON). */
module Common {

  datatype Option<+T> = None | Some(value: T)

  /** A persisted representation of values of type V: `encode` is
      JSON.stringify, `decode` is JSON.parse, whose failure (a thrown
      SyntaxError) is `None`. Nothing is assumed about `decode` on text that
      `encode` did not produce: it may fail or yield some value. */
  datatype Format<!V> = Format(encode: V -> string, decode: string -> Option<V>)

  /** The laws the app relies on: parsing what was stringified gives the
      value back, and stringified text is never empty (so a stored value is
      always truthy when read back). */
  ghost predicate Lawful<V(!new)>(f: Format<V>)
  {
    (forall v :: f.decode(f.encode(v)) == Some(v)) && (forall v :: f.encode(v) != "")
  }

  /** Equal encodings and equal values coincide; the app compares JSON strings
      to decide whether a value changed. */
  lemma EncodingInjective<V(!new)>(f: Format<V>, a: V, b: V)
    requires Lawful(f)
    ensures f.encode(a) == f.encode(b) <==> a == b
  {
    if f.encode(a) == f.encode(b) {
      assert Some(a) == f.decode(f.encode(a)) == f.decode(f.encode(b)) == Some(b);
    }
  }

  /** `x || 0` for an optional number field. */
  function OrZero(o: Option<int>): (r: int)
    ensures o.Some? && o.value != 0 ==> r == o.value
    ensures o.None? ==> r == 0
  {
    match o
    case None => 0
    case Some(n) => n
  }

  /** The exam identifier used when none is selected (`selectedExam || "pmp"`). */
  const DefaultExam: string := "pmp"

  function ExamOrDefault(selected: Option<string>): (e: string)
    ensures selected.Some? && selected.value != "" ==> e == selected.value
    ensures selected.None? || selected.value == "" ==> e == DefaultExam
  {
    if selected.Some? && selected.value != "" then selected.value else DefaultExam
  }

  /** The per-exam keys of a run in progress. */
  function AnswersKey(exam: string): string { exam + "-exam-answers" }
  function SubmittedKey(exam: string): string { exam + "-exam-submitted" }
  function StartTimeKey(exam: string): string { exam + "-exam-start-time" }
  function CompletedKey(exam: string): string { exam + "-exam-completed" }

  /** The store after the four run keys of an exam are removed. */
  function WithoutRun(items: map<string, string>, exam: string): (r: map<string, string>)
    ensures AnswersKey(exam) !in r && SubmittedKey(exam) !in r && StartTimeKey(exam) !in r && CompletedKey(exam) !in r
    ensures forall k :: k in r <==> k in items && k !in {AnswersKey(exam), SubmittedKey(exam), StartTimeKey(exam), CompletedKey(exam)}
    ensures forall k :: k in r ==> r[k] == items[k]
  {
    items - {AnswersKey(exam), SubmittedKey(exam), StartTimeKey(exam), CompletedKey(exam)}
  }
}
