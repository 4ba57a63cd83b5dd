/** The JSON values the app parses out of the store, and the JavaScript
    property tests it applies to them (`typeof`, `Array.isArray`, truthiness). */
module Json {
  import opened Common
  import opened Text

  /** A parsed JSON value. Numbers are integers here: every number the app
      stores (scores, counts, timestamps) is an integer. */
  datatype Json =
    | JNull
    | JBool(b: bool)
    | JNum(n: int)
    | JStr(s: string)
    | JArr(items: seq<Json>)
    | JObj(fields: map<string, Json>)

  /** Property access `v.name`: `None` is `undefined`. */
  function Field(v: Json, name: string): (r: Option<Json>)
    ensures r.Some? <==> v.JObj? && name in v.fields
  {
    if v.JObj? && name in v.fields then Some(v.fields[name]) else None
  }

  /** JavaScript truthiness of a possibly undefined value. */
  predicate Truthy(o: Option<Json>)
  {
    match o
    case None => false
    case Some(JNull) => false
    case Some(JBool(b)) => b
    case Some(JNum(n)) => n != 0
    case Some(JStr(s)) => s != ""
    case Some(_) => true
  }

  predicate IsString(o: Option<Json>) { o.Some? && o.value.JStr? }
  predicate IsNumber(o: Option<Json>) { o.Some? && o.value.JNum? }
  predicate IsArray(o: Option<Json>) { o.Some? && o.value.JArr? }

  /** The shape a stored test result must have to be kept on load. */
  predicate ValidEntry(e: Json)
  {
    e.JObj?
    && IsString(Field(e, "id")) && IsString(Field(e, "date"))
    && IsNumber(Field(e, "score")) && IsNumber(Field(e, "totalQuestions"))
    && IsNumber(Field(e, "correctAnswers"))
    && IsString(Field(e, "testType")) && IsArray(Field(e, "tags"))
  }

  /** `result.examType || "pmp"`: results saved before exams were told apart
      count as "pmp". */
  function EffectiveExam(e: Json): (r: Json)
    ensures Truthy(Field(e, "examType")) ==> r == Field(e, "examType").value
    ensures !Truthy(Field(e, "examType")) ==> r == JStr(DefaultExam)
  {
    var t := Field(e, "examType");
    if Truthy(t) then t.value else JStr(DefaultExam)
  }

  /** `(result.examType || "pmp") === exam`. */
  predicate ForExam(e: Json, exam: string)
  {
    EffectiveExam(e) == JStr(exam)
  }

  /** `result.score`, when it is a number. */
  function Score(e: Json): Option<int>
  {
    var f := Field(e, "score");
    if f.Some? && f.value.JNum? then Some(f.value.n) else None
  }
}
