/** The `useTestHistory` hook: the list of saved test results, shared by all
    exams under one store key, validated on load, appended to on save, and
    filtered or cleared per exam. */
module TestHistory {
  import opened Common
  import opened Store
  import opened Seqs
  import opened Json
  import opened Text

  const HistoryKey: string := "pmp-test-history"
  const ResetKey: string := "pmp-reset-history"

  /** The store once the development reset flag has been honoured: when it
      reads "true", both the history and the flag are removed. */
  function AfterReset(items: map<string, string>): (r: map<string, string>)
    ensures ResetKey in items && items[ResetKey] == "true" ==> HistoryKey !in r && ResetKey !in r
    ensures !(ResetKey in items && items[ResetKey] == "true") ==> r == items
  {
    if ResetKey in items && items[ResetKey] == "true" then items - {HistoryKey, ResetKey} else items
  }

  /** The stored text is present, not empty, and parses to an array. */
  predicate HoldsArray(items: map<string, string>, json: Format<Json>)
  {
    HistoryKey in items && items[HistoryKey] != ""
    && json.decode(items[HistoryKey]).Some? && json.decode(items[HistoryKey]).value.JArr?
  }

  /** The history as a load leaves it: the valid entries of a stored array;
      nothing when the stored text is not an array or does not parse; the
      previous state when nothing is stored. */
  function LoadedHistory(items: map<string, string>, json: Format<Json>, previous: seq<Json>): seq<Json>
  {
    var r := AfterReset(items);
    if HoldsArray(r, json) then Filter(json.decode(r[HistoryKey]).value.items, ValidEntry)
    else if HistoryKey in r && r[HistoryKey] != "" then []
    else previous
  }

  /** The store as a load leaves it: a stored value that is not an array, or
      does not parse, is removed. */
  function StoreAfterLoad(items: map<string, string>, json: Format<Json>): map<string, string>
  {
    var r := AfterReset(items);
    if HistoryKey in r && r[HistoryKey] != "" && !HoldsArray(r, json) then r - {HistoryKey} else r
  }

  /** The array `saveTestResult` appends to: the stored array, or nothing. */
  function StoredArray(items: map<string, string>, json: Format<Json>): seq<Json>
  {
    if HoldsArray(items, json) then json.decode(items[HistoryKey]).value.items else []
  }

  /** `(result.examType || "pmp") === exam`, as a filter. */
  function Of(exam: string): Json -> bool
  {
    e => ForExam(e, exam)
  }

  /** `(result.examType || "pmp") !== exam`, as a filter. */
  function NotOf(exam: string): Json -> bool
  {
    e => !ForExam(e, exam)
  }

  /** A selected exam in the JavaScript sense: set and not empty. */
  predicate Selected(exam: Option<string>)
  {
    exam.Some? && exam.value != ""
  }

  /** Every entry left by a load is valid, provided the previous state was. */
  lemma LoadedHistoryValid(items: map<string, string>, json: Format<Json>, previous: seq<Json>)
    requires forall i :: 0 <= i < |previous| ==> ValidEntry(previous[i])
    ensures forall i :: 0 <= i < |LoadedHistory(items, json, previous)| ==>
              ValidEntry(LoadedHistory(items, json, previous)[i])
  {
  }

  /** Loading again from the store a load left gives the same history and
      the same store: the reload that follows an exam change is stable. */
  lemma LoadStable(items: map<string, string>, json: Format<Json>, previous: seq<Json>)
    ensures StoreAfterLoad(StoreAfterLoad(items, json), json) == StoreAfterLoad(items, json)
    ensures LoadedHistory(StoreAfterLoad(items, json), json, LoadedHistory(items, json, previous))
            == LoadedHistory(items, json, previous)
  {
    var r := AfterReset(items);
    var after := StoreAfterLoad(items, json);
    assert ResetKey in after ==> after[ResetKey] == r[ResetKey];
    assert AfterReset(after) == after;
    if HoldsArray(r, json) {
      assert after == r;
      FilterIdempotent(json.decode(r[HistoryKey]).value.items, ValidEntry);
    }
  }

  /** After the reset flag is set and the page reloads, the fresh mount loads
      an empty history and the store holds neither key. */
  lemma ResetThenLoad(items: map<string, string>, json: Format<Json>)
    ensures LoadedHistory(items[ResetKey := "true"], json, []) == []
    ensures HistoryKey !in StoreAfterLoad(items[ResetKey := "true"], json)
    ensures ResetKey !in StoreAfterLoad(items[ResetKey := "true"], json)
  {
  }

  /** A list written by a save is read back by a load as its valid entries. */
  lemma SaveThenLoad(items: map<string, string>, json: Format<Json>, h: seq<Json>, previous: seq<Json>)
    requires Lawful(json)
    requires !(ResetKey in items && items[ResetKey] == "true")
    ensures LoadedHistory(items[HistoryKey := json.encode(JArr(h))], json, previous) == Filter(h, ValidEntry)
    ensures StoreAfterLoad(items[HistoryKey := json.encode(JArr(h))], json) == items[HistoryKey := json.encode(JArr(h))]
  {
    var w := items[HistoryKey := json.encode(JArr(h))];
    assert json.decode(json.encode(JArr(h))) == Some(JArr(h));
    assert json.encode(JArr(h)) != "";
    assert AfterReset(w) == w;
    assert HoldsArray(w, json);
  }

  /** The result a save builds: the caller's fields, then `id`, `date` and
      `examType` (later keys win, as in an object spread). */
  function NewResult(fields: map<string, Json>, nowMs: int, isoDate: string, selectedExam: Option<string>): (r: Json)
    ensures r.JObj? && r.fields.Keys == fields.Keys + {"id", "date", "examType"}
    ensures Field(r, "id") == Some(JStr(IntText(nowMs)))
    ensures Field(r, "date") == Some(JStr(isoDate))
    ensures Field(r, "examType") == Some(JStr(ExamOrDefault(selectedExam)))
    ensures forall k :: k in fields && k != "id" && k != "date" && k != "examType" ==> Field(r, k) == Some(fields[k])
  {
    JObj(fields["id" := JStr(IntText(nowMs))]["date" := JStr(isoDate)]["examType" := JStr(ExamOrDefault(selectedExam))])
  }

  /** The id of a result is the save time's decimal text, which reads back as
      that time. */
  lemma NewResultId(fields: map<string, Json>, nowMs: int, isoDate: string, selectedExam: Option<string>)
    ensures ParseInt(Field(NewResult(fields, nowMs, isoDate, selectedExam), "id").value.s) == Some(nowMs)
  {
    ParseIntIntText(nowMs);
  }

  /** A saved result always belongs to the exam it was saved under. */
  lemma NewResultForExam(fields: map<string, Json>, nowMs: int, isoDate: string, selectedExam: Option<string>)
    ensures ForExam(NewResult(fields, nowMs, isoDate, selectedExam), ExamOrDefault(selectedExam))
  {
    var r := NewResult(fields, nowMs, isoDate, selectedExam);
    assert Truthy(Field(r, "examType"));
  }

  /** The per-exam view and what clearing that exam keeps split the history:
      together they hold every entry exactly as often as the history does,
      and nothing that clearing keeps is in the view. */
  lemma ClearPartition(h: seq<Json>, exam: string)
    ensures multiset(Filter(h, Of(exam))) + multiset(Filter(h, NotOf(exam))) == multiset(h)
    ensures Filter(Filter(h, NotOf(exam)), Of(exam)) == []
  {
    FilterPartition(h, Of(exam), NotOf(exam));
    FilterDisjoint(h, Of(exam), NotOf(exam));
  }

  class TestHistoryHook {
    const store: Storage
    /** The JSON codec of stored values. */
    const json: Format<Json>
    var selectedExam: Option<string>
    var history: seq<Json>
    var isLoaded: bool

    ghost predicate Valid()
      reads this
    {
      Lawful(json)
    }

    constructor (store: Storage, json: Format<Json>, selectedExam: Option<string>)
      requires Lawful(json)
      ensures Valid() && this.store == store && this.json == json
      ensures this.selectedExam == selectedExam && history == [] && !isLoaded
    {
      this.store := store;
      this.json := json;
      this.selectedExam := selectedExam;
      history := [];
      isLoaded := false;
    }

    /** The load effect, which runs while `isLoaded` is false. */
    method Load()
      requires Valid()
      modifies this, store
      ensures Valid() && selectedExam == old(selectedExam) && isLoaded
      ensures old(isLoaded) ==> history == old(history) && store.items == old(store.items)
      ensures !old(isLoaded) ==>
                history == LoadedHistory(old(store.items), json, old(history))
                && store.items == StoreAfterLoad(old(store.items), json)
    {
      if isLoaded {
        return;
      }
      if store.IsTrue(ResetKey) {
        store.RemoveItem(HistoryKey);
        store.RemoveItem(ResetKey);
        assert store.items == AfterReset(old(store.items));
      }
      if store.Holds(HistoryKey) {
        match json.decode(store.items[HistoryKey])
        case Some(JArr(xs)) =>
          history := Filter(xs, ValidEntry);
        case _ =>
          store.RemoveItem(HistoryKey);
          history := [];
      }
      isLoaded := true;
    }

    /** The exam-change effect: a loaded hook reloads when an exam is selected. */
    method ChangeExam(exam: Option<string>)
      modifies this
      ensures Valid() == old(Valid()) && selectedExam == exam && history == old(history)
      ensures isLoaded == (old(isLoaded) && (exam == old(selectedExam) || !Selected(exam)))
    {
      if exam != selectedExam {
        selectedExam := exam;
        if isLoaded && Selected(exam) {
          isLoaded := false;
        }
      }
    }

    /** `saveTestResult(result)`: builds the result and appends it to the list
      read afresh from the store, which it then writes back. */
    method SaveTestResult(fields: map<string, Json>, nowMs: int, isoDate: string) returns (r: Json)
      requires Valid()
      modifies this, store
      ensures Valid() && selectedExam == old(selectedExam) && isLoaded == old(isLoaded)
      ensures r == NewResult(fields, nowMs, isoDate, selectedExam)
      ensures history == StoredArray(old(store.items), json) + [r]
      ensures store.items == old(store.items)[HistoryKey := json.encode(JArr(history))]
    {
      r := JObj(fields["id" := JStr(IntText(nowMs))]["date" := JStr(isoDate)]["examType" := JStr(ExamOrDefault(selectedExam))]);
      var current: seq<Json> := [];
      if store.Holds(HistoryKey) {
        match json.decode(store.items[HistoryKey])
        case Some(JArr(xs)) =>
          current := xs;
        case _ =>
      }
      var updated := current + [r];
      history := updated;
      store.SetItem(HistoryKey, json.encode(JArr(updated)));
    }

    /** `getFilteredHistory()`: everything when no exam is selected, else the
        selected exam's results in order. */
    function FilteredHistory(): (r: seq<Json>)
      reads this
      ensures !Selected(selectedExam) ==> r == history
      ensures Selected(selectedExam) ==> r == Filter(history, Of(selectedExam.value))
    {
      if Selected(selectedExam) then Filter(history, Of(selectedExam.value)) else history
    }

    /** `clearTestHistory()`: with an exam selected, keeps the other exams'
        results and writes them back; otherwise empties the list and removes
        the key. Either way the view of the selected exam is empty afterwards. */
    method ClearTestHistory()
      requires Valid()
      modifies this, store
      ensures Valid() && selectedExam == old(selectedExam) && isLoaded == old(isLoaded)
      ensures Selected(selectedExam) ==>
                history == Filter(old(history), NotOf(selectedExam.value))
                && store.items == old(store.items)[HistoryKey := json.encode(JArr(history))]
      ensures !Selected(selectedExam) ==> history == [] && store.items == old(store.items) - {HistoryKey}
      ensures FilteredHistory() == []
    {
      if Selected(selectedExam) {
        var updated := Filter(history, NotOf(selectedExam.value));
        ClearPartition(history, selectedExam.value);
        history := updated;
        store.SetItem(HistoryKey, json.encode(JArr(updated)));
      } else {
        history := [];
        store.RemoveItem(HistoryKey);
      }
    }

    /** `resetTestHistory()`: sets the flag the next load honours. */
    method ResetTestHistory()
      modifies store
      ensures store.items == old(store.items)[ResetKey := "true"]
    {
      store.SetItem(ResetKey, "true");
    }
  }
}
