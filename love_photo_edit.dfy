/**
  The love-photo editor: the reactive form record, the payload it is turned
  into on submit (validation, `undefined` to `null`, three trimmed fields),
  the choice between create, update and no request, and the date picker.

  The server round trips are left to the caller: a submit yields the
  request it would send, or why it sends none.
 */
module LovePhotoEdit {
  import opened JsPrims

  /** A value held by one key of the reactive form. */
  datatype Value = Undefined | Null | Str(s: string) | Bool(b: bool) | Date(ms: int)

  predicate Truthy(v: Value) {
    match v
    case Undefined => false
    case Null => false
    case Str(s) => s != ""
    case Bool(b) => b
    case Date(_) => true
  }

  type Form = map<string, Value>

  /** `data[k]`, `undefined` for a missing key. */
  function Field(data: Form, k: string): Value {
    if k in data then data[k] else Undefined
  }

  /** The keys of the reactive record. */
  const FormKeys: set<string> :=
    {"title", "descrip", "colors", "time", "key", "hasPhotos", "music",
     "timePreffix", "timeSuffix", "detailMap"}

  /** The keys bound to a text input. */
  const TextKeys: set<string> :=
    {"title", "descrip", "colors", "key", "music", "timePreffix", "timeSuffix", "detailMap"}

  /** `resetReactive()`: every key of the record, all strings empty and
      `hasPhotos` on. */
  function ResetReactive(): (r: Form)
    ensures r.Keys == FormKeys
    ensures forall k :: k in r && k != "hasPhotos" ==> r[k] == Str("")
    ensures r["hasPhotos"] == Bool(true)
  {
    map["title" := Str(""), "descrip" := Str(""), "colors" := Str(""), "time" := Str(""),
        "key" := Str(""), "hasPhotos" := Bool(true), "music" := Str(""),
        "timePreffix" := Str(""), "timeSuffix" := Str(""), "detailMap" := Str("")]
  }

  /** Why a payload could not be built: the description is missing or blank,
      or a field that is trimmed is not a string (`trim` is not a function). */
  datatype PayloadError = EmptyDescription | NotAString(field: string)

  datatype Result<T> = Success(value: T) | Failure(error: PayloadError)

  /** The three keys the payload trims. */
  predicate IsTrimmedKey(k: string) {
    k == "descrip" || k == "music" || k == "detailMap"
  }

  /** The `transform` step: `undefined` becomes `null`, everything else,
      including empty strings, is copied. */
  function NullForUndefined(v: Value): Value {
    if v == Undefined then Null else v
  }

  /** lodash `transform` over the record: every key kept, `undefined` as
      `null`. */
  function Transform(data: Form): (r: Form)
    ensures r.Keys == data.Keys
    ensures forall k :: k in data ==> r[k] == NullForUndefined(data[k])
  {
    map k | k in data :: NullForUndefined(data[k])
  }

  /** The spread of the transformed record followed by the three trimmed
      fields. */
  function WithTrimmed(t: Form, descrip: string, music: string, detailMap: string): Form {
    t["descrip" := Str(Trim(descrip))]["music" := Str(Trim(music))]["detailMap" := Str(Trim(detailMap))]
  }

  /** `parseDataToPayload`. A payload exists exactly when the description is
      a string that is not blank and the two other trimmed fields are
      strings. */
  function ParseDataToPayload(data: Form): (r: Result<Form>)
    ensures r.Success? <==>
      && Field(data, "descrip").Str? && !AllWhitespace(Field(data, "descrip").s)
      && Field(data, "music").Str? && Field(data, "detailMap").Str?
  {
    var descrip := Field(data, "descrip");
    if !Truthy(descrip) then Failure(EmptyDescription)
    else if !descrip.Str? then Failure(NotAString("descrip"))
    else
      TrimEmptyIff(descrip.s);
      if Trim(descrip.s) == [] then Failure(EmptyDescription)
      else
        var music := Field(data, "music");
        if !music.Str? then Failure(NotAString("music"))
        else
          var detailMap := Field(data, "detailMap");
          if !detailMap.Str? then Failure(NotAString("detailMap"))
          else Success(WithTrimmed(Transform(data), descrip.s, music.s, detailMap.s))
  }

  /** The description check: a missing, falsy or blank description is
      reported as empty. */
  lemma EmptyDescriptionIff(data: Form)
    ensures ParseDataToPayload(data) == Failure(EmptyDescription)
            <==> !Truthy(Field(data, "descrip"))
                 || (Field(data, "descrip").Str? && AllWhitespace(Field(data, "descrip").s))
  {
    var d := Field(data, "descrip");
    if d.Str? {
      TrimEmptyIff(d.s);
    }
  }

  /** The payload keeps the form's keys, holds no `undefined`, copies every
      other field with `undefined` as `null`, and trims the description, the
      music URL and the detail map. */
  lemma PayloadShape(data: Form)
    requires ParseDataToPayload(data).Success?
    ensures var p := ParseDataToPayload(data).value;
      && p.Keys == data.Keys
      && (forall k :: k in p ==> p[k] != Undefined)
      && (forall k :: k in data && !IsTrimmedKey(k) ==> p[k] == NullForUndefined(data[k]))
      && p["descrip"] == Str(Trim(data["descrip"].s))
      && p["music"] == Str(Trim(data["music"].s))
      && p["detailMap"] == Str(Trim(data["detailMap"].s))
  {
    assert "descrip" in data && "music" in data && "detailMap" in data;
    var t := Transform(data);
    assert ParseDataToPayload(data).value == WithTrimmed(t, data["descrip"].s, data["music"].s, data["detailMap"].s);
    WithTrimmedShape(t, data["descrip"].s, data["music"].s, data["detailMap"].s);
  }

  /** Trimming three keys of a map that has them keeps its keys and changes
      no other entry. */
  lemma WithTrimmedShape(t: Form, descrip: string, music: string, detailMap: string)
    requires "descrip" in t && "music" in t && "detailMap" in t
    ensures var p := WithTrimmed(t, descrip, music, detailMap);
      && p.Keys == t.Keys
      && (forall k :: k in t && !IsTrimmedKey(k) ==> p[k] == t[k])
      && p["descrip"] == Str(Trim(descrip))
      && p["music"] == Str(Trim(music))
      && p["detailMap"] == Str(Trim(detailMap))
  {
    var t1 := t["descrip" := Str(Trim(descrip))];
    var t2 := t1["music" := Str(Trim(music))];
    var t3 := t2["detailMap" := Str(Trim(detailMap))];
    UpdatePresentKey(t, "descrip", Str(Trim(descrip)));
    UpdatePresentKey(t1, "music", Str(Trim(music)));
    UpdatePresentKey(t2, "detailMap", Str(Trim(detailMap)));
  }

  /** Overwriting a key that is present keeps the key set and every other
      entry. */
  lemma UpdatePresentKey(t: Form, key: string, v: Value)
    requires key in t
    ensures t[key := v].Keys == t.Keys && t[key := v][key] == v
    ensures forall k :: k in t && k != key ==> t[key := v][k] == t[k]
  {
  }

  /** A fresh form cannot be submitted. */
  lemma FreshFormRejected()
    ensures ParseDataToPayload(ResetReactive()) == Failure(EmptyDescription)
  {
  }

  /** A payload passes its own validation. */
  lemma PayloadRevalidates(data: Form)
    requires ParseDataToPayload(data).Success?
    ensures ParseDataToPayload(ParseDataToPayload(data).value).Success?
  {
    var p := ParseDataToPayload(data).value;
    var d := data["descrip"].s;
    assert Field(p, "descrip") == Str(Trim(d)) && Field(p, "music").Str? && Field(p, "detailMap").Str? by {
      PayloadShape(data);
      assert "descrip" in data && "music" in data && "detailMap" in data;
    }
    assert !AllWhitespace(Trim(d)) by {
      TrimEmptyIff(d);
      TrimIdempotent(d);
      TrimEmptyIff(Trim(d));
    }
  }

  /** Trimming in the payload is stable: a payload built from a payload is the
      same payload. */
  lemma PayloadIdempotent(data: Form)
    requires ParseDataToPayload(data).Success?
    ensures ParseDataToPayload(ParseDataToPayload(data).value) == ParseDataToPayload(data)
  {
    var p := ParseDataToPayload(data).value;
    PayloadRevalidates(data);
    var q := ParseDataToPayload(p).value;
    PayloadShape(data);
    PayloadShape(p);
    TrimIdempotent(data["descrip"].s);
    TrimIdempotent(data["music"].s);
    TrimIdempotent(data["detailMap"].s);
    SameEntriesSameMap(p, q);
  }

  /** Two payload maps with the same keys agree when they agree on the
      trimmed keys and the second is the `transform` of the first elsewhere. */
  lemma SameEntriesSameMap(p: Form, q: Form)
    requires q.Keys == p.Keys
    requires forall k :: k in p ==> p[k] != Undefined
    requires forall k :: k in p && !IsTrimmedKey(k) ==> q[k] == NullForUndefined(p[k])
    requires "descrip" in p && "music" in p && "detailMap" in p
    requires q["descrip"] == p["descrip"] && q["music"] == p["music"] && q["detailMap"] == p["detailMap"]
    ensures q == p
  {
    forall k | k in p ensures q[k] == p[k] {
      if !IsTrimmedKey(k) {
        assert q[k] == NullForUndefined(p[k]);
      }
    }
  }

  // ---------------------------------------------------------------------------
  // Submission
  // ---------------------------------------------------------------------------

  /** A value of `route.query.id`: a string, `null`, or a list of them. */
  datatype QueryValue = QStr(s: string) | QNull | QList(items: seq<Option<string>>)

  predicate TruthyId(id: Option<QueryValue>) {
    match id
    case None => false
    case Some(QStr(s)) => s != ""
    case Some(QNull) => false
    case Some(QList(_)) => true
  }

  /** The editor loads an existing record, and a submit updates it, exactly
      for a non-empty string id. */
  predicate EditsRecord(id: Option<QueryValue>) {
    id.Some? && id.value.QStr? && id.value.s != ""
  }

  datatype Request = Create(payload: Form) | Update(id: string, payload: Form)

  /** What a submit does: send a request, send nothing, or abort on a
      payload error (the error message rethrows). */
  datatype Outcome = Sent(request: Request) | NothingSent | Aborted(error: PayloadError)

  /** `handleSubmit`. */
  function Submit(data: Form, id: Option<QueryValue>): (o: Outcome)
    ensures o.NothingSent? <==> TruthyId(id) && !id.value.QStr?
    ensures o.Aborted? <==> ParseDataToPayload(data).Failure? && !(TruthyId(id) && !id.value.QStr?)
    ensures o.Sent? ==> o.request.payload == ParseDataToPayload(data).value
    ensures o.Sent? && o.request.Update? <==> EditsRecord(id) && ParseDataToPayload(data).Success?
    ensures o.Sent? && o.request.Update? ==> o.request.id == id.value.s
    ensures o.Sent? && o.request.Create? <==> !TruthyId(id) && ParseDataToPayload(data).Success?
  {
    if TruthyId(id) then
      if !id.value.QStr? then NothingSent
      else
        match ParseDataToPayload(data)
        case Failure(e) => Aborted(e)
        case Success(p) => Sent(Update(id.value.s, p))
    else
      match ParseDataToPayload(data)
      case Failure(e) => Aborted(e)
      case Success(p) => Sent(Create(p))
  }

  /** A list-valued id is never validated: the submit returns before the
      payload is built, even for a fresh form. */
  lemma ListIdSkipsValidation(items: seq<Option<string>>)
    ensures Submit(ResetReactive(), Some(QList(items))) == NothingSent
  {
  }

  // ---------------------------------------------------------------------------
  // Header action label
  // ---------------------------------------------------------------------------

  datatype ActionLabel = UpdateLabel | PublishLabel

  /** What the label test receives: a plain query value, or the computed
      reference that wraps it (an object). */
  datatype LabelArgument = Plain(q: Option<QueryValue>) | ComputedRef(inner: Option<QueryValue>)

  /** lodash `isString`. */
  predicate IsString(x: LabelArgument) {
    x.Plain? && x.q.Some? && x.q.value.QStr?
  }

  /** The header button as written: the string test is applied to the
      computed reference itself, not to its value. */
  function ActionLabelAsWritten(id: Option<QueryValue>): ActionLabel {
    if IsString(ComputedRef(id)) then UpdateLabel else PublishLabel
  }

  /** As written, editing a record still shows the publish label while the
      submit sends an update. */
  lemma ActionLabelAsWrittenMislabels(data: Form, recordId: string)
    requires ParseDataToPayload(data).Success? && recordId != ""
    ensures ActionLabelAsWritten(Some(QStr(recordId))) == PublishLabel
    ensures Submit(data, Some(QStr(recordId))) == Sent(Update(recordId, ParseDataToPayload(data).value))
  {
  }

  /** The header button as intended: the update label exactly when the page
      edits an existing record. */
  function ActionLabelFor(id: Option<QueryValue>): (l: ActionLabel)
    ensures l == UpdateLabel <==> EditsRecord(id)
  {
    if IsString(Plain(id)) && id.value.s != "" then UpdateLabel else PublishLabel
  }

  /** With the intended label, a valid form is updated exactly when the
      update label is shown and created exactly when there is no id. */
  lemma ActionLabelMatchesSubmit(data: Form, id: Option<QueryValue>)
    requires ParseDataToPayload(data).Success?
    ensures Submit(data, id).Sent? && Submit(data, id).request.Update? <==> ActionLabelFor(id) == UpdateLabel
    ensures Submit(data, id).Sent? && Submit(data, id).request.Create? ==> ActionLabelFor(id) == PublishLabel
  {
  }

  // ---------------------------------------------------------------------------
  // Date picker
  // ---------------------------------------------------------------------------

  /** The `time` value after the date picker reports `e` (milliseconds, or
      `null` when cleared): `e ? new Date(e) : null`. */
  function PickedTime(e: Option<int>): (v: Value)
    ensures v == Null <==> e.None? || e.value == 0
    ensures v != Null ==> v == Date(e.value)
  {
    if e.Some? && e.value != 0 then Date(e.value) else Null
  }

  /** What the picker is given for a stored `time`: nothing for a falsy
      value, the instant of a date, or the date parsed from a string (the
      parse itself is not modelled). */
  datatype PickerValue = NoValue | At(ms: int) | ParsedFrom(text: string)

  function PickerValueOf(time: Value): (p: PickerValue)
    ensures p == NoValue <==> !Truthy(time)
  {
    match time
    case Undefined => NoValue
    case Null => NoValue
    case Str(s) => if s == "" then NoValue else ParsedFrom(s)
    case Bool(b) => if b then At(1) else NoValue
    case Date(ms) => At(ms)
  }

  /** Clearing the picker shows no value; picking a nonzero instant shows it
      again; picking the instant 0 clears the field like the clear button. */
  lemma PickerRoundTrip(e: Option<int>)
    ensures PickerValueOf(PickedTime(None)) == NoValue
    ensures e.Some? && e.value != 0 ==> PickerValueOf(PickedTime(e)) == At(e.value)
    ensures PickedTime(Some(0)) == PickedTime(None)
  {
  }

  /** The reactive form record, updated by the inputs. */
  class LovePhotoForm {
    var data: Form

    constructor()
      ensures data == ResetReactive()
    {
      data := ResetReactive();
    }

    /** A text input writes its key. */
    method OnTextInput(k: string, text: string)
      requires k in TextKeys
      modifies this
      ensures data == old(data)[k := Str(text)]
      ensures old(data).Keys == FormKeys ==> data.Keys == FormKeys
    {
      data := data[k := Str(text)];
    }

    /** The `hasPhotos` switch. */
    method OnHasPhotos(b: bool)
      modifies this
      ensures data == old(data)["hasPhotos" := Bool(b)]
      ensures old(data).Keys == FormKeys ==> data.Keys == FormKeys
    {
      data := data["hasPhotos" := Bool(b)];
    }

    /** The date picker's `onUpdateValue`. */
    method OnDatePicked(e: Option<int>)
      modifies this
      ensures data == old(data)["time" := PickedTime(e)]
      ensures old(data).Keys == FormKeys ==> data.Keys == FormKeys
    {
      data := data["time" := if e.Some? && e.value != 0 then Date(e.value) else Null];
    }
  }
}
