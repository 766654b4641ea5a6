/**
 * The date component: construction from a field key and options, and the
 * four lifecycle hooks that move a date between its composite `YYYY-MM-DD`
 * form and its day, month and year sub-fields.
 */
module DateComponent {
  import opened Wrappers
  import opened JsText
  import opened DateParts

  /** The options the component reads: absent flags are false. */
  datatype Options = Options(dayOptional: bool, monthOptional: bool)

  /** A constructed date component: its key, the keys of its sub-fields and
      the two effective optional-part flags. */
  datatype DateField = DateField(key: string, fields: seq<string>, dayOptional: bool, monthOptional: bool)
  {
    /** What construction guarantees: a non-empty key, the standard three
        sub-fields, and an optional month only together with an optional day. */
    ghost predicate Valid()
    {
      key != "" && fields == FieldNames(key) && (monthOptional ==> dayOptional)
    }
  }

  const MissingKeyMessage: string := "Key must be passed to date component"

  /** Builds the component. A missing or empty key throws; an optional month
      makes the day optional too. */
  function Create(key: Option<string>, options: Options): (r: Result<DateField, string>)
    ensures r.Failure? <==> key == None || key == Some("")
    ensures r.Failure? ==> r.error == MissingKeyMessage
    ensures r.Success? ==> r.value.Valid() && r.value.key == key.value
    ensures r.Success? ==> r.value.monthOptional == options.monthOptional
    ensures r.Success? ==> r.value.dayOptional == (options.dayOptional || options.monthOptional)
  {
    if key == None || key == Some("") then Failure(MissingKeyMessage)
    else Success(DateField(key.value, FieldNames(key.value),
                           options.dayOptional || options.monthOptional, options.monthOptional))
  }

  /** The `type` attribute of an error entry: absent (`undefined`), `null`,
      or a validator's error type. */
  datatype ErrorType = Absent | Null | Named(name: string)

  /** An entry of the form's error map; only its `type` attribute is modelled. */
  datatype FieldError = FieldError(errorType: ErrorType)

  /** The `{ type: null }` marker added for each sub-field. */
  const NullTypeError: FieldError := FieldError(Null)

  /** The session entries the hooks read: the stored value of each field, and
      the optional `errorValues` and `errors` maps. */
  datatype SessionModel = SessionModel(
    saved: map<string, string>,
    errorValues: Option<map<string, string>>,
    errors: Option<map<string, FieldError>>)

  /** `errorValues`, or nothing when the session has none. */
  function ErrorValuesOrEmpty(session: SessionModel): map<string, string>
  {
    if session.errorValues.Some? then session.errorValues.value else map[]
  }

  /** The stored composite value of `key` is truthy: present and non-empty. */
  predicate HasSaved(session: SessionModel, key: string)
  {
    key in session.saved && session.saved[key] != ""
  }

  /** The `{ type: null }` entries for `fields`, built as the source's `reduce`. */
  function Markers(fields: seq<string>): (m: map<string, FieldError>)
    ensures forall k :: k in m <==> k in fields
    ensures forall k :: k in m ==> m[k] == NullTypeError
    decreases |fields|
  {
    if fields == [] then map[]
    else Markers(fields[..|fields| - 1])[fields[|fields| - 1] := NullTypeError]
  }

  /** The request objects the hooks change in place: `req.body`,
      `req.form.values` and `req.form.errors`. */
  class Request {
    var body: map<string, string>
    var values: map<string, string>
    var errors: map<string, FieldError>

    constructor (body: map<string, string>, values: map<string, string>, errors: map<string, FieldError>)
      ensures this.body == body && this.values == values && this.errors == errors
    {
      this.body := body;
      this.values := values;
      this.errors := errors;
    }
  }

  /** pre-getErrors: when `errorValues` holds a non-empty composite value for
      this field, the session is given `errorValues` merged with that value's
      decomposition; otherwise nothing is written. */
  method PreGetErrors(f: DateField, session: SessionModel) returns (written: Option<map<string, string>>)
    requires f.Valid()
    ensures written.Some? <==>
      session.errorValues.Some? && f.key in session.errorValues.value && session.errorValues.value[f.key] != ""
    ensures written.Some? ==>
      var errorValues := session.errorValues.value;
      written.value == errorValues + PartsFromDate(errorValues[f.key], f.fields)
    ensures written.Some? && f.key != Undefined ==>
      f.key in written.value && written.value[f.key] == session.errorValues.value[f.key]
    ensures written.Some? ==> forall k :: k in session.errorValues.value && k !in f.fields && k != Undefined ==>
      k in written.value && written.value[k] == session.errorValues.value[k]
    ensures written.Some? ==> var segments := Split(session.errorValues.value[f.key], '-');
      |segments| == 3 ==> forall i :: 0 <= i < 3 ==>
        f.fields[i] in written.value && written.value[f.fields[i]] == segments[2 - i]
  {
    var errorValues := session.errorValues;
    if errorValues.Some? && f.key in errorValues.value && errorValues.value[f.key] != "" {
      var date := errorValues.value[f.key];
      var parts := PartsFromDate(date, f.fields);
      FieldNamesWellFormed(f.key);
      var merged := errorValues.value + parts;
      forall k | k in errorValues.value && k !in f.fields && k != Undefined
        ensures k in merged && merged[k] == errorValues.value[k]
      {
        assert k !in parts;
      }
      MergedPartsFromDate(errorValues.value, f.key, date);
      written := Some(merged);
    } else {
      written := None;
    }
  }

  /** post-getErrors: when the session records an error for this field, each
      sub-field gets a `{ type: null }` entry; every other entry, the field's
      own included, is kept. */
  method PostGetErrors(f: DateField, session: SessionModel, req: Request)
    requires f.Valid()
    modifies req`errors
    ensures session.errors.Some? && f.key in session.errors.value ==>
      req.errors == old(req.errors) + Markers(f.fields)
    ensures !(session.errors.Some? && f.key in session.errors.value) ==> req.errors == old(req.errors)
    ensures session.errors.Some? && f.key in session.errors.value ==>
      forall i :: 0 <= i < |f.fields| ==> req.errors[f.fields[i]] == NullTypeError
    ensures f.key in old(req.errors) ==> f.key in req.errors && req.errors[f.key] == old(req.errors)[f.key]
    ensures forall k :: k in old(req.errors) && k !in f.fields ==> k in req.errors && req.errors[k] == old(req.errors)[k]
  {
    FieldNamesWellFormed(f.key);
    var errors := session.errors;
    if errors.Some? && f.key in errors.value {
      req.errors := req.errors + Markers(f.fields);
    }
  }

  /** post-getValues: when this field has a stored value, the form values get
      its decomposition and then the whole `errorValues` map, which wins over
      the decomposition on shared keys. */
  method PostGetValues(f: DateField, session: SessionModel, req: Request)
    requires f.Valid()
    modifies req`values
    ensures HasSaved(session, f.key) ==>
      req.values == old(req.values) + PartsFromDate(session.saved[f.key], f.fields) + ErrorValuesOrEmpty(session)
    ensures !HasSaved(session, f.key) ==> req.values == old(req.values)
    ensures HasSaved(session, f.key) ==> forall k :: k in ErrorValuesOrEmpty(session) ==>
      k in req.values && req.values[k] == ErrorValuesOrEmpty(session)[k]
    ensures HasSaved(session, f.key) ==> var segments := Split(session.saved[f.key], '-');
      |segments| == 3 ==> forall i :: 0 <= i < 3 && f.fields[i] !in ErrorValuesOrEmpty(session) ==>
        f.fields[i] in req.values && req.values[f.fields[i]] == segments[2 - i]
    ensures forall k :: k in old(req.values) && k !in f.fields && k != Undefined && k !in ErrorValuesOrEmpty(session) ==>
      k in req.values && req.values[k] == old(req.values)[k]
  {
    if f.key in session.saved && session.saved[f.key] != "" {
      var date := session.saved[f.key];
      var parts := PartsFromDate(date, f.fields);
      var corrections := if session.errorValues.Some? then session.errorValues.value else map[];
      FieldNamesWellFormed(f.key);
      MergedPartsFromDate(req.values, f.key, date);
      var merged := req.values + parts;
      forall k | k in req.values && k !in f.fields && k != Undefined && k !in corrections
        ensures k in merged + corrections && (merged + corrections)[k] == req.values[k]
      {
        assert k !in parts;
      }
      req.values := merged + corrections;
    }
  }

  /** What pre-process does with a request body. */
  datatype Processed =
    | Untouched                 // every submitted part is empty: the body is left as it is
    | Composed(value: string)   // the body gets `value` under the field key
    | MissingPart(part: string) // padding the absent `part` throws

  /** A sub-field value after the optional-part default and `pad`. */
  function Filled(optional: bool, part: string): string
  {
    if optional && part == "" then "01" else Pad(part)
  }

  /** Blank and optional gives "01", one character gets a leading "0", one
      and two characters come out two characters long, and anything else is
      kept as submitted. */
  lemma FilledSpec(optional: bool, part: string)
    ensures optional && part == "" ==> Filled(optional, part) == "01"
    ensures |part| == 1 ==> Filled(optional, part) == "0" + part
    ensures 1 <= |part| <= 2 ==> |Filled(optional, part)| == 2
    ensures |part| != 1 && !(optional && part == "") ==> Filled(optional, part) == part
  {
  }

  /** `${parts.year}`: JavaScript renders an absent year as "undefined". */
  function YearText(parts: map<string, string>): string
  {
    if "year" in parts then parts["year"] else Undefined
  }

  /** Some extracted part is not the empty string. */
  predicate AnyAnswered(parts: map<string, string>)
  {
    exists part :: part in parts && parts[part] != ""
  }

  /** pre-process as a function of the submitted body: it throws only while
      padding the day or the month, and composes or throws only when some
      extracted part is non-empty. */
  function PreProcessOutcome(f: DateField, body: map<string, string>): (o: Processed)
    ensures o.MissingPart? ==> o.part == "day" || o.part == "month"
    ensures !o.Untouched? ==> AnyAnswered(GetParts(body, f.fields, f.key))
    ensures o.Composed? ==> "day" in GetParts(body, f.fields, f.key) && "month" in GetParts(body, f.fields, f.key)
  {
    Recomposed(f, GetParts(body, f.fields, f.key))
  }

  /** What pre-process makes of the extracted parts. */
  function Recomposed(f: DateField, parts: map<string, string>): Processed
  {
    if !AnyAnswered(parts) then Untouched
    else if "day" !in parts then MissingPart("day")
    else if "month" !in parts then MissingPart("month")
    else Composed(YearText(parts) + "-" + Filled(f.monthOptional, parts["month"]) + "-" + Filled(f.dayOptional, parts["day"]))
  }

  /** One step of pre-process: the default of a blank optional part, or else
      `pad`, which throws (None) on an absent part. */
  method FillIn(optional: bool, parts: map<string, string>, name: string) returns (filled: Option<map<string, string>>)
    ensures name !in parts ==> filled == None
    ensures name in parts ==> filled == Some(parts[name := Filled(optional, parts[name])])
  {
    if optional && name in parts && parts[name] == "" {
      filled := Some(parts[name := "01"]);
    } else if name in parts {
      filled := Some(parts[name := Pad(parts[name])]);
    } else {
      filled := None;
    }
  }

  /** pre-process: recomposes the submitted sub-fields into the body's entry
      for the field key, with the optional-part defaults and zero-padding. */
  method PreProcess(f: DateField, req: Request) returns (outcome: Processed)
    modifies req`body
    ensures outcome == PreProcessOutcome(f, old(req.body))
    ensures outcome.Composed? ==> req.body == old(req.body)[f.key := outcome.value]
    ensures !outcome.Composed? ==> req.body == old(req.body)
    ensures forall k :: k in old(req.body) && k != f.key ==> k in req.body && req.body[k] == old(req.body)[k]
  {
    var submitted := GetParts(req.body, f.fields, f.key);
    ghost var expected := Recomposed(f, submitted);
    if !AnyAnswered(submitted) {
      assert expected == Untouched;
      return Untouched;
    }
    var withDay := FillIn(f.dayOptional, submitted, "day");
    if withDay.None? {
      assert expected == MissingPart("day");
      return MissingPart("day");
    }
    var withMonth := FillIn(f.monthOptional, withDay.value, "month");
    if withMonth.None? {
      assert expected == MissingPart("month");
      return MissingPart("month");
    }
    var parts := withMonth.value;
    ghost var month, day := Filled(f.monthOptional, submitted["month"]), Filled(f.dayOptional, submitted["day"]);
    assert parts["month"] == month && parts["day"] == day;
    assert YearText(parts) == YearText(submitted);
    var value := YearText(parts) + "-" + parts["month"] + "-" + parts["day"];
    assert expected == Composed(value);
    req.body := req.body[f.key := value];
    return Composed(value);
  }

  /** A value without "-" keeps none after the default and padding. */
  lemma FilledDashFree(optional: bool, part: string)
    requires '-' !in part
    ensures '-' !in Filled(optional, part)
  {
    if !(optional && part == "") && |part| == 1 {
      assert Pad(part) == ['0', part[0]];
    }
  }

  /** Some sub-field of `f` is submitted with a non-empty value. */
  predicate Answered(f: DateField, body: map<string, string>)
    requires f.Valid()
  {
    exists i :: 0 <= i < 3 && f.fields[i] in body && body[f.fields[i]] != ""
  }

  /** The submitted year as pre-process renders it. */
  function SubmittedYear(f: DateField, body: map<string, string>): string
    requires f.Valid()
  {
    if f.fields[2] in body then body[f.fields[2]] else Undefined
  }

  /** The body's answers, read through getParts, decide whether pre-process
      does anything. */
  lemma AnsweredParts(f: DateField, body: map<string, string>)
    requires f.Valid()
    ensures var parts := GetParts(body, f.fields, f.key);
      && ("day" in parts <==> f.fields[0] in body)
      && ("month" in parts <==> f.fields[1] in body)
      && ("day" in parts ==> parts["day"] == body[f.fields[0]])
      && ("month" in parts ==> parts["month"] == body[f.fields[1]])
      && YearText(parts) == SubmittedYear(f, body)
      && (AnyAnswered(parts) <==> Answered(f, body))
  {
    GetPartsOfFields(body, f.key);
    AnsweredIff(f, body);
  }

  /** Some extracted part is non-empty exactly when some sub-field is
      submitted non-empty. */
  lemma AnsweredIff(f: DateField, body: map<string, string>)
    requires f.Valid()
    ensures AnyAnswered(GetParts(body, f.fields, f.key)) <==> Answered(f, body)
  {
    GetPartsOfFields(body, f.key);
    var parts := GetParts(body, f.fields, f.key);
    var names := ["day", "month", "year"];
    if AnyAnswered(parts) {
      var part :| part in parts && parts[part] != "";
      var i :| 0 <= i < 3 && names[i] == part;
      assert f.fields[i] in body && body[f.fields[i]] != "";
    }
    if Answered(f, body) {
      var i :| 0 <= i < 3 && f.fields[i] in body && body[f.fields[i]] != "";
      assert names[i] in parts && parts[names[i]] != "";
    }
  }

  /** pre-process leaves the body alone exactly when no sub-field is submitted
      with a non-empty value. */
  lemma PreProcessUntouchedIff(f: DateField, body: map<string, string>)
    requires f.Valid()
    ensures PreProcessOutcome(f, body) == Untouched <==> !Answered(f, body)
  {
    AnsweredParts(f, body);
  }

  /** pre-process throws exactly when something is answered but the day or
      the month sub-field is absent; the day is padded, and so fails, first. */
  lemma PreProcessThrowsIff(f: DateField, body: map<string, string>)
    requires f.Valid()
    ensures PreProcessOutcome(f, body).MissingPart? <==>
      Answered(f, body) && (f.fields[0] !in body || f.fields[1] !in body)
    ensures PreProcessOutcome(f, body).MissingPart? ==>
      PreProcessOutcome(f, body).part == (if f.fields[0] !in body then "day" else "month")
  {
    AnsweredParts(f, body);
  }

  /** Otherwise pre-process composes year, month and day, defaulting an empty
      optional day or month to "01" and zero-padding the others; the year is
      taken as submitted. */
  lemma PreProcessComposes(f: DateField, body: map<string, string>)
    requires f.Valid()
    requires Answered(f, body) && f.fields[0] in body && f.fields[1] in body
    ensures PreProcessOutcome(f, body) == Composed(
      SubmittedYear(f, body) + "-" + Filled(f.monthOptional, body[f.fields[1]]) + "-" + Filled(f.dayOptional, body[f.fields[0]]))
  {
    AnsweredParts(f, body);
  }

  /** A part survives the default and padding unchanged exactly when it is
      not one character long and not a blank optional part. */
  lemma FilledUnchangedIff(optional: bool, part: string)
    ensures Filled(optional, part) == part <==> |part| != 1 && !(optional && part == "")
  {
    FilledSpec(optional, part);
    if |part| == 1 {
      assert |Filled(optional, part)| == 2;
    }
  }

  /** Dash-free parts joined by "-" determine the parts. */
  lemma JoinedInjective(y: string, m: string, d: string, m': string, d': string)
    requires '-' !in y && '-' !in m && '-' !in d && '-' !in m' && '-' !in d'
    ensures y + "-" + m' + "-" + d' == y + "-" + m + "-" + d <==> m' == m && d' == d
  {
    if y + "-" + m' + "-" + d' == y + "-" + m + "-" + d {
      SplitThree(y, m', d', '-');
      SplitThree(y, m, d, '-');
    }
  }

  /** A body over which the decomposition of a dash-free `Y-M-D` value is
      merged holds D, M and Y under the sub-fields, and is answered exactly
      when one of them is non-empty. */
  lemma SubmittedDate(f: DateField, body: map<string, string>, y: string, m: string, d: string)
    requires f.Valid()
    requires '-' !in y && '-' !in m && '-' !in d
    ensures var submitted := body + PartsFromDate(y + "-" + m + "-" + d, f.fields);
      && f.fields[0] in submitted && submitted[f.fields[0]] == d
      && f.fields[1] in submitted && submitted[f.fields[1]] == m
      && f.fields[2] in submitted && submitted[f.fields[2]] == y
      && (Answered(f, submitted) <==> y != "" || m != "" || d != "")
  {
    PartsFromDateOfDate(f.key, y, m, d);
    var submitted := body + PartsFromDate(y + "-" + m + "-" + d, f.fields);
    if y != "" || m != "" || d != "" {
      var i := if d != "" then 0 else if m != "" then 1 else 2;
      assert f.fields[i] in submitted && submitted[f.fields[i]] != "";
    }
  }

  /** Round trip: the decomposition of a dash-free `Y-M-D` value, submitted
      back over any body, is recomposed into the same value exactly when some
      part is non-empty and neither the month nor the day is changed by the
      default or the padding. */
  lemma PreProcessRoundTrip(f: DateField, body: map<string, string>, y: string, m: string, d: string)
    requires f.Valid()
    requires '-' !in y && '-' !in m && '-' !in d
    ensures PreProcessOutcome(f, body + PartsFromDate(y + "-" + m + "-" + d, f.fields)) == Composed(y + "-" + m + "-" + d)
      <==> ((y != "" || m != "" || d != "")
        && |m| != 1 && !(f.monthOptional && m == "")
        && |d| != 1 && !(f.dayOptional && d == ""))
  {
    var submitted := body + PartsFromDate(y + "-" + m + "-" + d, f.fields);
    SubmittedDate(f, body, y, m, d);
    PreProcessUntouchedIff(f, submitted);
    FilledUnchangedIff(f.monthOptional, m);
    FilledUnchangedIff(f.dayOptional, d);
    if Answered(f, submitted) {
      PreProcessComposes(f, submitted);
      FilledDashFree(f.monthOptional, m);
      FilledDashFree(f.dayOptional, d);
      JoinedInjective(y, m, d, Filled(f.monthOptional, m), Filled(f.dayOptional, d));
    }
  }

  /** The value pre-process stores decomposes again into the defaulted and
      padded day and month and the submitted year, as the form shows them when
      the page is displayed again. */
  lemma PreProcessRedisplay(f: DateField, body: map<string, string>)
    requires f.Valid()
    requires Answered(f, body) && f.fields[0] in body && f.fields[1] in body
    requires '-' !in body[f.fields[0]] && '-' !in body[f.fields[1]] && '-' !in SubmittedYear(f, body)
    ensures PreProcessOutcome(f, body).Composed?
    ensures PartsFromDate(PreProcessOutcome(f, body).value, f.fields) == map[
      f.fields[0] := Filled(f.dayOptional, body[f.fields[0]]),
      f.fields[1] := Filled(f.monthOptional, body[f.fields[1]]),
      f.fields[2] := SubmittedYear(f, body)]
  {
    PreProcessComposes(f, body);
    FilledDashFree(f.dayOptional, body[f.fields[0]]);
    FilledDashFree(f.monthOptional, body[f.fields[1]]);
    PartsFromDateOfDate(f.key, SubmittedYear(f, body),
      Filled(f.monthOptional, body[f.fields[1]]), Filled(f.dayOptional, body[f.fields[0]]));
  }
}
