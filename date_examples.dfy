/**
 * The scenarios of the component's own test suite, stated as lemmas about the
 * model and as a client of the hooks.
 */
module DateExamples {
  import opened Wrappers
  import opened JsText
  import opened DateParts
  import opened DateComponent

  /** The component for "date-field" with the given optional-part flags. */
  function ExampleField(dayOptional: bool, monthOptional: bool): (f: DateField)
    ensures f.Valid() && f.key == "date-field"
    ensures f.dayOptional == (dayOptional || monthOptional) && f.monthOptional == monthOptional
  {
    Create(Some("date-field"), Options(dayOptional, monthOptional)).value
  }

  /** A body holding all three sub-fields of "date-field". */
  function ExampleBody(day: string, month: string, year: string): map<string, string>
  {
    var fields := FieldNames("date-field");
    map[fields[0] := day, fields[1] := month, fields[2] := year]
  }

  /** The sub-field keys of "date-field" are the ones the tests use. */
  lemma ExampleFieldNames()
    ensures FieldNames("date-field") == ["date-field-day", "date-field-month", "date-field-year"]
  {
    var day, month, year := SubField("date-field", "day"), SubField("date-field", "month"), SubField("date-field", "year");
    assert |day| == |"date-field-day"| && forall i :: 0 <= i < |day| ==> day[i] == "date-field-day"[i];
    assert |month| == |"date-field-month"| && forall i :: 0 <= i < |month| ==> month[i] == "date-field-month"[i];
    assert |year| == |"date-field-year"| && forall i :: 0 <= i < |year| ==> year[i] == "date-field-year"[i];
    assert day == "date-field-day" && month == "date-field-month" && year == "date-field-year";
  }

  /** The composite values the examples expect, spelled out. */
  lemma ExampleDates()
    ensures "2017" + "-" + "01" + "-" + "01" == "2017-01-01"
    ensures "2017" + "-" + "09" + "-" + "09" == "2017-09-09"
    ensures "2017" + "-" + "09" + "-" + "01" == "2017-09-01"
    ensures "2017" + "-" + "02" + "-" + "01" == "2017-02-01"
  {
    var a, b, c := "2017" + "-" + "01" + "-" + "01", "2017" + "-" + "09" + "-" + "09", "2017" + "-" + "09" + "-" + "01";
    assert |a| == 10 && forall i :: 0 <= i < 10 ==> a[i] == "2017-01-01"[i];
    assert |b| == 10 && forall i :: 0 <= i < 10 ==> b[i] == "2017-09-09"[i];
    assert |c| == 10 && forall i :: 0 <= i < 10 ==> c[i] == "2017-09-01"[i];
    var d := "2017" + "-" + "02" + "-" + "01";
    assert |d| == 10 && forall i :: 0 <= i < 10 ==> d[i] == "2017-02-01"[i];
  }

  /** pre-process on a body holding all three sub-fields of `f`, one of them
      non-empty. */
  lemma ComposesFromBody(f: DateField, day: string, month: string, year: string)
    requires f.Valid() && f.key == "date-field"
    requires day != "" || month != "" || year != ""
    ensures PreProcessOutcome(f, ExampleBody(day, month, year))
      == Composed(year + "-" + Filled(f.monthOptional, month) + "-" + Filled(f.dayOptional, day))
  {
    var body := ExampleBody(day, month, year);
    FieldNamesWellFormed(f.key);
    assert body[f.fields[0]] == day && body[f.fields[1]] == month && body[f.fields[2]] == year;
    assert Answered(f, body) by {
      if day != "" { assert f.fields[0] in body && body[f.fields[0]] != ""; }
      else if month != "" { assert f.fields[1] in body && body[f.fields[1]] != ""; }
      else { assert f.fields[2] in body && body[f.fields[2]] != ""; }
    }
    PreProcessComposes(f, body);
  }

  /** Submitting "01", "01", "2017" stores "2017-01-01". */
  lemma PreProcessPlainExample()
    ensures PreProcessOutcome(ExampleField(false, false), ExampleBody("01", "01", "2017")) == Composed("2017-01-01")
  {
    var f := ExampleField(false, false);
    assert !f.dayOptional && !f.monthOptional;
    var one := Filled(false, "01");
    assert one == "01";
    ComposesFromBody(f, "01", "01", "2017");
    assert PreProcessOutcome(f, ExampleBody("01", "01", "2017")) == Composed("2017" + "-" + one + "-" + one);
    ExampleDates();
  }

  /** Submitting "9", "9", "2017" pads day and month: "2017-09-09". */
  lemma PreProcessPaddedExample()
    ensures PreProcessOutcome(ExampleField(false, false), ExampleBody("9", "9", "2017")) == Composed("2017-09-09")
  {
    var f := ExampleField(false, false);
    assert !f.dayOptional && !f.monthOptional;
    var nine := Filled(false, "9");
    assert nine == "09" by {
      assert Pad("9") == "0" + "9";
      assert "0" + "9" == "09";
    }
    ComposesFromBody(f, "9", "9", "2017");
    assert PreProcessOutcome(f, ExampleBody("9", "9", "2017")) == Composed("2017" + "-" + nine + "-" + nine);
    ExampleDates();
  }

  /** An all-blank submission leaves the body alone. */
  lemma PreProcessBlankExample()
    ensures PreProcessOutcome(ExampleField(false, false), ExampleBody("", "", "")) == Untouched
  {
    var f, body := ExampleField(false, false), ExampleBody("", "", "");
    FieldNamesWellFormed(f.key);
    PreProcessUntouchedIff(f, body);
  }

  /** With an optional day, a blank day becomes "01": "2017-09-01". */
  lemma PreProcessOptionalDayExample()
    ensures PreProcessOutcome(ExampleField(true, false), ExampleBody("", "9", "2017")) == Composed("2017-09-01")
  {
    var f := ExampleField(true, false);
    assert f.dayOptional && !f.monthOptional;
    var nine, one := Filled(false, "9"), Filled(true, "");
    assert nine == "09" by {
      assert Pad("9") == "0" + "9";
      assert "0" + "9" == "09";
    }
    assert one == "01";
    ComposesFromBody(f, "", "9", "2017");
    assert PreProcessOutcome(f, ExampleBody("", "9", "2017")) == Composed("2017" + "-" + nine + "-" + one);
    ExampleDates();
  }

  /** With an optional month, blank day and month both become "01":
      "2017-01-01". */
  lemma PreProcessOptionalMonthExample()
    ensures PreProcessOutcome(ExampleField(false, true), ExampleBody("", "", "2017")) == Composed("2017-01-01")
  {
    var f := ExampleField(false, true);
    assert f.dayOptional && f.monthOptional;
    var one := Filled(true, "");
    assert one == "01";
    ComposesFromBody(f, "", "", "2017");
    assert PreProcessOutcome(f, ExampleBody("", "", "2017")) == Composed("2017" + "-" + one + "-" + one);
    ExampleDates();
  }

  /** Merging a three-entry map over a one-entry map. */
  lemma MergeOverOne<V>(k: string, v: V, a: string, b: string, c: string, va: V, vb: V, vc: V)
    ensures map[k := v] + map[a := va, b := vb, c := vc] == map[k := v, a := va, b := vb, c := vc]
  {
  }

  /** pre-getErrors with `errorValues` holding only a `Y-M-D` value for the
      field: the session is given exactly the value and its three parts. */
  method PreGetErrorsOfDate(f: DateField, y: string, m: string, d: string)
    returns (written: Option<map<string, string>>)
    requires f.Valid() && '-' !in y && '-' !in m && '-' !in d
    ensures written == Some(map[f.key := y + "-" + m + "-" + d, f.fields[0] := d, f.fields[1] := m, f.fields[2] := y])
  {
    var date := y + "-" + m + "-" + d;
    PartsFromDateOfDate(f.key, y, m, d);
    var parts := map[f.fields[0] := d, f.fields[1] := m, f.fields[2] := y];
    assert PartsFromDate(date, f.fields) == parts;
    written := PreGetErrors(f, SessionModel(map[], Some(map[f.key := date]), None));
    assert written.value == map[f.key := date] + parts;
    MergeOverOne(f.key, date, f.fields[0], f.fields[1], f.fields[2], d, m, y);
  }

  /** post-getValues with only a stored `Y-M-D` value for the field: the form
      values get the value, its three parts, and then `errorValues`. */
  method PostGetValuesOfDate(f: DateField, y: string, m: string, d: string, errorValues: Option<map<string, string>>)
    returns (values: map<string, string>)
    requires f.Valid() && '-' !in y && '-' !in m && '-' !in d
    ensures values == map[f.key := y + "-" + m + "-" + d, f.fields[0] := d, f.fields[1] := m, f.fields[2] := y]
      + (if errorValues.Some? then errorValues.value else map[])
  {
    var date := y + "-" + m + "-" + d;
    PartsFromDateOfDate(f.key, y, m, d);
    var parts := map[f.fields[0] := d, f.fields[1] := m, f.fields[2] := y];
    assert PartsFromDate(date, f.fields) == parts;
    var req := new Request(map[], map[f.key := date], map[]);
    PostGetValues(f, SessionModel(map[f.key := date], errorValues, None), req);
    values := req.values;
    assert values == map[f.key := date] + parts + (if errorValues.Some? then errorValues.value else map[]);
    MergeOverOne(f.key, date, f.fields[0], f.fields[1], f.fields[2], d, m, y);
  }

  /** A four-entry map keyed by "date-field" and its sub-fields, with the
      sub-field keys spelled out. */
  lemma ExampleMap<V>(own: V, day: V, month: V, year: V)
    ensures var fields := FieldNames("date-field");
      map["date-field" := own, fields[0] := day, fields[1] := month, fields[2] := year]
      == map["date-field" := own, "date-field-day" := day, "date-field-month" := month, "date-field-year" := year]
  {
    ExampleFieldNames();
  }

  /** pre-getErrors: the stored invalid value is merged back decomposed, and
      the session is given exactly the four entries. */
  method PreGetErrorsExample() returns (written: Option<map<string, string>>)
    ensures written == Some(map["date-field" := "2017-01-01",
      "date-field-day" := "01", "date-field-month" := "01", "date-field-year" := "2017"])
  {
    written := PreGetErrorsOfDate(ExampleField(false, false), "2017", "01", "01");
    ExampleDates();
    ExampleMap("2017-01-01", "01", "01", "2017");
  }

  /** post-getErrors: three `{ type: null }` entries, and the field's own
      entry `{}` (no type at all) kept as it was. */
  method PostGetErrorsExample() returns (errors: map<string, FieldError>)
    ensures errors == map["date-field" := FieldError(Absent),
      "date-field-day" := NullTypeError, "date-field-month" := NullTypeError, "date-field-year" := NullTypeError]
  {
    var f := ExampleField(false, false);
    var own := FieldError(Absent);
    var req := new Request(map[], map[], map[f.key := own]);
    PostGetErrors(f, SessionModel(map[], None, Some(map[f.key := own])), req);
    errors := req.errors;
    var fields := f.fields;
    assert errors == map[f.key := own, fields[0] := NullTypeError, fields[1] := NullTypeError, fields[2] := NullTypeError];
    ExampleMap(own, NullTypeError, NullTypeError, NullTypeError);
  }

  /** post-getValues: the stored value decomposed into the form values. */
  method PostGetValuesExample() returns (values: map<string, string>)
    ensures values == map["date-field" := "2017-02-01",
      "date-field-day" := "01", "date-field-month" := "02", "date-field-year" := "2017"]
  {
    values := PostGetValuesOfDate(ExampleField(false, false), "2017", "02", "01", None);
    ExampleDates();
    ExampleMap("2017-02-01", "01", "02", "2017");
  }

  /** post-getValues: errorValues win over the stored value. */
  method PostGetValuesCorrectionsExample() returns (values: map<string, string>)
    ensures values == map["date-field" := "2017-02-01",
      "date-field-day" := "01", "date-field-month" := "11", "date-field-year" := "2015"]
  {
    var f := ExampleField(false, false);
    var fields := f.fields;
    var corrections := map[fields[0] := "01", fields[1] := "11", fields[2] := "2015"];
    values := PostGetValuesOfDate(f, "2017", "02", "01", Some(corrections));
    FieldNamesWellFormed(f.key);
    assert values == map[f.key := "2017" + "-" + "02" + "-" + "01", fields[0] := "01", fields[1] := "11", fields[2] := "2015"];
    ExampleDates();
    ExampleMap("2017-02-01", "01", "11", "2015");
  }
}
