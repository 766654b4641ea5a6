/**
 * The pure helpers of the date adapter: zero-padding a part, naming the three
 * sub-fields of a field key, decomposing a `YYYY-MM-DD` value into sub-field
 * entries, and picking the submitted sub-field values out of a request body.
 */
module DateParts {
  import opened JsText

  /** Left-pads a one-character part with "0". The empty part and parts of two
      or more characters are returned unchanged. */
  function Pad(s: string): (r: string)
    ensures |r| == (if |s| == 1 then 2 else |s|)
    ensures r[|r| - |s|..] == s
    ensures forall i :: 0 <= i < |r| - |s| ==> r[i] == '0'
  {
    if s != "" && |s| < 2 then "0" + s else s
  }

  /** The sub-field `<key>-<part>`. */
  function SubField(key: string, part: string): string
  {
    key + "-" + part
  }

  /** The sub-field keys of a date field, day first, as the field registry
      lists them. */
  function FieldNames(key: string): (r: seq<string>)
    ensures |r| == 3
    ensures forall i :: 0 <= i < |r| ==> key + "-" <= r[i]
  {
    [SubField(key, "day"), SubField(key, "month"), SubField(key, "year")]
  }

  /** The property name JavaScript gives to the computed key `undefined`. */
  const Undefined: string := "undefined"

  /** `fields[i]` used as a property key: past the end it is `undefined`. */
  function FieldAt(fields: seq<string>, i: nat): string
  {
    if i < |fields| then fields[i] else Undefined
  }

  /** No key occurs twice in `fields`. */
  predicate Distinct(fields: seq<string>)
  {
    forall i, j :: 0 <= i < j < |fields| ==> fields[i] != fields[j]
  }

  /** The three sub-field keys are distinct, differ from the field key, and
      none of them is the property name `undefined`. */
  lemma FieldNamesWellFormed(key: string)
    ensures Distinct(FieldNames(key))
    ensures key !in FieldNames(key)
    ensures Undefined !in FieldNames(key)
  {
    var names := FieldNames(key);
    assert |names[0]| == |key| + 4 && |names[1]| == |key| + 6 && |names[2]| == |key| + 5;
    if |key| == 5 { assert names[0][5] == '-' != Undefined[5]; }
    if |key| == 3 { assert names[1][3] == '-' != Undefined[3]; }
    if |key| == 4 { assert names[2][4] == '-' != Undefined[4]; }
  }

  /** The `reduce` in getPartsFromDate: the i-th value is assigned to the
      property `fields[i]`, later assignments overriding earlier ones. */
  function AssignInOrder(values: seq<string>, fields: seq<string>): (r: map<string, string>)
    ensures forall k :: k in r ==> k in fields || k == Undefined
    ensures forall i :: 0 <= i < |values| ==> FieldAt(fields, i) in r
    decreases |values|
  {
    if values == [] then map[]
    else AssignInOrder(values[..|values| - 1], fields)[FieldAt(fields, |values| - 1) := values[|values| - 1]]
  }

  /** With distinct field names, the i-th value is what remains under the i-th
      field: no later assignment overrides it. */
  lemma {:induction false} AssignInOrderAt(values: seq<string>, fields: seq<string>, i: nat)
    requires Distinct(fields) && Undefined !in fields
    requires i < |values| && i < |fields|
    ensures fields[i] in AssignInOrder(values, fields)
    ensures AssignInOrder(values, fields)[fields[i]] == values[i]
    decreases |values|
  {
    var n := |values| - 1;
    if i < n {
      AssignInOrderAt(values[..n], fields, i);
      assert values[..n][i] == values[i];
      assert FieldAt(fields, n) != fields[i];
    }
  }

  /** With distinct field names, the i-th value lands under the i-th field, and
      every value past the last field lands under `undefined`, the last one
      winning. Nothing else is written. */
  lemma {:induction false} AssignInOrderSpec(values: seq<string>, fields: seq<string>)
    requires Distinct(fields) && Undefined !in fields
    ensures forall i :: 0 <= i < |values| && i < |fields| ==>
      fields[i] in AssignInOrder(values, fields) && AssignInOrder(values, fields)[fields[i]] == values[i]
    ensures |values| > |fields| ==>
      Undefined in AssignInOrder(values, fields) && AssignInOrder(values, fields)[Undefined] == values[|values| - 1]
    ensures forall k :: k in AssignInOrder(values, fields) ==>
      (k == Undefined && |values| > |fields|) || exists i :: 0 <= i < |values| && i < |fields| && fields[i] == k
    decreases |values|
  {
    if values != [] {
      var n := |values| - 1;
      var prefix := values[..n];
      AssignInOrderSpec(prefix, fields);
      var before := AssignInOrder(prefix, fields);
      var obj := AssignInOrder(values, fields);
      assert obj == before[FieldAt(fields, n) := values[n]];
      forall i | 0 <= i < |values| && i < |fields|
        ensures fields[i] in obj && obj[fields[i]] == values[i]
      {
        if i < n {
          assert prefix[i] == values[i];
          assert FieldAt(fields, n) != fields[i];
        }
      }
      forall k | k in obj
        ensures (k == Undefined && |values| > |fields|) || exists i :: 0 <= i < |values| && i < |fields| && fields[i] == k
      {
        if k != FieldAt(fields, n) {
          assert k in before;
        } else if n < |fields| {
          assert fields[n] == k;
        }
      }
    }
  }

  /** getPartsFromDate: splits `date` on "-", reverses the segments, and
      assigns them to `fields` in order. */
  function PartsFromDate(date: string, fields: seq<string>): (r: map<string, string>)
    ensures forall k :: k in r ==> k in fields || k == Undefined
    ensures |fields| > 0 ==> fields[0] in r
  {
    var values := Reversed(Split(date, '-'));
    assert FieldAt(fields, 0) in AssignInOrder(values, fields);
    AssignInOrder(values, fields)
  }

  /** Assigning reversed segments: the i-th field receives the i-th segment
      counted from the end. */
  lemma {:induction false} AssignReversedAt(segments: seq<string>, fields: seq<string>, i: nat)
    requires Distinct(fields) && Undefined !in fields
    requires i < |fields| && i < |segments|
    ensures fields[i] in AssignInOrder(Reversed(segments), fields)
    ensures AssignInOrder(Reversed(segments), fields)[fields[i]] == segments[|segments| - 1 - i]
  {
    AssignInOrderAt(Reversed(segments), fields, i);
  }

  /** Decomposing any value under the standard sub-fields: the day, month and
      year take the last, second-to-last and third-to-last segments (as far as
      there are segments), and any other key written is `undefined`. */
  lemma {:induction false} PartsFromDateSpec(key: string, date: string)
    ensures var parts, segments := PartsFromDate(date, FieldNames(key)), Split(date, '-');
      forall i :: 0 <= i < 3 && i < |segments| ==>
        FieldNames(key)[i] in parts && parts[FieldNames(key)[i]] == segments[|segments| - 1 - i]
    ensures forall k :: k in PartsFromDate(date, FieldNames(key)) ==> k in FieldNames(key) || k == Undefined
  {
    var segments := Split(date, '-');
    FieldNamesWellFormed(key);
    forall i | 0 <= i < 3 && i < |segments| {
      AssignReversedAt(segments, FieldNames(key), i);
    }
  }

  /** Merging the decomposition of a three-segment value over any map puts the
      segments, last first, under the three sub-fields. */
  lemma {:induction false} MergedPartsFromDate(m: map<string, string>, key: string, date: string)
    ensures var merged, segments := m + PartsFromDate(date, FieldNames(key)), Split(date, '-');
      |segments| == 3 ==> forall i :: 0 <= i < 3 ==>
        FieldNames(key)[i] in merged && merged[FieldNames(key)[i]] == segments[2 - i]
  {
    var segments := Split(date, '-');
    if |segments| == 3 {
      FieldNamesWellFormed(key);
      forall i | 0 <= i < 3 {
        AssignReversedAt(segments, FieldNames(key), i);
      }
    }
  }

  /** A `Y-M-D` value decomposes into day `D`, month `M` and year `Y` and
      nothing else. */
  lemma PartsFromDateOfDate(key: string, y: string, m: string, d: string)
    requires '-' !in y && '-' !in m && '-' !in d
    ensures PartsFromDate(y + "-" + m + "-" + d, FieldNames(key))
      == map[SubField(key, "day") := d, SubField(key, "month") := m, SubField(key, "year") := y]
  {
    SplitThree(y, m, d, '-');
    var fields := FieldNames(key);
    var values := Reversed([y, m, d]);
    assert values == [d, m, y];
    assert values[..2] == [d, m] && values[..2][..1] == [d] && values[..2][..1][..0] == [];
    assert AssignInOrder([d], fields) == map[fields[0] := d];
    assert AssignInOrder([d, m], fields) == map[fields[0] := d, fields[1] := m];
    assert AssignInOrder(values, fields) == map[fields[0] := d, fields[1] := m, fields[2] := y];
  }

  /** getParts: picks the sub-field entries out of `body`, in the order of
      `fields`, and renames each to what follows the first `<key>-` in it. */
  function GetParts(body: map<string, string>, fields: seq<string>, key: string): (r: map<string, string>)
    ensures forall i :: 0 <= i < |fields| && fields[i] in body ==> RemoveFirst(fields[i], key + "-") in r
    decreases |fields|
  {
    if fields == [] then map[]
    else
      var field := fields[|fields| - 1];
      var parts := GetParts(body, fields[..|fields| - 1], key);
      if field in body then parts[RemoveFirst(field, key + "-") := body[field]] else parts
  }

  /** Stripping `<key>-` from a sub-field key leaves its part name. */
  lemma StripSubField(key: string, part: string)
    ensures RemoveFirst(SubField(key, part), key + "-") == part
  {
    var s := SubField(key, part);
    assert s == (key + "-") + part;
    assert key + "-" <= s;
  }

  /** The parts of a body are exactly its present sub-fields, under their bare
      part names "day", "month" and "year". */
  lemma {:induction false} GetPartsOfFields(body: map<string, string>, key: string)
    ensures GetParts(body, FieldNames(key), key).Keys
      == set part | part in ["day", "month", "year"] && SubField(key, part) in body
    ensures forall part :: part in GetParts(body, FieldNames(key), key) ==>
      GetParts(body, FieldNames(key), key)[part] == body[SubField(key, part)]
  {
    var fields := FieldNames(key);
    var day, month, year := SubField(key, "day"), SubField(key, "month"), SubField(key, "year");
    StripSubField(key, "day");
    StripSubField(key, "month");
    StripSubField(key, "year");
    assert fields[..2][..1][..0] == [];
    assert fields[..2][..1] == [day];
    assert fields[..2] == [day, month];
    assert [day][..0] == [];
    assert GetParts(body, [], key) == map[];
    var p1 := GetParts(body, [day], key);
    assert p1 == if day in body then map["day" := body[day]] else map[];
    var p2 := GetParts(body, [day, month], key);
    assert p2 == if month in body then p1["month" := body[month]] else p1;
    var p3 := GetParts(body, fields, key);
    assert p3 == if year in body then p2["year" := body[year]] else p2;
  }
}
