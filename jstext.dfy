/**
 * The few JavaScript string and array built-ins the date adapter relies on,
 * stated on `string` (a `seq<char>`) and `seq<string>`.
 */
module JsText {

  /** `s.split(sep)` for a one-character separator. Like JavaScript, the empty
      string splits into one empty segment and adjacent separators give empty
      segments: there is always one more segment than separators. */
  function Split(s: string, sep: char): (parts: seq<string>)
    ensures |parts| >= 1
    ensures forall i :: 0 <= i < |parts| ==> sep !in parts[i]
    ensures |parts| == CountOf(s, sep) + 1
    decreases |s|
  {
    if s == [] then [[]]
    else
      var rest := Split(s[1..], sep);
      if s[0] == sep then [[]] + rest
      else [[s[0]] + rest[0]] + rest[1..]
  }

  /** Number of occurrences of `c` in `s`. */
  function CountOf(s: string, c: char): nat
    decreases |s|
  {
    if s == [] then 0 else (if s[0] == c then 1 else 0) + CountOf(s[1..], c)
  }

  /** Splitting a separator-free prefix off the front. */
  lemma {:induction false} SplitPrefix(a: string, b: string, sep: char)
    requires sep !in a
    ensures Split(a + b, sep) == [a + Split(b, sep)[0]] + Split(b, sep)[1..]
    decreases |a|
  {
    if a == [] {
      var t := Split(b, sep);
      assert a + b == b && a + t[0] == t[0];
      assert t == [t[0]] + t[1..];
    } else {
      var s := a + b;
      assert s[0] == a[0];
      assert s[1..] == a[1..] + b;
      SplitPrefix(a[1..], b, sep);
      assert [a[0]] + (a[1..] + Split(b, sep)[0]) == a + Split(b, sep)[0];
    }
  }

  /** A string without the separator splits into itself alone. */
  lemma SplitWhole(a: string, sep: char)
    requires sep !in a
    ensures Split(a, sep) == [a]
  {
    SplitPrefix(a, [], sep);
    assert a + [] == a;
  }

  /** `Split` undoes joining a separator-free segment onto the rest. */
  lemma SplitAfterSeparator(a: string, b: string, sep: char)
    requires sep !in a
    ensures Split(a + [sep] + b, sep) == [a] + Split(b, sep)
  {
    SplitPrefix(a, [sep] + b, sep);
    assert a + [sep] + b == a + ([sep] + b);
    var t := [sep] + b;
    assert t[0] == sep && t[1..] == b;
    assert Split(t, sep) == [[]] + Split(b, sep);
    assert a + [] == a;
  }

  /** Splitting three separator-free segments joined by the separator gives
      them back, in order. */
  lemma SplitThree(x: string, y: string, z: string, sep: char)
    requires sep !in x && sep !in y && sep !in z
    ensures Split(x + [sep] + y + [sep] + z, sep) == [x, y, z]
  {
    assert x + [sep] + y + [sep] + z == x + [sep] + (y + [sep] + z);
    SplitAfterSeparator(x, y + [sep] + z, sep);
    SplitAfterSeparator(y, z, sep);
    SplitWhole(z, sep);
  }

  /** `arr.slice().reverse()`: a reversed copy. */
  function Reversed(s: seq<string>): (r: seq<string>)
    ensures |r| == |s|
    ensures forall i :: 0 <= i < |s| ==> r[i] == s[|s| - 1 - i]
  {
    if s == [] then [] else Reversed(s[1..]) + [s[0]]
  }

  /** `pattern` occurs in `s` starting at index `i`. */
  predicate OccursAt(s: string, pattern: string, i: nat)
  {
    i + |pattern| <= |s| && s[i..i + |pattern|] == pattern
  }

  /** `s.replace(pattern, '')` for a string pattern: removes the first
      occurrence (see RemoveFirstAt), so the result is never longer, and
      exactly `|pattern|` shorter when `s` starts with `pattern`. */
  function RemoveFirst(s: string, pattern: string): (r: string)
    ensures |r| <= |s|
    ensures pattern <= s ==> |r| == |s| - |pattern|
    decreases |s|
  {
    if pattern <= s then s[|pattern|..]
    else if s == [] then s
    else [s[0]] + RemoveFirst(s[1..], pattern)
  }

  /** An occurrence in `s[1..]` is an occurrence in `s`, one place later. */
  lemma OccursShift(s: string, pattern: string, i: nat)
    requires s != []
    ensures OccursAt(s, pattern, i + 1) == OccursAt(s[1..], pattern, i)
  {
    if i + 1 + |pattern| <= |s| {
      assert s[i + 1..i + 1 + |pattern|] == s[1..][i..i + |pattern|];
    }
  }

  /** Without an occurrence of `pattern`, `RemoveFirst` leaves `s` unchanged. */
  lemma {:induction false} RemoveFirstAbsent(s: string, pattern: string)
    requires forall i: nat :: i <= |s| ==> !OccursAt(s, pattern, i)
    ensures RemoveFirst(s, pattern) == s
    decreases |s|
  {
    assert !OccursAt(s, pattern, 0);
    assert !(pattern <= s);
    if s != [] {
      forall j: nat | j <= |s[1..]| ensures !OccursAt(s[1..], pattern, j) {
        OccursShift(s, pattern, j);
      }
      RemoveFirstAbsent(s[1..], pattern);
      assert [s[0]] + s[1..] == s;
    }
  }

  /** `RemoveFirst` deletes the FIRST occurrence of `pattern`, wherever it is. */
  lemma {:induction false} RemoveFirstAt(s: string, pattern: string, i: nat)
    requires OccursAt(s, pattern, i)
    requires forall j: nat :: j < i ==> !OccursAt(s, pattern, j)
    ensures RemoveFirst(s, pattern) == s[..i] + s[i + |pattern|..]
    decreases |s|
  {
    if i == 0 {
      assert pattern <= s;
    } else {
      assert !OccursAt(s, pattern, 0);
      assert !(pattern <= s);
      var t := s[1..];
      OccursShift(s, pattern, i - 1);
      forall j: nat | j < i - 1 ensures !OccursAt(t, pattern, j) {
        OccursShift(s, pattern, j);
      }
      RemoveFirstAt(t, pattern, i - 1);
      assert RemoveFirst(s, pattern) == [s[0]] + RemoveFirst(t, pattern);
      assert [s[0]] + t[..i - 1] == s[..i];
      assert t[i - 1 + |pattern|..] == s[i + |pattern|..];
    }
  }
}
