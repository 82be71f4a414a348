/** The string operations of JavaScript that the client code relies on:
    `trim` (for "is this input blank?") and `split` with a string separator
    (for reading a cookie header). */
module Text {
  import opened Js

  /** The characters `String.prototype.trim` removes: the ECMAScript
      WhiteSpace and LineTerminator code points. */
  predicate IsWhitespace(c: char) {
    || c == '\U{9}' || c == '\U{A}' || c == '\U{B}' || c == '\U{C}'
    || c == '\U{D}' || c == '\U{20}' || c == '\U{A0}' || c == '\U{1680}'
    || ('\U{2000}' <= c <= '\U{200A}')
    || c == '\U{2028}' || c == '\U{2029}' || c == '\U{202F}' || c == '\U{205F}'
    || c == '\U{3000}' || c == '\U{FEFF}'
  }

  predicate Blank(s: string) {
    forall k :: 0 <= k < |s| ==> IsWhitespace(s[k])
  }

  /** `s.trimStart()`: the suffix left after the leading whitespace. */
  function TrimStart(s: string): (r: string)
    ensures |r| <= |s| && r == s[|s| - |r|..]
    ensures r == [] || !IsWhitespace(r[0])
    ensures Blank(s[..|s| - |r|])
  {
    if s != [] && IsWhitespace(s[0]) then TrimStart(s[1..]) else s
  }

  /** `s.trimEnd()`: the prefix left before the trailing whitespace. */
  function TrimEnd(s: string): (r: string)
    ensures |r| <= |s| && r == s[..|r|]
    ensures r == [] || !IsWhitespace(r[|r| - 1])
    ensures Blank(s[|r|..])
  {
    if s != [] && IsWhitespace(s[|s| - 1]) then TrimEnd(s[..|s| - 1]) else s
  }

  /** `s.trim()`: empty exactly when `s` is blank, and otherwise a slice of
      `s` that neither starts nor ends with whitespace. */
  function Trim(s: string): (r: string)
    ensures r == [] <==> Blank(s)
    ensures r != [] ==> !IsWhitespace(r[0]) && !IsWhitespace(r[|r| - 1])
    ensures |r| <= |s|
    ensures exists i :: SliceBetweenBlanks(s, r, i)
  {
    var a := TrimStart(s);
    var b := TrimEnd(a);
    TrimIsSlice(s);
    if b == [] then
      assert s == s[..|s| - |a|] + a;
      assert a == a[..0] + a[0..];
      b
    else
      b
  }

  /** `r` is the slice of `s` starting at `i`, with only whitespace
      before and after it. */
  predicate SliceBetweenBlanks(s: string, r: string, i: int) {
    0 <= i <= |s| - |r| && r == s[i..i + |r|] && Blank(s[..i]) && Blank(s[i + |r|..])
  }

  /** What the two trims leave is a slice of `s` with only whitespace
      around it. */
  lemma TrimIsSlice(s: string)
    ensures exists i :: SliceBetweenBlanks(s, TrimEnd(TrimStart(s)), i)
  {
    var a := TrimStart(s);
    var b := TrimEnd(a);
    var i := |s| - |a|;
    assert a == s[i..];
    assert b == s[i..i + |b|];
    assert s[i + |b|..] == a[|b|..];
    assert SliceBetweenBlanks(s, b, i);
  }

  /** Trimming twice is trimming once. */
  lemma TrimIdempotent(s: string)
    ensures Trim(Trim(s)) == Trim(s)
  {
    var t := Trim(s);
    if t != [] {
      assert TrimStart(t) == t;
      assert TrimEnd(t) == t;
    }
  }

  /** `sep` occurs in `s` at position `i`. */
  predicate OccursAt(s: string, sep: string, i: int) {
    0 <= i && i + |sep| <= |s| && s[i..i + |sep|] == sep
  }

  /** `s.indexOf(sep)`: the first position where `sep` occurs, if any. */
  function IndexOf(s: string, sep: string): (r: Option<nat>)
    ensures r.Some? ==> OccursAt(s, sep, r.value)
    ensures r.Some? ==> forall i :: 0 <= i < r.value ==> !OccursAt(s, sep, i)
    ensures r.None? ==> forall i :: !OccursAt(s, sep, i)
    decreases |s|
  {
    if |s| < |sep| then None
    else if s[..|sep|] == sep then Some(0)
    else
      assert !OccursAt(s, sep, 0);
      ShiftOccurrence(s, sep);
      match IndexOf(s[1..], sep)
      case None => None
      case Some(i) => Some(i + 1)
  }

  /** Occurrences in `s[1..]` are the occurrences in `s` one place later. */
  lemma ShiftOccurrence(s: string, sep: string)
    requires s != []
    ensures forall i :: 0 <= i ==> (OccursAt(s[1..], sep, i) <==> OccursAt(s, sep, i + 1))
    ensures forall i :: 1 <= i ==> (OccursAt(s, sep, i) <==> OccursAt(s[1..], sep, i - 1))
  {
    forall i | 0 <= i
      ensures OccursAt(s[1..], sep, i) <==> OccursAt(s, sep, i + 1)
    {
      if i + |sep| <= |s| - 1 {
        assert s[1..][i..i + |sep|] == s[i + 1..i + 1 + |sep|];
      }
    }
  }

  /** `s.split(sep)` for a non-empty string separator: the pieces between
      successive left-to-right occurrences of `sep`. */
  function Split(s: string, sep: string): (parts: seq<string>)
    requires |sep| > 0
    ensures |parts| >= 1
    decreases |s|
  {
    match IndexOf(s, sep)
    case None => [s]
    case Some(i) => [s[..i]] + Split(s[i + |sep|..], sep)
  }

  /** `parts.join(sep)`. */
  function Join(parts: seq<string>, sep: string): string
    requires |parts| >= 1
  {
    if |parts| == 1 then parts[0] else parts[0] + sep + Join(parts[1..], sep)
  }

  /** Splitting and joining again gives back the string. */
  lemma {:induction false} SplitJoin(s: string, sep: string)
    requires |sep| > 0
    ensures Join(Split(s, sep), sep) == s
    decreases |s|
  {
    match IndexOf(s, sep)
    case None =>
    case Some(i) =>
      var head := s[..i];
      var rest := s[i + |sep|..];
      var parts := Split(s, sep);
      assert parts == [head] + Split(rest, sep);
      assert parts[0] == head && parts[1..] == Split(rest, sep);
      SplitJoin(rest, sep);
      assert s[i..i + |sep|] == sep;
      assert s == head + s[i..i + |sep|] + rest;
  }

  /** No piece of a split contains the separator. */
  lemma {:induction false} SplitPiecesFree(s: string, sep: string)
    requires |sep| > 0
    ensures forall k, i :: 0 <= k < |Split(s, sep)| ==> !OccursAt(Split(s, sep)[k], sep, i)
    decreases |s|
  {
    match IndexOf(s, sep)
    case None =>
    case Some(i) =>
      var rest := s[i + |sep|..];
      SplitPiecesFree(rest, sep);
      forall j | OccursAt(s[..i], sep, j) ensures false {
        assert s[..i][j..j + |sep|] == s[j..j + |sep|];
        assert OccursAt(s, sep, j) && j < i;
      }
      assert Split(s, sep) == [s[..i]] + Split(rest, sep);
  }

  /** When `sep` occurs in `s` at `k` and nowhere else, `s.split(sep)` has
      exactly two pieces: what stands before and what stands after. */
  lemma SplitAtSoleOccurrence(s: string, sep: string, k: nat)
    requires |sep| > 0
    requires OccursAt(s, sep, k)
    requires forall i :: OccursAt(s, sep, i) ==> i == k
    ensures Split(s, sep) == [s[..k], s[k + |sep|..]]
  {
    var rest := s[k + |sep|..];
    forall i | OccursAt(rest, sep, i) ensures false {
      assert rest[i..i + |sep|] == s[k + |sep| + i..k + |sep| + i + |sep|];
      assert OccursAt(s, sep, k + |sep| + i);
    }
    assert IndexOf(rest, sep).None?;
  }

  /** When `sep` does not occur in `s`, `s.split(sep)` is `[s]`. */
  lemma SplitWithoutOccurrence(s: string, sep: string)
    requires |sep| > 0
    requires forall i :: !OccursAt(s, sep, i)
    ensures Split(s, sep) == [s]
  {
    assert IndexOf(s, sep).None?;
  }

  /** Joining two pieces free of a character with that character between
      them, and splitting again, gives the two pieces back. */
  lemma SplitAroundSoleChar(a: string, b: string, c: char)
    requires c !in a && c !in b
    ensures Split(a + [c] + b, [c]) == [a, b]
  {
    var s := a + [c] + b;
    var k := |a|;
    assert s[k..k + 1] == [c];
    forall j | 0 <= j < |s| && j != k ensures s[j] != c {
      if j < k {
        assert s[j] == a[j];
      } else {
        assert s[j] == b[j - k - 1];
      }
    }
    forall i | OccursAt(s, [c], i) ensures i == k {
      assert s[i] == s[i..i + 1][0];
    }
    SplitAtSoleOccurrence(s, [c], k);
    assert s[..k] == a;
    assert s[k + 1..] == b;
  }

  /** `s.split(c)[0]` for a one-character separator is the text before the
      first `c`, or all of `s` when there is none. */
  lemma FirstPieceBefore(s: string, c: char, k: nat)
    requires k <= |s|
    requires forall j :: 0 <= j < k ==> s[j] != c
    requires k == |s| || s[k] == c
    ensures Split(s, [c])[0] == s[..k]
  {
    forall i | 0 <= i < k ensures !OccursAt(s, [c], i) {
      assert s[i..i + 1] == [s[i]];
    }
    var r := IndexOf(s, [c]);
    if k < |s| {
      assert s[k..k + 1] == [c];
      assert OccursAt(s, [c], k);
      assert r.Some? && r.value == k;
      assert Split(s, [c]) == [s[..k]] + Split(s[k + 1..], [c]);
    } else {
      assert r.None?;
      assert s[..k] == s;
    }
  }

  /** A separator that occurs at two places that do not overlap splits the
      string into at least three pieces. */
  lemma SplitTwoOccurrences(s: string, sep: string, i: nat, j: nat)
    requires |sep| > 0
    requires OccursAt(s, sep, i) && OccursAt(s, sep, j) && i + |sep| <= j
    ensures |Split(s, sep)| >= 3
  {
    var first := IndexOf(s, sep);
    var f := first.value;
    var rest := s[f + |sep|..];
    var j' := j - (f + |sep|);
    assert rest[j'..j' + |sep|] == s[j..j + |sep|];
    assert OccursAt(rest, sep, j');
    assert IndexOf(rest, sep).Some?;
  }
}
