/** Where the access and refresh tokens live: in cookies (read back from the
    `document.cookie` string) or in local storage, plus the expiry test on a
    JWT's `exp` claim (section 4.1.4 of RFC 7519). The browser's cookie jar
    is modelled as the list of stored cookies in creation order, and
    `document.cookie` as its serialisation `name=value; name=value`, as
    section 5.4 of RFC 6265 lays out the `Cookie` header. */
module TokenManager {
  import opened Js
  import opened Text

  const AccessTokenKey: string := "accessToken"
  const RefreshTokenKey: string := "refreshToken"

  const MsPerDay: int := 24 * 60 * 60 * 1000
  /** `setCookie('accessToken', _, 0.25)`: a quarter of a day. */
  const AccessTokenLifetimeMs: int := MsPerDay / 4
  /** `setCookie('refreshToken', _, 7)`: seven days. */
  const RefreshTokenLifetimeMs: int := 7 * MsPerDay

  datatype TokenPair = TokenPair(accessToken: string, refreshToken: string)

  // ---------------------------------------------------------------------
  // Reading a cookie out of the `document.cookie` string

  /** What `getCookie` splits on: `; name=`. */
  function Pattern(name: string): (p: string)
    ensures |p| == |name| + 3 && p[0] == ';' && p[1] == ' ' && p[|p| - 1] == '='
    ensures forall j :: 0 <= j < |name| ==> p[2 + j] == name[j]
  {
    "; " + name + "="
  }

  /** `getCookie(name)`: prefix the cookie string with `; `, split it on
      `; name=`; with exactly two pieces, the text of the second up to its
      first `;`, unless that is empty. */
  function GetCookie(cookie: string, name: string): (r: Option<string>)
    ensures r.Some? ==> r.value != [] && ';' !in r.value
  {
    var parts := Split("; " + cookie, Pattern(name));
    if |parts| == 2 then
      var value := Split(parts[1], ";")[0];
      NoSeparatorInPieces(parts[1], ';');
      if value == "" then None else Some(value)
    else None
  }

  /** The pieces of a split on one character do not contain it. */
  lemma NoSeparatorInPieces(s: string, c: char)
    ensures forall k :: 0 <= k < |Split(s, [c])| ==> c !in Split(s, [c])[k]
  {
    SplitPiecesFree(s, [c]);
    forall k, i | 0 <= k < |Split(s, [c])| && 0 <= i < |Split(s, [c])[k]|
      ensures Split(s, [c])[k][i] != c
    {
      var piece := Split(s, [c])[k];
      assert piece[i..i + 1] == [piece[i]];
      assert !OccursAt(piece, [c], i);
    }
  }

  /** When `; name=` occurs exactly once in `; ` + the cookie string, the
      result is what follows it up to the next `;` (if not empty). */
  lemma GetCookieSoleOccurrence(cookie: string, name: string, s: string, k: nat, end: nat)
    requires s == "; " + cookie
    requires OccursAt(s, Pattern(name), k)
    requires forall i :: OccursAt(s, Pattern(name), i) ==> i == k
    requires k + |Pattern(name)| <= end <= |s|
    requires forall j :: k + |Pattern(name)| <= j < end ==> s[j] != ';'
    requires end == |s| || s[end] == ';'
    ensures var value := s[k + |Pattern(name)|..end];
      GetCookie(cookie, name) == if value == "" then None else Some(value)
  {
    var start := k + |Pattern(name)|;
    SplitAtSoleOccurrence(s, Pattern(name), k);
    var rest := s[start..];
    FirstPieceBefore(rest, ';', end - start);
    assert rest[..end - start] == s[start..end];
  }

  /** Without `; name=` in `; ` + the cookie string there is no cookie. */
  lemma GetCookieAbsent(cookie: string, name: string)
    requires forall i :: !OccursAt("; " + cookie, Pattern(name), i)
    ensures GetCookie(cookie, name) == None
  {
    SplitWithoutOccurrence("; " + cookie, Pattern(name));
  }

  /** With two non-overlapping `; name=` there is no cookie either: the
      split has more than two pieces. */
  lemma GetCookieAmbiguous(cookie: string, name: string, i: nat, j: nat)
    requires OccursAt("; " + cookie, Pattern(name), i)
    requires OccursAt("; " + cookie, Pattern(name), j)
    requires i + |Pattern(name)| <= j
    ensures GetCookie(cookie, name) == None
  {
    SplitTwoOccurrences("; " + cookie, Pattern(name), i, j);
  }

  // ---------------------------------------------------------------------
  // The cookie jar behind `document.cookie`

  /** A stored cookie: its name, its value and the lifetime it was set
      with (only the lifetime of the attributes is modelled). */
  datatype Cookie = Cookie(name: string, value: string, lifetimeMs: int)

  /** A cookie name the jar can hold: no `;` and no `=`. */
  predicate ValidName(name: string) {
    ';' !in name && '=' !in name
  }

  /** Names are valid and distinct, values hold no `;`. */
  predicate WellFormedJar(jar: seq<Cookie>) {
    && (forall i :: 0 <= i < |jar| ==> ValidName(jar[i].name) && ';' !in jar[i].value)
    && (forall i, j :: 0 <= i < j < |jar| ==> jar[i].name != jar[j].name)
  }

  function Pair(c: Cookie): string {
    c.name + "=" + c.value
  }

  /** `document.cookie`: the pairs joined by `; `. */
  function Serialize(jar: seq<Cookie>): string {
    if jar == [] then ""
    else if |jar| == 1 then Pair(jar[0])
    else Pair(jar[0]) + "; " + Serialize(jar[1..])
  }

  /** `; ` + `document.cookie` as a run of `; name=value` segments. */
  function Segments(jar: seq<Cookie>): string {
    if jar == [] then "" else "; " + Pair(jar[0]) + Segments(jar[1..])
  }

  /** Where the segment of cookie `k` starts. */
  function Offset(jar: seq<Cookie>, k: nat): nat
    requires k <= |jar|
  {
    if k == 0 then 0 else |"; " + Pair(jar[0])| + Offset(jar[1..], k - 1)
  }

  /** The value of the cookie called `name`, if the jar has one. */
  function Lookup(jar: seq<Cookie>, name: string): (r: Option<string>)
    ensures r.None? <==> forall i :: 0 <= i < |jar| ==> jar[i].name != name
  {
    if jar == [] then None
    else if jar[0].name == name then Some(jar[0].value)
    else Lookup(jar[1..], name)
  }

  lemma {:induction false} PrefixedSerialize(jar: seq<Cookie>)
    requires jar != []
    ensures "; " + Serialize(jar) == Segments(jar)
  {
    if |jar| > 1 {
      PrefixedSerialize(jar[1..]);
    }
  }

  /** The characters of the segment `; name=value`. */
  lemma SegmentChars(c: Cookie)
    ensures var seg := "; " + Pair(c);
      && |seg| == |c.name| + |c.value| + 3
      && seg[0] == ';' && seg[1] == ' ' && seg[2 + |c.name|] == '='
      && (forall j :: 0 <= j < |c.name| ==> seg[2 + j] == c.name[j])
      && (forall j :: 0 <= j < |c.value| ==> seg[3 + |c.name| + j] == c.value[j])
  {
  }

  /** Inside a well-formed segment only its first character is `;`. */
  lemma SemicolonOnlyAtStart(c: Cookie, p: nat)
    requires ValidName(c.name) && ';' !in c.value
    requires p < |"; " + Pair(c)| && ("; " + Pair(c))[p] == ';'
    ensures p == 0
  {
    SegmentChars(c);
  }

  /** `; name=` at the start of a segment followed by anything means the
      segment's cookie is called `name`. */
  lemma NameAtSegmentStart(c: Cookie, name: string, s: string)
    requires ValidName(c.name) && ValidName(name)
    requires |"; " + Pair(c)| <= |s| && s[..|"; " + Pair(c)|] == "; " + Pair(c)
    requires OccursAt(s, Pattern(name), 0)
    ensures c.name == name
  {
    SegmentChars(c);
    var seg, sep := "; " + Pair(c), Pattern(name);
    assert forall j :: 0 <= j < |seg| ==> s[j] == seg[j] by {
      forall j | 0 <= j < |seg| ensures s[j] == seg[j] {
        assert s[..|seg|][j] == s[j];
      }
    }
    assert forall j :: 0 <= j < |sep| ==> s[j] == sep[j] by {
      forall j | 0 <= j < |sep| ensures s[j] == sep[j] {
        assert s[..|sep|][j] == s[j];
      }
    }
    assert |c.name| == |name|;
    assert forall j :: 0 <= j < |name| ==> c.name[j] == s[2 + j] == name[j];
  }

  /** A `;` in the segments is the start of a segment, and `; name=` found
      there belongs to the cookie called `name`. */
  lemma {:induction false} OccurrenceIsSegmentStart(jar: seq<Cookie>, name: string, p: nat) returns (k: nat)
    requires WellFormedJar(jar) && ValidName(name)
    requires OccursAt(Segments(jar), Pattern(name), p)
    ensures k < |jar| && jar[k].name == name && p == Offset(jar, k)
  {
    var seg := "; " + Pair(jar[0]);
    WellFormedTail(jar);
    if p < |seg| {
      assert Segments(jar) == seg + Segments(jar[1..]);
      OccurrenceInFirstSegment(jar[0], name, p, Segments(jar[1..]));
      k := 0;
    } else {
      OccurrenceInLaterSegment(jar, Pattern(name), p);
      var k' := OccurrenceIsSegmentStart(jar[1..], name, p - |seg|);
      OffsetStep(jar, k');
      k := k' + 1;
    }
  }

  /** An occurrence past the first segment is one in the later segments. */
  lemma OccurrenceInLaterSegment(jar: seq<Cookie>, sep: string, p: nat)
    requires jar != [] && OccursAt(Segments(jar), sep, p) && |"; " + Pair(jar[0])| <= p
    ensures OccursAt(Segments(jar[1..]), sep, p - |"; " + Pair(jar[0])|)
  {
    var seg, rest := "; " + Pair(jar[0]), Segments(jar[1..]);
    assert Segments(jar) == seg + rest;
    ShiftedSlices(seg, rest, p - |seg|, |sep|);
  }

  /** Cookie `k + 1` of a jar is cookie `k` of its tail, one segment on. */
  lemma OffsetStep(jar: seq<Cookie>, k: nat)
    requires k + 1 < |jar|
    ensures jar[k + 1] == jar[1..][k]
    ensures Offset(jar, k + 1) == |"; " + Pair(jar[0])| + Offset(jar[1..], k)
  {
  }

  /** The cookies after the first of a well-formed jar form one too. */
  lemma WellFormedTail(jar: seq<Cookie>)
    requires WellFormedJar(jar) && jar != []
    ensures ValidName(jar[0].name) && ';' !in jar[0].value && WellFormedJar(jar[1..])
  {
    forall i | 0 <= i < |jar| - 1 ensures jar[1..][i] == jar[i + 1] {
    }
  }

  /** `; name=` found inside a segment is found at its start, and then the
      segment's cookie is called `name`. */
  lemma OccurrenceInFirstSegment(c: Cookie, name: string, p: nat, rest: string)
    requires ValidName(c.name) && ';' !in c.value && ValidName(name)
    requires p < |"; " + Pair(c)|
    requires OccursAt("; " + Pair(c) + rest, Pattern(name), p)
    ensures p == 0 && c.name == name
  {
    var s, seg, sep := "; " + Pair(c) + rest, "; " + Pair(c), Pattern(name);
    assert s[p..p + |sep|][0] == ';';
    assert s[p] == seg[p];
    SemicolonOnlyAtStart(c, p);
    assert s[..|seg|] == seg;
    NameAtSegmentStart(c, name, s);
  }

  /** The segment of cookie `k` starts with `; name=` and continues with
      the value and then the later segments. */
  lemma {:induction false} SegmentAt(jar: seq<Cookie>, k: nat)
    requires k < |jar|
    ensures SegmentStartsAt(jar, k)
  {
    if k == 0 {
      var sep := Pattern(jar[0].name);
      assert Segments(jar) == sep + (jar[0].value + Segments(jar[1..]));
      ShiftedSlices([], Segments(jar), 0, |sep|);
    } else {
      SegmentAt(jar[1..], k - 1);
      SegmentAtStep(jar, k);
    }
  }

  /** Where cookie `k`'s segment starts the segments read `; name=`, then
      its value, then the later segments. */
  predicate SegmentStartsAt(jar: seq<Cookie>, k: nat)
    requires k < |jar|
  {
    var s, sep, o := Segments(jar), Pattern(jar[k].name), Offset(jar, k);
    && o + |sep| <= |s|
    && OccursAt(s, sep, o)
    && s[o + |sep|..] == jar[k].value + Segments(jar[k + 1..])
  }

  /** The segment of cookie `k` keeps its shape when the first cookie's
      segment is put in front. */
  lemma SegmentAtStep(jar: seq<Cookie>, k: nat)
    requires 0 < k < |jar| && SegmentStartsAt(jar[1..], k - 1)
    ensures SegmentStartsAt(jar, k)
  {
    var rest := Segments(jar[1..]);
    var seg := "; " + Pair(jar[0]);
    assert Segments(jar) == seg + rest;
    assert jar[1..][k - 1] == jar[k];
    assert jar[1..][k..] == jar[k + 1..];
    assert Offset(jar, k) == |seg| + Offset(jar[1..], k - 1);
    ShiftedSlices(seg, rest, Offset(jar[1..], k - 1), |Pattern(jar[k].name)|);
  }

  /** Slices of `rest` keep their text once `seg` is put in front. */
  lemma ShiftedSlices(seg: string, rest: string, o: nat, n: nat)
    requires o + n <= |rest|
    ensures (seg + rest)[|seg| + o..|seg| + o + n] == rest[o..o + n]
    ensures (seg + rest)[|seg| + o + n..] == rest[o + n..]
  {
  }

  /** In a well-formed jar `; name=` occurs only where the segment of the
      cookie called `name` starts. */
  lemma OnlyOwnSegmentMatches(jar: seq<Cookie>, k: nat)
    requires WellFormedJar(jar) && k < |jar|
    ensures forall i :: OccursAt(Segments(jar), Pattern(jar[k].name), i) ==> i == Offset(jar, k)
  {
    var name := jar[k].name;
    forall i | OccursAt(Segments(jar), Pattern(name), i) ensures i == Offset(jar, k) {
      var l := OccurrenceIsSegmentStart(jar, name, i);
      assert l == k;
    }
  }

  /** A value free of `;` followed by nothing or by a `;` runs exactly
      up to the next `;`. */
  lemma ValueBeforeSemicolon(s: string, from: nat, v: string, tail: string)
    requires from <= |s| && s[from..] == v + tail
    requires ';' !in v && (tail == [] || tail[0] == ';')
    ensures from + |v| <= |s| && s[from..from + |v|] == v
    ensures forall j :: from <= j < from + |v| ==> s[j] != ';'
    ensures from + |v| == |s| || s[from + |v|] == ';'
  {
    forall j | from <= j < from + |v| ensures s[j] == v[j - from] {
      assert s[from..][j - from] == s[j];
    }
    if from + |v| < |s| {
      assert s[from..][|v|] == s[from + |v|];
    }
  }

  /** Reading back cookie `k` of the serialised jar gives its value, or
      nothing when the value is empty. */
  lemma GetCookieOfJarPresent(jar: seq<Cookie>, k: nat)
    requires WellFormedJar(jar) && k < |jar|
    ensures var v := jar[k].value;
      GetCookie(Serialize(jar), jar[k].name) == if v == "" then None else Some(v)
  {
    var cookie, s, name := Serialize(jar), Segments(jar), jar[k].name;
    PrefixedSerialize(jar);
    assert s == "; " + cookie;
    var start := Offset(jar, k);
    var end := OwnValueSpan(jar, k);
    assert s[start + |Pattern(name)|..end] == jar[k].value;
    GetCookieSoleOccurrence(cookie, name, s, start, end);
  }

  /** The facts about cookie `k`'s place in the segments that reading it
      back relies on; `end` is where its value stops. */
  lemma OwnValueSpan(jar: seq<Cookie>, k: nat) returns (end: nat)
    requires WellFormedJar(jar) && k < |jar|
    ensures var s, sep, start := Segments(jar), Pattern(jar[k].name), Offset(jar, k);
      && OccursAt(s, sep, start)
      && (forall i :: OccursAt(s, sep, i) ==> i == start)
      && start + |sep| <= end <= |s|
      && (forall j :: start + |sep| <= j < end ==> s[j] != ';')
      && (end == |s| || s[end] == ';')
      && s[start + |sep|..end] == jar[k].value
  {
    var v := jar[k].value;
    var s := Segments(jar);
    SegmentAt(jar, k);
    OnlyOwnSegmentMatches(jar, k);
    var valueStart := Offset(jar, k) + |Pattern(jar[k].name)|;
    end := valueStart + |v|;
    var tail := Segments(jar[k + 1..]);
    assert tail == [] || tail[0] == ';';
    ValueBeforeSemicolon(s, valueStart, v, tail);
  }


  /** Reading back the serialised jar finds each cookie's value (when it
      is not empty), whatever other cookies the jar holds, including ones
      whose names end in `name`; and finds nothing for a name the jar does
      not hold. */
  lemma GetCookieOfJar(jar: seq<Cookie>, name: string)
    requires WellFormedJar(jar) && ValidName(name)
    ensures GetCookie(Serialize(jar), name) ==
      match Lookup(jar, name)
      case Some(v) => if v == "" then None else Some(v)
      case None => None
  {
    var sep := Pattern(name);
    if Lookup(jar, name).Some? {
      var k := LookupIndex(jar, name);
      GetCookieOfJarPresent(jar, k);
    } else if jar == [] {
      assert forall i :: !OccursAt("; " + Serialize(jar), sep, i);
      GetCookieAbsent(Serialize(jar), name);
    } else {
      PrefixedSerialize(jar);
      var s := Segments(jar);
      forall i | OccursAt(s, sep, i) ensures false {
        var k := OccurrenceIsSegmentStart(jar, name, i);
      }
      GetCookieAbsent(Serialize(jar), name);
    }
  }

  /** The index of the cookie `Lookup` finds. */
  lemma {:induction false} LookupIndex(jar: seq<Cookie>, name: string) returns (k: nat)
    requires Lookup(jar, name).Some?
    ensures k < |jar| && jar[k].name == name && jar[k].value == Lookup(jar, name).value
  {
    if jar[0].name == name {
      k := 0;
    } else {
      var k' := LookupIndex(jar[1..], name);
      k := k' + 1;
    }
  }

  // ---------------------------------------------------------------------
  // Writing cookies

  /** The value the browser keeps from `name=value;expires=...`: the text
      before the first `;` (section 5.2 of RFC 6265). */
  function StoredValue(value: string): (r: string)
    ensures ';' !in r
    ensures ';' !in value ==> r == value
  {
    NoSeparatorInPieces(value, ';');
    if ';' !in value then
      forall i ensures !OccursAt(value, ";", i) {
        if 0 <= i && i + 1 <= |value| {
          assert value[i..i + 1][0] == value[i];
        }
      }
      SplitWithoutOccurrence(value, ";");
      Split(value, ";")[0]
    else
      Split(value, ";")[0]
  }

  /** Storing a cookie: one with the same name is replaced where it stands,
      otherwise the new one goes last (section 5.3 of RFC 6265, where a
      replacing cookie keeps the creation time of the one it replaces). */
  function Put(jar: seq<Cookie>, c: Cookie): (r: seq<Cookie>)
    ensures |r| == |jar| || |r| == |jar| + 1
  {
    if jar == [] then [c]
    else if jar[0].name == c.name then [c] + jar[1..]
    else [jar[0]] + Put(jar[1..], c)
  }

  /** Setting a cookie already expired removes the one with that name. */
  function Remove(jar: seq<Cookie>, name: string): (r: seq<Cookie>)
    ensures |r| <= |jar|
  {
    if jar == [] then []
    else if jar[0].name == name then Remove(jar[1..], name)
    else [jar[0]] + Remove(jar[1..], name)
  }

  lemma {:induction false} LookupPut(jar: seq<Cookie>, c: Cookie, name: string)
    ensures Lookup(Put(jar, c), name) == if name == c.name then Some(c.value) else Lookup(jar, name)
  {
    if jar != [] && jar[0].name != c.name {
      LookupPut(jar[1..], c, name);
    }
  }

  lemma {:induction false} LookupRemove(jar: seq<Cookie>, removed: string, name: string)
    ensures Lookup(Remove(jar, removed), name) == if name == removed then None else Lookup(jar, name)
  {
    if jar != [] {
      LookupRemove(jar[1..], removed, name);
    }
  }

  /** A jar is well formed when its first cookie is, the rest is, and the
      rest has no cookie of the same name. */
  lemma WellFormedCons(c: Cookie, rest: seq<Cookie>)
    ensures WellFormedJar([c] + rest) <==>
      ValidName(c.name) && ';' !in c.value && WellFormedJar(rest) && Lookup(rest, c.name).None?
  {
    var jar := [c] + rest;
    assert jar[1..] == rest;
    assert jar[0] == c;
    assert forall i :: 0 <= i < |rest| ==> jar[i + 1] == rest[i];
    if WellFormedJar(jar) {
      forall i | 0 <= i < |rest| ensures rest[i].name != c.name {
        assert jar[0].name != jar[i + 1].name;
      }
    }
    if ValidName(c.name) && ';' !in c.value && WellFormedJar(rest) && Lookup(rest, c.name).None? {
      forall i | 0 <= i < |jar| ensures ValidName(jar[i].name) && ';' !in jar[i].value {
        if i > 0 {
          assert jar[i] == rest[i - 1];
        }
      }
      forall i, j | 0 <= i < j < |jar| ensures jar[i].name != jar[j].name {
        if i > 0 {
          assert jar[i] == rest[i - 1] && jar[j] == rest[j - 1];
        }
      }
    }
  }

  lemma {:induction false} PutWellFormed(jar: seq<Cookie>, c: Cookie)
    requires WellFormedJar(jar) && ValidName(c.name) && ';' !in c.value
    ensures WellFormedJar(Put(jar, c))
  {
    if jar == [] {
    } else {
      WellFormedCons(jar[0], jar[1..]);
      assert [jar[0]] + jar[1..] == jar;
      if jar[0].name == c.name {
        WellFormedCons(c, jar[1..]);
      } else {
        PutWellFormed(jar[1..], c);
        LookupPut(jar[1..], c, jar[0].name);
        WellFormedCons(jar[0], Put(jar[1..], c));
      }
    }
  }

  lemma {:induction false} RemoveWellFormed(jar: seq<Cookie>, name: string)
    requires WellFormedJar(jar)
    ensures WellFormedJar(Remove(jar, name))
  {
    if jar != [] {
      WellFormedCons(jar[0], jar[1..]);
      assert [jar[0]] + jar[1..] == jar;
      RemoveWellFormed(jar[1..], name);
      if jar[0].name != name {
        LookupRemove(jar[1..], name, jar[0].name);
        WellFormedCons(jar[0], Remove(jar[1..], name));
      }
    }
  }

  /** Removing a cookie undoes storing it: whatever the jar held under that
      name before is gone either way, and nothing else differs. */
  lemma {:induction false} RemoveUndoesPut(jar: seq<Cookie>, c: Cookie)
    ensures Remove(Put(jar, c), c.name) == Remove(jar, c.name)
  {
    if jar != [] && jar[0].name != c.name {
      RemoveUndoesPut(jar[1..], c);
    }
  }

  /** Removing two names in either order gives the same jar. */
  lemma {:induction false} RemoveCommutes(jar: seq<Cookie>, a: string, b: string)
    ensures Remove(Remove(jar, a), b) == Remove(Remove(jar, b), a)
  {
    if jar != [] {
      RemoveCommutes(jar[1..], a, b);
    }
  }

  /** Removing a name from a jar after storing a cookie of another name is
      storing it after the removal. */
  lemma {:induction false} RemovePutOther(jar: seq<Cookie>, c: Cookie, name: string)
    requires c.name != name
    ensures Remove(Put(jar, c), name) == Put(Remove(jar, name), c)
  {
    if jar != [] {
      RemovePutOther(jar[1..], c, name);
    }
  }

  function NonEmpty(s: string): Option<string> {
    if s == "" then None else Some(s)
  }

  /** Cookie-backed token storage over the document's cookie jar. */
  class CookieTokenStorage {
    var jar: seq<Cookie>

    constructor (jar: seq<Cookie>)
      requires WellFormedJar(jar)
      ensures this.jar == jar && Valid()
    {
      this.jar := jar;
    }

    predicate Valid()
      reads this
    {
      WellFormedJar(jar)
    }

    /** `getAccessToken`: read from the cookie string, it is the value of
        the jar's `accessToken` cookie, with an empty value read as none. */
    function GetAccessToken(): (t: Option<string>)
      reads this
      ensures Valid() ==> t == match Lookup(jar, AccessTokenKey)
        case Some(v) => if v == "" then None else Some(v)
        case None => None
    {
      if Valid() then GetCookieOfJar(jar, AccessTokenKey); GetCookie(Serialize(jar), AccessTokenKey)
      else GetCookie(Serialize(jar), AccessTokenKey)
    }

    /** `getRefreshToken`, read the same way. */
    function GetRefreshToken(): (t: Option<string>)
      reads this
      ensures Valid() ==> t == match Lookup(jar, RefreshTokenKey)
        case Some(v) => if v == "" then None else Some(v)
        case None => None
    {
      if Valid() then GetCookieOfJar(jar, RefreshTokenKey); GetCookie(Serialize(jar), RefreshTokenKey)
      else GetCookie(Serialize(jar), RefreshTokenKey)
    }

    /** `setCookie(name, value, days)`, with the lifetime in milliseconds. */
    method SetCookie(name: string, value: string, lifetimeMs: int)
      requires Valid() && ValidName(name)
      modifies this
      ensures Valid()
      ensures jar == Put(old(jar), Cookie(name, StoredValue(value), lifetimeMs))
    {
      PutWellFormed(jar, Cookie(name, StoredValue(value), lifetimeMs));
      jar := Put(jar, Cookie(name, StoredValue(value), lifetimeMs));
    }

    /** `deleteCookie(name)`: set it again with an expiry in 1970. */
    method DeleteCookie(name: string)
      requires Valid()
      modifies this
      ensures Valid()
      ensures jar == Remove(old(jar), name)
    {
      RemoveWellFormed(jar, name);
      jar := Remove(jar, name);
    }

    /** `setTokens`: both tokens, with a quarter-day and a seven-day
        lifetime; each reads back as written (cut at a `;`, and absent if
        that leaves nothing) and every other cookie reads as before. */
    method SetTokens(tokens: TokenPair)
      requires Valid()
      modifies this
      ensures Valid()
      ensures jar == Put(Put(old(jar), Cookie(AccessTokenKey, StoredValue(tokens.accessToken), AccessTokenLifetimeMs)),
                         Cookie(RefreshTokenKey, StoredValue(tokens.refreshToken), RefreshTokenLifetimeMs))
      ensures GetAccessToken() == NonEmpty(StoredValue(tokens.accessToken))
      ensures GetRefreshToken() == NonEmpty(StoredValue(tokens.refreshToken))
      ensures forall name :: name != AccessTokenKey && name != RefreshTokenKey ==> Lookup(jar, name) == Lookup(old(jar), name)
    {
      ghost var before := jar;
      SetCookie(AccessTokenKey, tokens.accessToken, AccessTokenLifetimeMs);
      ghost var middle := jar;
      SetCookie(RefreshTokenKey, tokens.refreshToken, RefreshTokenLifetimeMs);
      var access := Cookie(AccessTokenKey, StoredValue(tokens.accessToken), AccessTokenLifetimeMs);
      var refresh := Cookie(RefreshTokenKey, StoredValue(tokens.refreshToken), RefreshTokenLifetimeMs);
      LookupPut(middle, refresh, AccessTokenKey);
      LookupPut(before, access, AccessTokenKey);
      LookupPut(middle, refresh, RefreshTokenKey);
      forall name | name != AccessTokenKey && name != RefreshTokenKey
        ensures Lookup(jar, name) == Lookup(before, name)
      {
        LookupPut(middle, refresh, name);
        LookupPut(before, access, name);
      }
      GetCookieOfJar(jar, AccessTokenKey);
      GetCookieOfJar(jar, RefreshTokenKey);
    }

    /** `clearTokens`: neither token reads back any more, and every other
        cookie reads as before. */
    method ClearTokens()
      requires Valid()
      modifies this
      ensures Valid()
      ensures jar == Remove(Remove(old(jar), AccessTokenKey), RefreshTokenKey)
      ensures GetAccessToken() == None && GetRefreshToken() == None
      ensures forall name :: name != AccessTokenKey && name != RefreshTokenKey ==> Lookup(jar, name) == Lookup(old(jar), name)
    {
      ghost var before := jar;
      DeleteCookie(AccessTokenKey);
      ghost var middle := jar;
      DeleteCookie(RefreshTokenKey);
      LookupRemove(middle, RefreshTokenKey, AccessTokenKey);
      LookupRemove(before, AccessTokenKey, AccessTokenKey);
      LookupRemove(middle, RefreshTokenKey, RefreshTokenKey);
      forall name | name != AccessTokenKey && name != RefreshTokenKey
        ensures Lookup(jar, name) == Lookup(before, name)
      {
        LookupRemove(middle, RefreshTokenKey, name);
        LookupRemove(before, AccessTokenKey, name);
      }
      GetCookieOfJar(jar, AccessTokenKey);
      GetCookieOfJar(jar, RefreshTokenKey);
    }
  }

  /** Clearing the tokens right after setting them leaves the jar as
      clearing alone would have. */
  lemma ClearUndoesSet(jar: seq<Cookie>, access: Cookie, refresh: Cookie)
    requires access.name == AccessTokenKey && refresh.name == RefreshTokenKey
    ensures Remove(Remove(Put(Put(jar, access), refresh), AccessTokenKey), RefreshTokenKey)
         == Remove(Remove(jar, AccessTokenKey), RefreshTokenKey)
  {
    var j1 := Put(jar, access);
    RemovePutOther(j1, refresh, AccessTokenKey);
    RemoveUndoesPut(jar, access);
    RemoveUndoesPut(Remove(jar, AccessTokenKey), refresh);
  }

  // ---------------------------------------------------------------------
  // Local storage

  /** Token storage over `localStorage`, a map from keys to strings. */
  class LocalStorageTokenStorage {
    var items: map<string, string>

    constructor (items: map<string, string>)
      ensures this.items == items
    {
      this.items := items;
    }

    /** `localStorage.getItem('accessToken')`: the stored item, or null
        when there is none. */
    function GetAccessToken(): (t: Option<string>)
      reads this
      ensures t.Some? <==> AccessTokenKey in items
      ensures t.Some? ==> t.value == items[AccessTokenKey]
    {
      if AccessTokenKey in items then Some(items[AccessTokenKey]) else None
    }

    /** `localStorage.getItem('refreshToken')`. */
    function GetRefreshToken(): (t: Option<string>)
      reads this
      ensures t.Some? <==> RefreshTokenKey in items
      ensures t.Some? ==> t.value == items[RefreshTokenKey]
    {
      if RefreshTokenKey in items then Some(items[RefreshTokenKey]) else None
    }

    /** `setTokens`: both tokens read back exactly as given. */
    method SetTokens(tokens: TokenPair)
      modifies this
      ensures items == old(items)[AccessTokenKey := tokens.accessToken][RefreshTokenKey := tokens.refreshToken]
      ensures GetAccessToken() == Some(tokens.accessToken)
      ensures GetRefreshToken() == Some(tokens.refreshToken)
    {
      items := items[AccessTokenKey := tokens.accessToken];
      items := items[RefreshTokenKey := tokens.refreshToken];
    }

    /** `clearTokens`: both keys removed, every other key untouched. */
    method ClearTokens()
      modifies this
      ensures items == old(items) - {AccessTokenKey, RefreshTokenKey}
      ensures GetAccessToken() == None && GetRefreshToken() == None
      ensures forall key :: key != AccessTokenKey && key != RefreshTokenKey && key in old(items) ==>
        key in items && items[key] == old(items)[key]
    {
      items := items - {AccessTokenKey};
      items := items - {RefreshTokenKey};
    }
  }

  // ---------------------------------------------------------------------
  // Expiry

  /** `exp < currentTime` under JavaScript's comparison: numbers compare,
      `null` and booleans count as 0 and 1, `undefined` gives NaN and so
      `false`. Strings, arrays and objects are converted by rules the model
      does not have; they are treated as NaN too. */
  predicate LessThan(v: Json, t: int)
    ensures LessThan(v, t) ==> v.Num? || v.Null? || v.Bool?
    ensures v.Num? && LessThan(v, t) ==> v.n < t
  {
    match v
    case Num(n) => n < t
    case Null => 0 < t
    case Bool(b) => (if b then 1 else 0) < t
    case _ => false
  }

  /** `isTokenExpired(token)` at clock `nowMs`. `decode` stands for
      `JSON.parse(atob(_))` on the payload segment, `None` when either
      throws. A missing segment is passed on as the text "undefined", as
      `atob(undefined)` does. */
  function IsTokenExpired(token: string, nowMs: int, decode: string -> Option<Json>): (expired: bool)
    ensures var parts := Split(token, ".");
      var segment := if |parts| >= 2 then parts[1] else "undefined";
      && (decode(segment).None? ==> expired)
      && (decode(segment).Some? && Nullish(decode(segment).value) ==> expired)
      && (decode(segment).Some? && !Nullish(decode(segment).value) ==>
            (expired <==> LessThan(Get(decode(segment).value, "exp"), nowMs / 1000)))
  {
    var parts := Split(token, ".");
    var segment := if |parts| >= 2 then parts[1] else "undefined";
    match decode(segment)
    case None => true
    case Some(payload) =>
      if Nullish(payload) then true
      else
        var currentTime := nowMs / 1000;
        LessThan(Get(payload, "exp"), currentTime)
  }

  /** A numeric `exp` in seconds against the clock in milliseconds: the
      token is expired exactly when `exp` is before the current second, so
      not yet during that second itself. */
  lemma ExpiryAtSecondBoundary(exp: int, nowMs: int)
    ensures LessThan(Num(exp), nowMs / 1000) <==> (exp + 1) * 1000 <= nowMs
  {
  }

  /** Once expired, a token stays expired as the clock moves on. */
  lemma ExpiryIsMonotone(token: string, nowMs: int, laterMs: int, decode: string -> Option<Json>)
    requires nowMs <= laterMs
    requires IsTokenExpired(token, nowMs, decode)
    ensures IsTokenExpired(token, laterMs, decode)
  {
    assert nowMs / 1000 <= laterMs / 1000;
  }

  /** A payload without `exp` never expires; a payload that cannot be read
      always has. */
  lemma MissingExpNeverExpires(token: string, nowMs: int, payload: map<string, Json>)
    requires "exp" !in payload
    ensures var parts := Split(token, ".");
      var segment := if |parts| >= 2 then parts[1] else "undefined";
      !IsTokenExpired(token, nowMs, s => if s == segment then Some(Obj(payload)) else None)
      && IsTokenExpired(token, nowMs, s => None)
  {
  }

  // ---------------------------------------------------------------------
  // Choosing a storage

  datatype StorageKind = CookieStorage | LocalStorage

  /** `createTokenStorage(useCookies)`: cookies unless told otherwise. */
  function CreateTokenStorage(useCookies: bool): (k: StorageKind)
    ensures k == CookieStorage <==> useCookies
  {
    if useCookies then CookieStorage else LocalStorage
  }

  /** The default `tokenStorage`: cookies when a document with a cookie
      string exists, local storage otherwise. */
  function DefaultTokenStorage(hasDocument: bool, hasCookieString: bool): (k: StorageKind)
    ensures k == CookieStorage <==> hasDocument && hasCookieString
  {
    if hasDocument && hasCookieString then CookieStorage else LocalStorage
  }
}
