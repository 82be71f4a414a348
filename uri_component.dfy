/** `encodeURIComponent`: every character outside the unreserved set is
    written as the percent-escaped bytes of its UTF-8 encoding (section 2.1
    of RFC 3986 for the escapes, section 3 of RFC 3629 for the bytes). */
module UriComponent {

  /** The characters `encodeURIComponent` leaves as they are. */
  predicate Unreserved(c: char) {
    ('A' <= c <= 'Z') || ('a' <= c <= 'z') || ('0' <= c <= '9') ||
    c == '-' || c == '_' || c == '.' || c == '!' || c == '~' || c == '*' || c == '\'' || c == '(' || c == ')'
  }

  const HexDigits: string := "0123456789ABCDEF"

  /** The UTF-8 bytes of one character. */
  function Utf8(c: char): (bytes: seq<int>)
    ensures 1 <= |bytes| <= 4
    ensures forall i :: 0 <= i < |bytes| ==> 0 <= bytes[i] < 256
    ensures |bytes| == 1 <==> (c as int) < 0x80
    ensures forall i :: 1 <= i < |bytes| ==> 0x80 <= bytes[i] < 0xC0
  {
    var cp := c as int;
    if cp < 0x80 then [cp]
    else if cp < 0x800 then [0xC0 + cp / 64, 0x80 + cp % 64]
    else if cp < 0x10000 then [0xE0 + cp / 64 / 64, 0x80 + cp / 64 % 64, 0x80 + cp % 64]
    else [0xF0 + cp / 64 / 64 / 64, 0x80 + cp / 64 / 64 % 64, 0x80 + cp / 64 % 64, 0x80 + cp % 64]
  }

  /** Reading a code point back from the bytes `Utf8` writes. */
  function Utf8Value(bytes: seq<int>): int
    requires 1 <= |bytes| <= 4
  {
    if |bytes| == 1 then bytes[0]
    else if |bytes| == 2 then (bytes[0] - 0xC0) * 64 + (bytes[1] - 0x80)
    else if |bytes| == 3 then (bytes[0] - 0xE0) * 4096 + (bytes[1] - 0x80) * 64 + (bytes[2] - 0x80)
    else (bytes[0] - 0xF0) * 262144 + (bytes[1] - 0x80) * 4096 + (bytes[2] - 0x80) * 64 + (bytes[3] - 0x80)
  }

  /** The bytes determine the character: decoding them gives it back. */
  lemma Utf8RoundTrip(c: char)
    ensures Utf8Value(Utf8(c)) == c as int
  {
    var cp := c as int;
    var q1 := cp / 64;
    var q2 := q1 / 64;
    assert cp == q1 * 64 + cp % 64;
    assert q1 == q2 * 64 + q1 % 64;
    assert q2 == q2 / 64 * 64 + q2 % 64;
  }

  /** `%XY` for one byte. */
  function Escape(b: int): (r: string)
    requires 0 <= b < 256
    ensures |r| == 3 && r[0] == '%' && r[1] in HexDigits && r[2] in HexDigits
  {
    ['%', HexDigits[b / 16], HexDigits[b % 16]]
  }

  function EscapeAll(bytes: seq<int>): (r: string)
    requires forall i :: 0 <= i < |bytes| ==> 0 <= bytes[i] < 256
    ensures |r| == 3 * |bytes|
    ensures forall i :: 0 <= i < |r| ==> r[i] == '%' || r[i] in HexDigits
  {
    if bytes == [] then [] else Escape(bytes[0]) + EscapeAll(bytes[1..])
  }

  /** The value of one hexadecimal digit of `HexDigits`. */
  function HexValue(d: char): int {
    if '0' <= d <= '9' then d as int - '0' as int else d as int - 'A' as int + 10
  }

  /** Reading `%XY` triplets back as bytes. */
  function UnescapeAll(r: string): seq<int>
    requires |r| % 3 == 0
  {
    if r == [] then [] else [HexValue(r[1]) * 16 + HexValue(r[2])] + UnescapeAll(r[3..])
  }

  /** The two digits of an escape read back as its byte. */
  lemma EscapeRoundTrip(b: int)
    requires 0 <= b < 256
    ensures var e := Escape(b); HexValue(e[1]) * 16 + HexValue(e[2]) == b
  {
    forall k | 0 <= k < 16
      ensures HexValue(HexDigits[k]) == k
    {
    }
  }

  /** Reading the escapes back gives the bytes. */
  lemma {:induction false} UnescapeEscapeAll(bytes: seq<int>)
    requires forall i :: 0 <= i < |bytes| ==> 0 <= bytes[i] < 256
    ensures UnescapeAll(EscapeAll(bytes)) == bytes
  {
    if bytes != [] {
      var e := EscapeAll(bytes);
      assert e == Escape(bytes[0]) + EscapeAll(bytes[1..]);
      assert e[3..] == EscapeAll(bytes[1..]);
      EscapeRoundTrip(bytes[0]);
      UnescapeEscapeAll(bytes[1..]);
    }
  }

  /** `encodeURIComponent` of one character. */
  function EncodeChar(c: char): (r: string)
    ensures Unreserved(c) ==> r == [c]
    ensures !Unreserved(c) ==> r == EscapeAll(Utf8(c)) && |r| == 3 * |Utf8(c)| && r[0] == '%'
  {
    if Unreserved(c) then [c] else EscapeAll(Utf8(c))
  }

  /** The escapes of a character read back as its UTF-8 bytes, and those
      as the character. */
  lemma EncodeCharDecodes(c: char)
    requires !Unreserved(c)
    ensures UnescapeAll(EncodeChar(c)) == Utf8(c)
    ensures Utf8Value(UnescapeAll(EncodeChar(c))) == c as int
  {
    UnescapeEscapeAll(Utf8(c));
    Utf8RoundTrip(c);
  }

  /** A character that may appear in an encoded component. */
  predicate Safe(c: char) {
    Unreserved(c) || c == '%'
  }

  /** Every character the encoding of one character writes is safe. */
  lemma EncodeCharSafe(c: char)
    ensures forall i :: 0 <= i < |EncodeChar(c)| ==> Safe(EncodeChar(c)[i])
  {
    assert forall d :: d in HexDigits ==> Unreserved(d);
  }

  /** `encodeURIComponent(s)`. */
  function Encode(s: string): (r: string)
    ensures |r| >= |s|
    ensures forall i :: 0 <= i < |r| ==> Safe(r[i])
  {
    if s == [] then []
    else
      EncodeCharSafe(s[0]);
      EncodeChar(s[0]) + Encode(s[1..])
  }

  /** Encoding works character by character. */
  lemma {:induction false} EncodeAppend(a: string, b: string)
    ensures Encode(a + b) == Encode(a) + Encode(b)
  {
    if a == [] {
      assert a + b == b;
    } else {
      assert (a + b)[1..] == a[1..] + b;
      EncodeAppend(a[1..], b);
    }
  }

  /** A string of unreserved characters is its own encoding. */
  lemma {:induction false} EncodeUnreserved(s: string)
    requires forall i :: 0 <= i < |s| ==> Unreserved(s[i])
    ensures Encode(s) == s
  {
    if s != [] {
      EncodeUnreserved(s[1..]);
    }
  }

  /** The encoding never contains a character that is not safe: in
      particular no `@`, `,`, `/` or space. */
  lemma EncodedHasNo(s: string, c: char)
    requires !Safe(c)
    ensures c !in Encode(s)
  {
  }
}
