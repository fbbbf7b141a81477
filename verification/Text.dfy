/**
  Characters and strings as the Rust code sees them: a `char` is a Unicode scalar value, and the byte limits
  count UTF-8 bytes.
 */
module Text {

  const MAX_EVENT_BYTES: nat := 1024 * 1024

  /** The number of bytes UTF-8 needs for one scalar value. */
  function Utf8Width(c: char): (n: nat)
    ensures 1 <= n <= 4
  {
    var v := c as int;
    if v < 0x80 then 1 else if v < 0x800 then 2 else if v < 0x10000 then 3 else 4
  }

  function Utf8Len(s: string): nat {
    if s == "" then 0 else Utf8Width(s[0]) + Utf8Len(s[1..])
  }

  lemma {:induction false} Utf8LenConcat(a: string, b: string)
    ensures Utf8Len(a + b) == Utf8Len(a) + Utf8Len(b)
  {
    if a == "" {
      assert a + b == b;
    } else {
      assert (a + b)[1..] == a[1..] + b;
      Utf8LenConcat(a[1..], b);
    }
  }

  /** The property White_Space of the Unicode character database, which `char::is_whitespace` tests. */
  predicate IsWhitespace(c: char) {
    var v := c as int;
    || 9 <= v <= 13 || v == 0x20 || v == 0x85 || v == 0xA0 || v == 0x1680 || 0x2000 <= v <= 0x200A
    || v == 0x2028 || v == 0x2029 || v == 0x202F || v == 0x205F || v == 0x3000
  }

  /** `char::is_ascii_whitespace`, which leaves out the vertical tab. */
  predicate IsAsciiWhitespace(c: char) {
    c == ' ' || c == '\t' || c == '\n' || c == '\r' || c as int == 12
  }

  /** The four characters RFC 8259 section 2 allows between tokens. */
  predicate IsJsonWhitespace(c: char) {
    c == ' ' || c == '\t' || c == '\n' || c == '\r'
  }

  predicate JsonBlank(s: string) {
    forall i :: 0 <= i < |s| ==> IsJsonWhitespace(s[i])
  }

  function AsciiLowerChar(c: char): char {
    if 'A' <= c <= 'Z' then (c as int + 32) as char else c
  }

  function AsciiLower(s: string): (r: string)
    ensures |r| == |s|
    ensures forall i :: 0 <= i < |s| ==> r[i] == AsciiLowerChar(s[i])
  {
    if s == "" then "" else [AsciiLowerChar(s[0])] + AsciiLower(s[1..])
  }

  // `str::trim` and its two halves

  function TrimStart(s: string): string {
    if s != "" && IsWhitespace(s[0]) then TrimStart(s[1..]) else s
  }

  function TrimEnd(s: string): string {
    if s != "" && IsWhitespace(s[|s| - 1]) then TrimEnd(s[..|s| - 1]) else s
  }

  function Trim(s: string): string {
    TrimEnd(TrimStart(s))
  }

  predicate AllWhite(s: string) {
    forall i :: 0 <= i < |s| ==> IsWhitespace(s[i])
  }

  /** What is left of a text without the whitespace at both ends, as a part of it. */
  predicate IsCore(s: string, i: nat, j: nat) {
    && i <= j <= |s| && AllWhite(s[..i]) && AllWhite(s[j..])
    && (i < j ==> !IsWhitespace(s[i]) && !IsWhitespace(s[j - 1]))
  }

  lemma {:induction false} TrimStartIs(s: string) returns (i: nat)
    ensures i <= |s| && TrimStart(s) == s[i..] && AllWhite(s[..i]) && (i < |s| ==> !IsWhitespace(s[i]))
  {
    if s == "" || !IsWhitespace(s[0]) {
      i := 0;
    } else {
      var k := TrimStartIs(s[1..]);
      i := k + 1;
      assert s[1..][k..] == s[i..];
      forall j | 0 <= j < i ensures IsWhitespace(s[..i][j]) {
        if j > 0 {
          assert s[1..][..k][j - 1] == s[j];
        }
      }
    }
  }

  lemma {:induction false} TrimEndIs(s: string) returns (j: nat)
    ensures j <= |s| && TrimEnd(s) == s[..j] && AllWhite(s[j..]) && (0 < j ==> !IsWhitespace(s[j - 1]))
  {
    if s == "" || !IsWhitespace(s[|s| - 1]) {
      j := |s|;
      assert s[..j] == s;
    } else {
      var n := |s| - 1;
      j := TrimEndIs(s[..n]);
      assert s[..n][..j] == s[..j];
      assert s[j..] == s[..n][j..] + [s[n]];
    }
  }

  lemma TrimIs(s: string) returns (i: nat, j: nat)
    ensures IsCore(s, i, j) && Trim(s) == s[i..j]
  {
    i := TrimStartIs(s);
    var k := TrimEndIs(s[i..]);
    j := i + k;
    assert s[i..][..k] == s[i..j] && s[i..][k..] == s[j..];
  }

  lemma WhiteOutside(s: string, i: nat, j: nat, k: nat)
    requires IsCore(s, i, j) && k < |s| && (k < i || j <= k)
    ensures IsWhitespace(s[k])
  {
    if k < i {
      assert s[..i][k] == s[k];
    } else {
      assert s[j..][k - j] == s[k];
    }
  }

  lemma CoreUnique(s: string, i: nat, j: nat, k: nat, l: nat)
    requires IsCore(s, i, j) && IsCore(s, k, l)
    ensures s[i..j] == s[k..l]
  {
    if i < j {
      CoreInside(s, i, j, k, l);
    }
    if k < l {
      CoreInside(s, k, l, i, j);
    }
  }

  lemma CoreInside(s: string, i: nat, j: nat, k: nat, l: nat)
    requires IsCore(s, i, j) && IsCore(s, k, l) && i < j
    ensures k <= i && j <= l
  {
    var last: nat := j - 1;
    if i < k || l <= i {
      WhiteOutside(s, k, l, i);
    } else if last < k || l <= last {
      WhiteOutside(s, k, l, last);
    }
  }

  /** Trimming gives the core of a text. */
  lemma TrimIff(s: string, t: string)
    ensures Trim(s) == t <==> (exists i: nat, j: nat :: IsCore(s, i, j) && s[i..j] == t)
  {
    var i, j := TrimIs(s);
    if k: nat, l: nat :| IsCore(s, k, l) && s[k..l] == t {
      CoreUnique(s, i, j, k, l);
    }
  }

  // ----- the same character by character, by code point -----

  lemma WhitespaceIs(c: char)
    ensures IsWhitespace(c) == (c as int in {
       0x09, 0x0A, 0x0B, 0x0C, 0x0D, 0x20, 0x85, 0xA0, 0x1680, 0x2000, 0x2001, 0x2002, 0x2003, 0x2004, 0x2005, 0x2006,
       0x2007, 0x2008, 0x2009, 0x200A, 0x2028, 0x2029, 0x202F, 0x205F, 0x3000})
    ensures IsAsciiWhitespace(c) <==> c as int in {0x09, 0x0A, 0x0C, 0x0D, 0x20}
    ensures IsJsonWhitespace(c) <==> c as int in {0x09, 0x0A, 0x0D, 0x20}
  {
    assert '\t' as int == 0x09 && '\n' as int == 0x0A && '\r' as int == 0x0D && ' ' as int == 0x20;
  }

  const UPPER: string := "ABCDEFGHIJKLMNOPQRSTUVWXYZ"
  const LOWER: string := "abcdefghijklmnopqrstuvwxyz"

  /** Lower-casing takes each capital letter to its small one and leaves every other character. */
  lemma LowerIs(c: char)
    ensures forall k :: 0 <= k < 26 && c == UPPER[k] ==> AsciiLowerChar(c) == LOWER[k]
    ensures c !in UPPER ==> AsciiLowerChar(c) == c
  {
    if 'A' <= c <= 'Z' {
      assert UPPER[c as int - 'A' as int] == c;
    }
  }

  /** The bytes of a scalar value in UTF-8, RFC 3629 section 3. */
  ghost predicate IsUtf8(bytes: seq<nat>, c: char) {
    var v := c as int;
    && (forall i :: 1 <= i < |bytes| ==> 0x80 <= bytes[i] <= 0xBF)
    && match |bytes|
       case 1 => bytes[0] <= 0x7F && v == bytes[0]
       case 2 => 0xC0 <= bytes[0] <= 0xDF && v == (bytes[0] - 0xC0) * 0x40 + (bytes[1] - 0x80) && v >= 0x80
       case 3 =>
         && 0xE0 <= bytes[0] <= 0xEF && v >= 0x800
         && v == (bytes[0] - 0xE0) * 0x1000 + (bytes[1] - 0x80) * 0x40 + (bytes[2] - 0x80)
       case 4 =>
         && 0xF0 <= bytes[0] <= 0xF7 && v >= 0x10000
         && v == (bytes[0] - 0xF0) * 0x40000 + (bytes[1] - 0x80) * 0x1000 + (bytes[2] - 0x80) * 0x40 + (bytes[3] - 0x80)
       case _ => false
  }

  lemma Sixtyfour(v: nat)
    ensures v == v / 0x40 * 0x40 + v % 0x40 && v % 0x40 < 0x40
  {
  }

  lemma Utf8Exists(c: char) returns (bytes: seq<nat>)
    ensures IsUtf8(bytes, c)
  {
    var v := c as int;
    var a, b := v / 0x40, v / 0x40 / 0x40;
    Sixtyfour(v);
    Sixtyfour(a);
    Sixtyfour(b);
    if v < 0x80 {
      bytes := [v];
    } else if v < 0x800 {
      bytes := [0xC0 + a, 0x80 + v % 0x40];
    } else if v < 0x10000 {
      bytes := [0xE0 + b, 0x80 + a % 0x40, 0x80 + v % 0x40];
    } else {
      bytes := [0xF0 + b / 0x40, 0x80 + b % 0x40, 0x80 + a % 0x40, 0x80 + v % 0x40];
    }
  }

  /** A scalar value has an encoding, and every encoding of it is as long as is counted. */
  lemma Utf8WidthIs(c: char)
    ensures exists bytes :: IsUtf8(bytes, c)
    ensures forall bytes :: IsUtf8(bytes, c) ==> |bytes| == Utf8Width(c)
  {
    var bytes := Utf8Exists(c);
  }

  /** The concatenation of the pieces in which a text arrives. */
  function Join(chunks: seq<string>): string {
    if chunks == [] then "" else chunks[0] + Join(chunks[1..])
  }

  lemma {:induction false} JoinSnoc(chunks: seq<string>, last: string)
    ensures Join(chunks + [last]) == Join(chunks) + last
  {
    if chunks == [] {
      assert chunks + [last] == [last];
      assert [last][1..] == [];
      assert last + "" == last;
    } else {
      assert (chunks + [last])[1..] == chunks[1..] + [last];
      JoinSnoc(chunks[1..], last);
    }
  }
}
