/**
  JSON strings as RFC 8259 section 7 lets them be written, by code point, and what the readers make of them.
 */
module JsonWriters {
  import opened Wrappers
  import opened Text
  import J = JsonText
  import S = SummaryArguments
  import D = SummaryDocuments

  const QUOTE: nat := 0x22
  const BACKSLASH: nat := 0x5C

  /** The letters of the two-character escapes and the code points they stand for. */
  const ESCAPES: seq<(char, nat)> :=
    [('"', 0x22), ('\\', 0x5C), ('/', 0x2F), ('b', 0x08), ('f', 0x0C), ('n', 0x0A), ('r', 0x0D), ('t', 0x09)]

  const LOWER_DIGITS: string := "0123456789abcdef"
  const UPPER_DIGITS: string := "0123456789ABCDEF"

  predicate IsDigit(c: char, n: nat) {
    n < 16 && (c == LOWER_DIGITS[n] || c == UPPER_DIGITS[n])
  }

  /** Four hexadecimal digits in any case, most significant first. */
  ghost predicate IsNumber(d: string, v: nat) {
    && |d| == 4
    && exists a: nat, b: nat, c: nat, e: nat ::
         IsDigit(d[0], a) && IsDigit(d[1], b) && IsDigit(d[2], c) && IsDigit(d[3], e) && v == a * 0x1000 + b * 0x100 + c * 0x10 + e
  }

  predicate WritesRaw(t: string, c: char) {
    t == [c] && c as int >= 0x20 && c as int != QUOTE && c as int != BACKSLASH
  }

  predicate WritesShort(t: string, c: char) {
    exists k :: 0 <= k < |ESCAPES| && t == [BACKSLASH as char, ESCAPES[k].0] && c as int == ESCAPES[k].1
  }

  ghost predicate WritesUnit(t: string, v: nat) {
    |t| == 6 && t[..2] == "\\u" && IsNumber(t[2..], v)
  }

  /** A character outside the first plane, as a high and a low surrogate. */
  ghost predicate WritesPair(t: string, c: char) {
    && |t| == 12 && c as int >= 0x10000
    && WritesUnit(t[..6], 0xD800 + (c as int - 0x10000) / 0x400)
    && WritesUnit(t[6..], 0xDC00 + (c as int - 0x10000) % 0x400)
  }

  /** The text is one way of writing the character. */
  ghost predicate Writes(t: string, c: char) {
    WritesRaw(t, c) || WritesShort(t, c) || WritesUnit(t, c as int) || WritesPair(t, c)
  }

  /** Every character of the string is written by one of the texts, in order. */
  ghost predicate WritesAll(ts: seq<string>, s: string) {
    |ts| == |s| && forall i :: 0 <= i < |s| ==> Writes(ts[i], s[i])
  }

  // ----- the digits and letters -----

  lemma DigitIff(c: char, n: nat)
    ensures IsDigit(c, n) <==> J.HexDigit(c) == Some(n)
  {
    if '0' <= c <= '9' {
      assert LOWER_DIGITS[c as int - '0' as int] == c;
    } else if 'a' <= c <= 'f' {
      assert LOWER_DIGITS[c as int - 'a' as int + 10] == c;
    } else if 'A' <= c <= 'F' {
      assert UPPER_DIGITS[c as int - 'A' as int + 10] == c;
    }
  }

  lemma NumberIff(d: string, v: nat)
    ensures IsNumber(d, v) <==> J.Hex(d).Valid() && J.HexValue(d) == v
  {
    if J.Hex(d).Valid() {
      ValidIsNumber(d);
    }
    if IsNumber(d, v) {
      var a: nat, b: nat, c: nat, e: nat :|
        IsDigit(d[0], a) && IsDigit(d[1], b) && IsDigit(d[2], c) && IsDigit(d[3], e) && v == a * 0x1000 + b * 0x100 + c * 0x10 + e;
      DigitsValue(d, a, b, c, e);
    }
  }

  lemma DigitsValue(d: string, a: nat, b: nat, c: nat, e: nat)
    requires |d| == 4 && IsDigit(d[0], a) && IsDigit(d[1], b) && IsDigit(d[2], c) && IsDigit(d[3], e)
    ensures J.Hex(d).Valid() && J.HexValue(d) == a * 0x1000 + b * 0x100 + c * 0x10 + e
  {
    DigitIff(d[0], a);
    DigitIff(d[1], b);
    DigitIff(d[2], c);
    DigitIff(d[3], e);
  }

  lemma ValidIsNumber(d: string)
    requires J.Hex(d).Valid()
    ensures IsNumber(d, J.HexValue(d))
    ensures J.HexValue(d) == J.HexDigit(d[0]).value * 0x1000 + J.HexDigit(d[1]).value * 0x100
      + J.HexDigit(d[2]).value * 0x10 + J.HexDigit(d[3]).value
  {
    forall i | 0 <= i < 4 ensures IsDigit(d[i], J.HexDigit(d[i]).value) {
      DigitIff(d[i], J.HexDigit(d[i]).value);
    }
  }

  /** A short escape means what the table says, and nothing else is one. */
  lemma ShortIff(letter: char, c: char)
    ensures J.ShortMeaning(letter) == Some(c) <==> WritesShort([BACKSLASH as char, letter], c)
  {
    if k :| 0 <= k < |ESCAPES| && [BACKSLASH as char, letter] == [BACKSLASH as char, ESCAPES[k].0] && c as int == ESCAPES[k].1 {
      assert letter == [BACKSLASH as char, letter][1] == ESCAPES[k].0;
    }
    if J.ShortMeaning(letter) == Some(c) {
      var k := Row(letter);
      assert letter == ESCAPES[k].0 && c as int == ESCAPES[k].1;
    }
  }

  function Row(letter: char): (k: nat)
    ensures J.ShortMeaning(letter).Some? ==> k < |ESCAPES| && ESCAPES[k].0 == letter
  {
    match letter
    case '"' => 0 case '\\' => 1 case '/' => 2 case 'b' => 3 case 'f' => 4 case 'n' => 5 case 'r' => 6 case 't' => 7 case _ => 8
  }

  // ----- reading what was written -----

  lemma UnitIff(t: string, v: nat)
    ensures WritesUnit(t, v) <==> |t| == 6 && J.Hex(t[2..]).Valid() && t == J.Hex(t[2..]).Spell() && J.HexValue(t[2..]) == v
  {
    if |t| == 6 {
      NumberIff(t[2..], v);
      assert t == t[..2] + t[2..];
      assert J.Hex(t[2..]).Spell() == ['\\', 'u'] + t[2..];
      assert J.Hex(t[2..]).Spell()[..2] == ['\\', 'u'];
    }
  }

  lemma Halves(c: char)
    requires c as int >= 0x10000
    ensures var v := c as int - 0x10000;
      && 0xD800 <= 0xD800 + v / 0x400 <= 0xDBFF && 0xDC00 <= 0xDC00 + v % 0x400 <= 0xDFFF
      && J.Combine(0xD800 + v / 0x400, 0xDC00 + v % 0x400) == c
  {
    var v := c as int - 0x10000;
    assert v / 0x400 < 0x400 && v / 0x400 * 0x400 + v % 0x400 == v;
  }

  lemma UnitPiece(t: string, v: nat) returns (p: J.Piece)
    requires WritesUnit(t, v)
    ensures p.Hex? && p.Valid() && p.Spell() == t && J.HexValue(p.digits) == v
  {
    UnitIff(t, v);
    p := J.Hex(t[2..]);
  }

  lemma UnitsDecode(x: string, y: string, c: char, rest: string)
    requires c as int >= 0x10000
    requires WritesUnit(x, 0xD800 + (c as int - 0x10000) / 0x400) && WritesUnit(y, 0xDC00 + (c as int - 0x10000) % 0x400)
    ensures J.DecodeString(x + (y + rest)) == J.Prepend(c, J.DecodeString(rest))
  {
    Halves(c);
    var a := UnitPiece(x, 0xD800 + (c as int - 0x10000) / 0x400);
    var b := UnitPiece(y, 0xDC00 + (c as int - 0x10000) % 0x400);
    J.DecodePair(a, b, rest);
  }

  lemma PairDecodes(t: string, c: char, rest: string)
    requires WritesPair(t, c)
    ensures J.DecodeString(t + rest) == J.Prepend(c, J.DecodeString(rest))
  {
    UnitsDecode(t[..6], t[6..], c, rest);
    Associate(t[..6], t[6..], rest);
    assert t == t[..6] + t[6..];
  }

  lemma Associate(a: string, b: string, c: string)
    ensures (a + b) + c == a + (b + c)
  {
  }

  /** One written character in front of any text. */
  lemma FirstDecodes(t: string, c: char, rest: string)
    requires Writes(t, c)
    ensures J.DecodeString(t + rest) == J.Prepend(c, J.DecodeString(rest))
  {
    if WritesRaw(t, c) {
      J.DecodeSingle(J.Raw(c), rest);
    } else if WritesShort(t, c) {
      ShortIff(t[1], c);
      J.DecodeSingle(J.Short(t[1]), rest);
    } else if WritesUnit(t, c as int) {
      UnitIff(t, c as int);
      J.DecodeSingle(J.Hex(t[2..]), rest);
    } else {
      PairDecodes(t, c, rest);
    }
  }

  /** However a string is written, its decoder reads that string. */
  lemma {:induction false} WrittenDecodes(ts: seq<string>, s: string)
    requires WritesAll(ts, s)
    ensures J.DecodeString(Join(ts)) == Some(s)
  {
    if s != "" {
      assert Writes(ts[0], s[0]);
      WrittenDecodes(ts[1..], s[1..]);
      FirstDecodes(ts[0], s[0], Join(ts[1..]));
      assert [s[0]] + s[1..] == s;
    }
  }

  lemma PieceWritten(p: J.Piece)
    requires p.Valid() && !p.IsHigh() && p.Alone().Some?
    ensures Writes(p.Spell(), p.Alone().value)
  {
    match p {
      case Raw(c) =>
      case Short(letter) => ShortIff(letter, p.Alone().value);
      case Hex(digits) => UnitSpelled(digits);
    }
  }

  lemma UnitSpelled(digits: string)
    requires J.Hex(digits).Valid()
    ensures WritesUnit(J.Hex(digits).Spell(), J.HexValue(digits))
  {
    assert J.Hex(digits).Spell()[2..] == digits;
    UnitIff(J.Hex(digits).Spell(), J.HexValue(digits));
  }

  lemma PairWritten(a: J.Piece, b: J.Piece)
    requires a.IsHigh() && b.IsLow()
    ensures Writes(a.Spell() + b.Spell(), J.Combine(J.HexValue(a.digits), J.HexValue(b.digits)))
  {
    var t := a.Spell() + b.Spell();
    assert t[..6] == a.Spell() && t[6..] == b.Spell();
    UnitSpelled(a.digits);
    UnitSpelled(b.digits);
    Rejoined(J.HexValue(a.digits) - 0xD800, J.HexValue(b.digits) - 0xDC00);
    assert WritesPair(t, J.Combine(J.HexValue(a.digits), J.HexValue(b.digits)));
  }

  lemma Rejoined(high: nat, low: nat)
    requires low < 0x400
    ensures (high * 0x400 + low) / 0x400 == high && (high * 0x400 + low) % 0x400 == low
  {
  }

  lemma PairFirst(p: seq<J.Piece>)
    requires p != [] && J.AllValid(p) && p[0].IsHigh() && J.Meaning(p).Some?
    ensures |p| >= 2 && p[1].IsLow() && J.Meaning(p[2..]).Some?
    ensures J.Meaning(p).value == [J.Combine(J.HexValue(p[0].digits), J.HexValue(p[1].digits))] + J.Meaning(p[2..]).value
  {
  }

  lemma PairSpelling(p: seq<J.Piece>)
    requires |p| >= 2
    ensures J.Spelling(p) == (p[0].Spell() + p[1].Spell()) + J.Spelling(p[2..])
  {
    assert p[1..][1..] == p[2..];
    Associate(p[0].Spell(), p[1].Spell(), J.Spelling(p[2..]));
  }

  lemma SingleFirst(p: seq<J.Piece>)
    requires p != [] && J.AllValid(p) && !p[0].IsHigh() && J.Meaning(p).Some?
    ensures p[0].Alone().Some? && J.Meaning(p[1..]).Some?
    ensures J.Meaning(p).value == [p[0].Alone().value] + J.Meaning(p[1..]).value
    ensures J.Spelling(p) == p[0].Spell() + J.Spelling(p[1..])
  {
  }

  /** The first written character of a spelling that has a meaning. */
  lemma FirstWritten(p: seq<J.Piece>) returns (t: string, n: nat)
    requires p != [] && J.AllValid(p) && J.Meaning(p).Some?
    ensures 0 < n <= |p| && J.Spelling(p) == t + J.Spelling(p[n..])
    ensures J.Meaning(p[n..]).Some? && J.Meaning(p).value != ""
    ensures J.Meaning(p).value[1..] == J.Meaning(p[n..]).value && Writes(t, J.Meaning(p).value[0])
  {
    if p[0].IsHigh() {
      PairFirst(p);
      PairSpelling(p);
      PairWritten(p[0], p[1]);
      t, n := p[0].Spell() + p[1].Spell(), 2;
    } else {
      SingleFirst(p);
      PieceWritten(p[0]);
      t, n := p[0].Spell(), 1;
    }
  }

  lemma {:induction false} MeaningWritten(p: seq<J.Piece>) returns (ts: seq<string>)
    requires J.AllValid(p) && J.Meaning(p).Some?
    ensures Join(ts) == J.Spelling(p) && WritesAll(ts, J.Meaning(p).value)
    decreases |p|
  {
    if p == [] {
      return [];
    }
    var t, n := FirstWritten(p);
    var later := MeaningWritten(p[n..]);
    ts := [t] + later;
    assert ts[1..] == later;
    OneMoreWritten(t, later, J.Meaning(p).value);
  }

  lemma OneMoreWritten(t: string, later: seq<string>, s: string)
    requires s != "" && Writes(t, s[0]) && WritesAll(later, s[1..])
    ensures WritesAll([t] + later, s)
  {
    var ts := [t] + later;
    forall i | 0 <= i < |s| ensures Writes(ts[i], s[i]) {
      if i > 0 {
        assert ts[i] == later[i - 1] && s[i] == s[1..][i - 1];
      }
    }
  }

  /** And it reads nothing else: what it accepts is some way of writing what it reads. */
  lemma DecodedIsWritten(t: string) returns (ts: seq<string>)
    requires J.DecodeString(t).Some?
    ensures Join(ts) == t && WritesAll(ts, J.DecodeString(t).value)
  {
    var p := J.DecodableIsSpelling(t);
    ts := MeaningWritten(p);
  }

  // ----- what comes out of the two streams -----

  /** However the first summary of an object is written, the parser of the summary emits that string. */
  lemma SummaryWritten(before: string, inside: string, ms: seq<D.Member>, rest: string, k: nat, ts: seq<string>, s: string)
    requires JsonBlank(before) && JsonBlank(inside) && D.AllMembers(ms)
    requires D.FirstSummary(ms, k) && J.Spelling(ms[k].value.pieces) == Join(ts) && WritesAll(ts, s)
    ensures S.Run(S.INIT, D.ObjectText(before, inside, ms, rest)).text == s
  {
    assert ms[k].Valid();
    J.DecodeSpelling(ms[k].value.pieces);
    WrittenDecodes(ts, s);
    D.SummaryRoundTrip(before, inside, ms, rest, k);
  }

  // ----- a writer -----

  /** What serde_json writes for a character: short escapes where there is one, `\u00XX` for the other control characters. */
  function Serialized(c: char): string {
    if c as int == 0x22 then "\\\""
    else if c as int == 0x5C then "\\\\"
    else if c as int == 0x08 then "\\b"
    else if c as int == 0x09 then "\\t"
    else if c as int == 0x0A then "\\n"
    else if c as int == 0x0C then "\\f"
    else if c as int == 0x0D then "\\r"
    else if c as int < 0x20 then "\\u00" + [LOWER_DIGITS[c as int / 16], LOWER_DIGITS[c as int % 16]]
    else [c]
  }

  function SerializedAll(s: string): (ts: seq<string>)
    ensures |ts| == |s| && forall i :: 0 <= i < |s| ==> ts[i] == Serialized(s[i])
  {
    if s == "" then [] else [Serialized(s[0])] + SerializedAll(s[1..])
  }

  lemma SerializedWrites(c: char)
    ensures Writes(Serialized(c), c)
  {
    var t, v := Serialized(c), c as int;
    if v in {0x22, 0x5C, 0x08, 0x09, 0x0A, 0x0C, 0x0D} {
      var k := if v == 0x22 then 0 else if v == 0x5C then 1 else if v == 0x08 then 3 else if v == 0x0C then 4
        else if v == 0x0A then 5 else if v == 0x0D then 6 else 7;
      assert t == [BACKSLASH as char, ESCAPES[k].0] && v == ESCAPES[k].1;
    } else if v < 0x20 {
      assert t[2..] == ['0', '0', LOWER_DIGITS[v / 16], LOWER_DIGITS[v % 16]];
      assert IsDigit(t[2..][0], 0) && IsDigit(t[2..][1], 0) && IsDigit(t[2..][2], v / 16) && IsDigit(t[2..][3], v % 16);
      assert IsNumber(t[2..], v);
    }
  }

  /** Writing a string and decoding it gives it back. */
  lemma SerializedRoundTrip(s: string)
    ensures J.DecodeString(Join(SerializedAll(s))) == Some(s)
  {
    forall i | 0 <= i < |s| ensures Writes(SerializedAll(s)[i], s[i]) {
      SerializedWrites(s[i]);
    }
    WrittenDecodes(SerializedAll(s), s);
  }
}
