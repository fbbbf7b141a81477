/**
  The inside of a JSON string, RFC 8259 section 7: plain characters, two-character escapes and `\uXXXX` escapes,
  where a pair of surrogate escapes stands for one scalar value (RFC 2781 section 2.2).
 */
module JsonText {
  import opened Wrappers
  import opened Text

  /** One way of writing (half of) a character. */
  datatype Piece =
    | Raw(c: char)
    | Short(letter: char)
    | Hex(digits: string)
  {
    predicate Valid() {
      match this
      case Raw(c) => c as int >= 0x20 && c != '"' && c != '\\'
      case Short(letter) => ShortMeaning(letter).Some?
      case Hex(digits) => |digits| == 4 && forall i :: 0 <= i < 4 ==> HexDigit(digits[i]).Some?
    }

    function Spell(): string {
      match this
      case Raw(c) => [c]
      case Short(letter) => ['\\', letter]
      case Hex(digits) => ['\\', 'u'] + digits
    }

    predicate IsHigh() {
      Hex? && Valid() && 0xD800 <= HexValue(digits) <= 0xDBFF
    }

    predicate IsLow() {
      Hex? && Valid() && 0xDC00 <= HexValue(digits) <= 0xDFFF
    }

    /** The character written by this piece alone; surrogate escapes write none. */
    function Alone(): Option<char>
      requires Valid()
    {
      match this
      case Raw(c) => Some(c)
      case Short(letter) => ShortMeaning(letter)
      case Hex(digits) => CharOf(HexValue(digits))
    }
  }

  function ShortMeaning(letter: char): Option<char> {
    match letter
    case '"' => Some('"')
    case '\\' => Some('\\')
    case '/' => Some('/')
    case 'b' => Some(8 as char)
    case 'f' => Some(12 as char)
    case 'n' => Some('\n')
    case 'r' => Some('\r')
    case 't' => Some('\t')
    case _ => None
  }

  /** `char::to_digit(16)` */
  function HexDigit(c: char): (d: Option<nat>)
    ensures d.Some? ==> d.value < 16
  {
    if '0' <= c <= '9' then Some(c as int - '0' as int)
    else if 'a' <= c <= 'f' then Some(c as int - 'a' as int + 10)
    else if 'A' <= c <= 'F' then Some(c as int - 'A' as int + 10)
    else None
  }

  function HexValue(digits: string): (v: nat)
    requires |digits| == 4 && forall i :: 0 <= i < 4 ==> HexDigit(digits[i]).Some?
    ensures v < 0x10000
  {
    Nibbles([HexDigit(digits[0]).value, HexDigit(digits[1]).value,
             HexDigit(digits[2]).value, HexDigit(digits[3]).value])
  }

  /** The 16-bit number with the given hexadecimal digits, most significant first. */
  function Nibbles(d: seq<nat>): (v: nat)
    requires |d| == 4 && forall i :: 0 <= i < 4 ==> d[i] < 16
    ensures v < 0x10000
  {
    ((d[0] * 16 + d[1]) * 16 + d[2]) * 16 + d[3]
  }

  /** `char::from_u32` */
  function CharOf(v: nat): Option<char> {
    if v < 0xD800 || 0xE000 <= v < 0x110000 then Some(v as char) else None
  }

  /** The scalar value of a surrogate pair, RFC 2781 section 2.2. */
  function Combine(high: nat, low: nat): (c: char)
    requires 0xD800 <= high <= 0xDBFF && 0xDC00 <= low <= 0xDFFF
    ensures c as int >= 0x10000
  {
    (0x10000 + (high - 0xD800) * 0x400 + (low - 0xDC00)) as char
  }

  predicate AllValid(p: seq<Piece>) {
    forall i :: 0 <= i < |p| ==> p[i].Valid()
  }

  function Spelling(p: seq<Piece>): string {
    if p == [] then "" else p[0].Spell() + Spelling(p[1..])
  }

  /** The string a sequence of pieces denotes, or None when a surrogate escape has no partner. */
  function Meaning(p: seq<Piece>): Option<string>
    requires AllValid(p)
  {
    if p == [] then Some("")
    else if p[0].IsHigh() then
      if |p| >= 2 && p[1].IsLow() then
        Prepend(Combine(HexValue(p[0].digits), HexValue(p[1].digits)), Meaning(p[2..]))
      else None
    else
      match p[0].Alone()
      case None => None
      case Some(c) => Prepend(c, Meaning(p[1..]))
  }

  function Prepend(c: char, rest: Option<string>): Option<string> {
    if rest.None? then None else Some([c] + rest.value)
  }

  function HexLetter(d: nat): (c: char)
    requires d < 16
    ensures HexDigit(c) == Some(d)
  {
    if d < 10 then (d + '0' as int) as char else (d - 10 + 'a' as int) as char
  }

  /** The spelling a JSON writer chooses: escapes only where RFC 8259 section 7 demands them. */
  function Escape(c: char): (p: Piece)
    ensures p.Valid() && !p.IsHigh() && p.Alone() == Some(c)
  {
    var v := c as int;
    if c == '"' || c == '\\' then Short(c)
    else if v >= 0x20 then Raw(c)
    else
      var d := ['0', '0', HexLetter(v / 16), HexLetter(v % 16)];
      assert HexDigit('0') == Some(0);
      assert HexValue(d) == v;
      Hex(d)
  }

  function EscapeAll(s: string): (p: seq<Piece>)
    ensures AllValid(p)
  {
    if s == "" then [] else [Escape(s[0])] + EscapeAll(s[1..])
  }

  /** Every string is the meaning of at least one spelling. */
  lemma {:induction false} EscapeAllMeans(s: string)
    ensures Meaning(EscapeAll(s)) == Some(s)
  {
    if s != "" {
      EscapeAllMeans(s[1..]);
      assert EscapeAll(s)[1..] == EscapeAll(s[1..]);
      assert [s[0]] + s[1..] == s;
    }
  }

  /**
    What serde_json makes of the text between the quotes of a string token: None stands for its parse errors
    (a bare quote or control character, an unknown or unfinished escape, a surrogate without a partner).
   */
  function DecodeString(t: string): Option<string> {
    if t == "" then Some("")
    else if t[0] == '\\' then
      if |t| < 2 then None
      else if t[1] == 'u' then
        match HexPrefix(t[2..])
        case None => None
        case Some(v) =>
          if 0xD800 <= v <= 0xDBFF then
            if |t| >= 8 && t[6] == '\\' && t[7] == 'u' then
              match HexPrefix(t[8..])
              case None => None
              case Some(w) =>
                if 0xDC00 <= w <= 0xDFFF then Prepend(Combine(v, w), DecodeString(t[12..])) else None
            else None
          else
            match CharOf(v)
            case None => None
            case Some(c) => Prepend(c, DecodeString(t[6..]))
      else
        match ShortMeaning(t[1])
        case None => None
        case Some(c) => Prepend(c, DecodeString(t[2..]))
    else if t[0] == '"' || t[0] as int < 0x20 then None
    else Prepend(t[0], DecodeString(t[1..]))
  }

  function HexPrefix(t: string): (v: Option<nat>)
    ensures v.Some? ==> |t| >= 4 && v.value < 0x10000
  {
    if |t| >= 4 && forall i :: 0 <= i < 4 ==> HexDigit(t[i]).Some? then Some(HexValue(t[..4])) else None
  }

  lemma DecodeHex(digits: string, rest: string)
    requires Hex(digits).Valid()
    ensures var t := Hex(digits).Spell() + rest;
      && HexPrefix(t[2..]) == Some(HexValue(digits))
      && t[6..] == rest && |t| >= 6 && t[0] == '\\' && t[1] == 'u'
  {
    var t := Hex(digits).Spell() + rest;
    assert t[2..] == digits + rest;
    assert t[2..][..4] == digits;
    forall i | 0 <= i < 4 ensures HexDigit(t[2..][i]).Some? { assert t[2..][i] == digits[i]; }
  }

  lemma DecodeSingle(p: Piece, rest: string)
    requires p.Valid() && !p.IsHigh()
    ensures DecodeString(p.Spell() + rest) == if p.Alone().None? then None else Prepend(p.Alone().value, DecodeString(rest))
  {
    var t := p.Spell() + rest;
    match p {
      case Raw(c) => assert t[1..] == rest;
      case Short(letter) =>
        DecodeShort(t);
        assert t[2..] == rest;
      case Hex(digits) => DecodeHex(digits, rest);
    }
  }

  lemma DecodeShort(t: string)
    requires |t| >= 2 && t[0] == '\\' && ShortMeaning(t[1]).Some?
    ensures DecodeString(t) == Prepend(ShortMeaning(t[1]).value, DecodeString(t[2..]))
  {
  }

  lemma DecodePair(p: Piece, q: Piece, rest: string)
    requires p.IsHigh() && q.Valid()
    ensures DecodeString(p.Spell() + (q.Spell() + rest)) ==
      if q.IsLow() then Prepend(Combine(HexValue(p.digits), HexValue(q.digits)), DecodeString(rest)) else None
  {
    var u := q.Spell() + rest;
    var t := p.Spell() + u;
    DecodeHex(p.digits, u);
    assert t[6..] == u;
    if q.Hex? {
      DecodeHex(q.digits, rest);
      assert t[8..] == u[2..];
      assert t[12..] == rest;
    } else {
      assert t[6] == u[0];
      assert q.Short? ==> t[7] == u[1];
    }
  }

  /** The decoder computes the meaning of every spelling, and rejects exactly those without a meaning. */
  lemma {:induction false} DecodeSpelling(p: seq<Piece>)
    requires AllValid(p)
    ensures DecodeString(Spelling(p)) == Meaning(p)
    decreases |p|
  {
    if p == [] {
    } else if !p[0].IsHigh() {
      DecodeSingle(p[0], Spelling(p[1..]));
      DecodeSpelling(p[1..]);
    } else if |p| == 1 {
      assert p[1..] == [];
      assert Spelling(p) == p[0].Spell();
    } else {
      assert p[1..][1..] == p[2..];
      assert Spelling(p) == p[0].Spell() + (p[1].Spell() + Spelling(p[2..]));
      DecodePair(p[0], p[1], Spelling(p[2..]));
      DecodeSpelling(p[2..]);
    }
  }

  lemma SpellingOne(p: Piece)
    ensures Spelling([p]) == p.Spell()
  {
    assert [p][1..] == [];
    assert p.Spell() + "" == p.Spell();
  }

  lemma SpellingTwo(p: Piece, q: Piece)
    ensures Spelling([p, q]) == p.Spell() + q.Spell()
  {
    assert [p, q][1..] == [q];
    SpellingOne(q);
  }

  /** The first one or two pieces of a text the decoder accepts. */
  lemma Head(t: string) returns (h: seq<Piece>, rest: string)
    requires t != "" && DecodeString(t).Some?
    ensures AllValid(h) && Spelling(h) + rest == t && |rest| < |t|
    ensures DecodeString(rest).Some?
  {
    if t[0] != '\\' {
      h, rest := [Raw(t[0])], t[1..];
      SpellingOne(h[0]);
    } else if t[1] != 'u' {
      h, rest := [Short(t[1])], t[2..];
      SpellingOne(h[0]);
    } else {
      h, rest := HexHead(t);
    }
  }

  lemma HexHead(t: string) returns (h: seq<Piece>, rest: string)
    requires |t| >= 2 && t[..2] == ['\\', 'u'] && DecodeString(t).Some?
    ensures AllValid(h) && Spelling(h) + rest == t && |rest| < |t|
    ensures DecodeString(rest).Some?
  {
    var p := Hex(t[2..][..4]);
    assert p.Spell() == t[..6];
    if 0xD800 <= HexPrefix(t[2..]).value <= 0xDBFF {
      var q := Hex(t[8..][..4]);
      assert q.Spell() == t[6..12];
      assert t[..6] + t[6..12] == t[..12];
      h, rest := [p, q], t[12..];
      SpellingTwo(p, q);
    } else {
      h, rest := [p], t[6..];
      SpellingOne(p);
    }
  }

  lemma {:induction false} SpellingConcat(p: seq<Piece>, q: seq<Piece>)
    ensures Spelling(p + q) == Spelling(p) + Spelling(q)
  {
    if p == [] {
      assert p + q == q;
    } else {
      assert (p + q)[1..] == p[1..] + q;
      SpellingConcat(p[1..], q);
    }
  }

  lemma {:induction false} DecodablePieces(t: string) returns (p: seq<Piece>)
    requires DecodeString(t).Some?
    ensures AllValid(p) && Spelling(p) == t
    decreases |t|
  {
    if t == "" {
      return [];
    }
    var h, rest := Head(t);
    var tail := DecodablePieces(rest);
    SpellingConcat(h, tail);
    return h + tail;
  }

  /** Everything the decoder accepts is the spelling of valid pieces, which mean what the decoder says. */
  lemma DecodableIsSpelling(t: string) returns (p: seq<Piece>)
    requires DecodeString(t).Some?
    ensures AllValid(p) && Spelling(p) == t && Meaning(p) == DecodeString(t)
  {
    p := DecodablePieces(t);
    DecodeSpelling(p);
  }
}
