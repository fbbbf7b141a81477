/** The summary of a whole object. */
module SummaryDocuments {
  // What `SummaryArgumentParser` extracts from a whole JSON object (RFC 8259 section 4), however it is split. The value of
  // a string is given by its UTF-16 code units, decoded as RFC 2781 section 2.2 says.

  import opened Wrappers
  import opened Text
  import opened JsonText
  import opened SummaryArguments

  predicate High(u: nat) { 0xD800 <= u <= 0xDBFF }
  predicate Low(u: nat) { 0xDC00 <= u <= 0xDFFF }

  function Utf16(c: char): seq<nat> {
    var v := c as int;
    if v < 0x10000 then [v] else [0xD800 + (v - 0x10000) / 0x400, 0xDC00 + (v - 0x10000) % 0x400]
  }

  function PieceUnits(p: Piece): seq<nat>
    requires p.Valid()
  {
    match p
    case Raw(c) => Utf16(c)
    case Short(letter) => Utf16(ShortMeaning(letter).value)
    case Hex(digits) => [HexValue(digits)]
  }

  function Units(p: seq<Piece>): seq<nat>
    requires AllValid(p)
  {
    if p == [] then [] else PieceUnits(p[0]) + Units(p[1..])
  }

  /** The usual lossy decoder: U+FFFD for every surrogate without a partner. */
  function LossyUtf16(u: seq<nat>): string {
    if u == [] then ""
    else if High(u[0]) && |u| >= 2 && Low(u[1]) then [Combine(u[0], u[1])] + LossyUtf16(u[2..])
    else (if CharOf(u[0]).Some? then [CharOf(u[0]).value] else [REPLACEMENT]) + LossyUtf16(u[1..])
  }

  /** The surrogates for which the parser emits nothing: a lone low one, and a lone high one at the very end. */
  function Dropped(u: seq<nat>): nat {
    if u == [] then 0
    else if High(u[0]) && |u| >= 2 && Low(u[1]) then Dropped(u[2..])
    else (if Low(u[0]) || (High(u[0]) && |u| == 1) then 1 else 0) + Dropped(u[1..])
  }

  /** What the parser emits for a value with these code units. */
  function Heard(u: seq<nat>): string {
    if u == [] then ""
    else if High(u[0]) then
      if |u| == 1 then ""
      else if Low(u[1]) then [Combine(u[0], u[1])] + Heard(u[2..])
      else [REPLACEMENT] + Heard(u[1..])
    else OptionalText(CharOf(u[0])) + Heard(u[1..])
  }

  predicate AllUnits(u: seq<nat>) {
    forall i :: 0 <= i < |u| ==> u[i] < 0x10000
  }

  /** The parser agrees with the lossy decoder exactly when no surrogate is dropped. */
  lemma {:induction false} HeardIsLossyIff(u: seq<nat>)
    requires AllUnits(u)
    ensures |LossyUtf16(u)| == |Heard(u)| + Dropped(u)
    ensures Heard(u) == LossyUtf16(u) <==> Dropped(u) == 0
    decreases |u|
  {
    if u == [] {
    } else if High(u[0]) && |u| >= 2 && Low(u[1]) {
      HeardIsLossyIff(u[2..]);
    } else {
      HeardIsLossyIff(u[1..]);
      if High(u[0]) && |u| == 1 {
        assert u[1..] == [];
      }
    }
  }

  lemma UnitsFit(p: seq<Piece>)
    requires AllValid(p)
    ensures AllUnits(Units(p))
  {
    if p != [] {
      UnitsFit(p[1..]);
    }
  }

  /** A spelling that denotes a string is heard as that string. */
  lemma {:induction false} HeardMeaning(p: seq<Piece>)
    requires AllValid(p) && Meaning(p).Some?
    ensures Heard(Units(p)) == Meaning(p).value
    decreases |p|
  {
    if p == [] {
    } else if p[0].IsHigh() {
      HeardMeaning(p[2..]);
      assert p[1..][1..] == p[2..];
      assert Units(p) == [HexValue(p[0].digits)] + ([HexValue(p[1].digits)] + Units(p[2..]));
      assert Units(p)[2..] == Units(p[2..]);
    } else {
      HeardMeaning(p[1..]);
      HeardChar(p[0], Units(p[1..]));
    }
  }

  lemma HeardChar(p: Piece, rest: seq<nat>)
    requires p.Valid() && !p.IsHigh() && p.Alone().Some?
    ensures Heard(PieceUnits(p) + rest) == [p.Alone().value] + Heard(rest)
  {
    var u := PieceUnits(p) + rest;
    if |PieceUnits(p)| == 1 {
      assert u[1..] == rest;
    } else {
      assert u[2..] == rest;
    }
  }

  // ----- running the parser over the inside of a value -----

  function Held(m: Machine): seq<nat> {
    if m.pendingHigh.Some? then [m.pendingHigh.value] else []
  }

  lemma HeardFirst(v: nat, rest: seq<nat>)
    requires v < 0x10000
    ensures !High(v) ==> Heard([v] + rest) == OptionalText(CharOf(v)) + Heard(rest)
  {
    assert ([v] + rest)[1..] == rest;
  }

  lemma HeardAfterHigh(high: nat, v: nat, rest: seq<nat>)
    requires High(high) && v < 0x10000
    ensures Heard([high, v] + rest) ==
      if Low(v) then [Combine(high, v)] + Heard(rest) else [REPLACEMENT] + Heard([v] + rest)
  {
    var u := [high, v] + rest;
    assert u[1..] == [v] + rest;
    assert u[2..] == rest;
  }

  /** One more code unit: the text it releases, then the rest. */
  lemma HeardUnit(m: Machine, v: nat, rest: seq<nat>)
    requires m.Valid() && v < 0x10000
    ensures var r := EmittedUnit(m, v);
      Heard(Held(m) + [v] + rest) == r.text + Heard(Held(r.machine) + rest)
  {
    assert [] + rest == rest;
    HeardFirst(v, rest);
    match m.pendingHigh {
      case None =>
        assert Held(m) + [v] + rest == [v] + rest;
      case Some(high) =>
        assert Held(m) + [v] + rest == [high, v] + rest;
        HeardAfterHigh(high, v, rest);
        assert ([REPLACEMENT] + OptionalText(CharOf(v))) + Heard(rest)
            == [REPLACEMENT] + (OptionalText(CharOf(v)) + Heard(rest));
    }
  }

  /** One more plain character. */
  lemma HeardPlain(m: Machine, c: char, rest: seq<nat>)
    requires m.Valid()
    ensures Heard(Held(m) + Utf16(c) + rest) == EmittedChar(m, c).text + Heard(rest)
  {
    var tail := Utf16(c) + rest;
    HeardChar(Raw0(c), rest);
    match m.pendingHigh {
      case None =>
        assert Held(m) + Utf16(c) + rest == tail;
      case Some(high) =>
        var u := Held(m) + Utf16(c) + rest;
        assert u[1..] == tail;
        assert Heard(u) == [REPLACEMENT] + Heard(tail);
        assert ([REPLACEMENT] + [c]) + Heard(rest) == [REPLACEMENT] + ([c] + Heard(rest));
    }
  }

  /** A piece that writes `c`, for any `c`. */
  function Raw0(c: char): (p: Piece)
    ensures p.Valid() && !p.IsHigh() && p.Alone() == Some(c) && PieceUnits(p) == Utf16(c)
  {
    Escape(c)
  }

  /** From a state in which reading `a` says nothing, only what follows `a` matters. */
  lemma Silent(m: Machine, a: string, b: string, m': Machine)
    requires m.Valid() && Run(m, a) == Outcome(m', "")
    ensures Run(m, a + b) == Run(m', b)
  {
    RunConcat(m, a, b);
    assert "" + Run(m', b).text == Run(m', b).text;
  }

  lemma SilentChar(m: Machine, c: char, b: string, m': Machine)
    requires m.Valid() && Step(m, c) == Outcome(m', "")
    ensures Run(m, [c] + b) == Run(m', b)
  {
    assert ([c] + b)[1..] == b;
    assert "" + Run(m', b).text == Run(m', b).text;
  }

  lemma RunOne(m: Machine, c: char)
    requires m.Valid()
    ensures Run(m, [c]) == Step(m, c)
  {
    assert [c][1..] == "";
    assert Run(Step(m, c).machine, "").text == "";
  }

  /** A backslash followed by one character. */
  lemma RunEscape(m: Machine, letter: char, escaped: Machine)
    requires m.Valid() && Step(m, '\\') == Outcome(escaped, "")
    ensures Run(m, ['\\', letter]) == Step(escaped, letter)
  {
    assert ['\\'] + [letter] == ['\\', letter];
    SilentChar(m, '\\', [letter], escaped);
    RunOne(escaped, letter);
  }

  /** The four digits of an escape leave the machine with their value. */
  lemma RunHex(m: Machine, digits: string)
    requires m.Valid() && m.phase == InValue && Hex(digits).Valid()
    ensures var r := Run(m, Hex(digits).Spell());
      var e := EmittedUnit(m, HexValue(digits));
      r.text == e.text && r.machine.phase == InValue && r.machine.pendingHigh == e.machine.pendingHigh
  {
    var m1 := m.(phase := Escaped);
    var m2 := m.(phase := Unicode, unicodeIndex := 0);
    assert Hex(digits).Spell() == ['\\'] + (['u'] + digits);
    SilentChar(m, '\\', ['u'] + digits, m1);
    SilentChar(m1, 'u', digits, m2);
    RunDigits(m2, digits);
  }

  lemma RunDigits(m: Machine, d: string)
    requires m.Valid() && m.phase == Unicode && m.unicodeIndex == 0 && Hex(d).Valid()
    ensures var r := Run(m, d);
      var e := EmittedUnit(m, HexValue(d));
      r.text == e.text && r.machine.phase == InValue && r.machine.pendingHigh == e.machine.pendingHigh
  {
    FirstTwoDigits(m, d);
    LastTwoDigits(Digit(Digit(m, d[0]), d[1]), d[2], d[3]);
    LastDigit(m, d);
  }

  lemma LastTwoDigits(m: Machine, c: char, d: char)
    requires m.Valid() && m.phase == Unicode && m.unicodeIndex == 2 && HexDigit(c).Some?
    ensures Run(m, [c] + [d]) == Step(Digit(m, c), d)
  {
    SilentChar(m, c, [d], Digit(m, c));
    RunOne(Digit(m, c), d);
  }

  lemma LastDigit(m: Machine, d: string)
    requires m.Valid() && m.phase == Unicode && m.unicodeIndex == 0 && Hex(d).Valid()
    ensures var r := Step(Digit(Digit(Digit(m, d[0]), d[1]), d[2]), d[3]);
      var e := EmittedUnit(m, HexValue(d));
      r.text == e.text && r.machine.phase == InValue && r.machine.pendingHigh == e.machine.pendingHigh
  {
    var m3 := Digit(Digit(Digit(m, d[0]), d[1]), d[2]);
    var u := m3.unicode[3 := HexDigit(d[3]).value];
    assert Nibbles(u) == HexValue(d);
  }

  lemma FirstTwoDigits(m: Machine, d: string)
    requires m.Valid() && m.phase == Unicode && m.unicodeIndex == 0 && Hex(d).Valid()
    ensures Run(m, d) == Run(Digit(Digit(m, d[0]), d[1]), [d[2]] + [d[3]])
  {
    var m1 := Digit(m, d[0]);
    assert d == [d[0]] + ([d[1]] + ([d[2]] + [d[3]]));
    SilentChar(m, d[0], [d[1]] + ([d[2]] + [d[3]]), m1);
    SilentChar(m1, d[1], [d[2]] + [d[3]], Digit(m1, d[1]));
  }

  function Digit(m: Machine, ch: char): (r: Machine)
    requires m.Valid() && m.phase == Unicode && m.unicodeIndex < 3 && HexDigit(ch).Some?
    ensures r.Valid() && Step(m, ch) == Outcome(r, "")
  {
    m.(unicode := m.unicode[m.unicodeIndex := HexDigit(ch).value], unicodeIndex := m.unicodeIndex + 1)
  }

  lemma RunRaw(m: Machine, c: char, rest: seq<nat>)
    requires m.Valid() && m.phase == InValue && Raw(c).Valid()
    ensures var r := Run(m, [c]);
      r.machine.phase == InValue && Heard(Held(m) + Utf16(c) + rest) == r.text + Heard(Held(r.machine) + rest)
  {
    assert [] + rest == rest;
    RunOne(m, c);
    HeardPlain(m, c, rest);
  }

  lemma RunShort(m: Machine, letter: char)
    requires m.Valid() && m.phase == InValue && ShortMeaning(letter).Some?
    ensures Run(m, ['\\', letter]) == EmittedChar(m, ShortMeaning(letter).value)
  {
    RunEscape(m, letter, m.(phase := Escaped));
  }

  /** One piece of a value. */
  lemma RunPiece(m: Machine, p: Piece, rest: seq<nat>)
    requires m.Valid() && m.phase == InValue && p.Valid()
    ensures var r := Run(m, p.Spell());
      && r.machine.phase == InValue
      && Heard(Held(m) + PieceUnits(p) + rest) == r.text + Heard(Held(r.machine) + rest)
  {
    match p {
      case Raw(c) => RunRaw(m, c, rest);
      case Short(letter) =>
        assert [] + rest == rest;
        RunShort(m, letter);
        HeardPlain(m, ShortMeaning(letter).value, rest);
      case Hex(digits) =>
        RunHex(m, digits);
        HeardUnit(m, HexValue(digits), rest);
    }
  }

  lemma RunFirstPiece(m: Machine, p: Piece, later: string, units: seq<nat>)
    requires m.Valid() && m.phase == InValue && p.Valid()
    requires var first := Run(m, p.Spell()).machine;
      Run(first, later).text == Heard(Held(first) + units)
    ensures Run(m, p.Spell() + later).text == Heard(Held(m) + (PieceUnits(p) + units))
    ensures Run(m, p.Spell() + later).machine == Run(Run(m, p.Spell()).machine, later).machine
  {
    assert Held(m) + (PieceUnits(p) + units) == Held(m) + PieceUnits(p) + units;
    RunPiece(m, p, units);
    RunConcat(m, p.Spell(), later);
  }

  /** A whole value. */
  lemma {:induction false} RunValue(m: Machine, p: seq<Piece>)
    requires m.Valid() && m.phase == InValue && AllValid(p)
    ensures Run(m, Spelling(p)).machine.phase == InValue
    ensures Run(m, Spelling(p)).text == Heard(Held(m) + Units(p))
    decreases |p|
  {
    if p == [] {
      assert Held(m) + [] == Held(m);
    } else {
      var t, u := Spelling(p[1..]), Units(p[1..]);
      var first := Run(m, p[0].Spell()).machine;
      RunPiece(m, p[0], u);
      RunValue(first, p[1..]);
      RunFirstPiece(m, p[0], t, u);
    }
  }

  // ----- whole objects -----

  /** No escapes at all. */
  predicate Plain(p: seq<Piece>) {
    p == [] || (p[0].Raw? && Plain(p[1..]))
  }

  datatype Value =
    | Str(pieces: seq<Piece>)
    | Other(text: string)  // a number, literal, array or object, from its first character on

  datatype Member = Member(
    beforeKey: string, key: seq<Piece>, afterKey: string, beforeValue: string, value: Value, afterValue: string)
  {
    predicate Valid() {
      && JsonBlank(beforeKey) && JsonBlank(afterKey) && JsonBlank(beforeValue) && JsonBlank(afterValue)
      && AllValid(key)
      && match value
         case Str(p) => AllValid(p)
         case Other(text) => text != "" && text[0] != '"' && !IsWhitespace(text[0])
    }

    predicate PlainKey() {
      Plain(key)
    }
  }

  predicate AllMembers(ms: seq<Member>) {
    forall i :: 0 <= i < |ms| ==> ms[i].Valid()
  }

  function ValueText(v: Value): string {
    match v
    case Str(p) => "\"" + (Spelling(p) + "\"")
    case Other(text) => text
  }

  /** Everything from the member's value on. */
  function FromValue(m: Member, rest: string): string {
    m.beforeValue + (ValueText(m.value) + (m.afterValue + rest))
  }

  function MemberText(m: Member, rest: string): string {
    m.beforeKey + ("\"" + (Spelling(m.key) + ("\"" + (m.afterKey + (":" + FromValue(m, rest))))))
  }

  function MembersText(ms: seq<Member>, rest: string): string
    decreases |ms|, 0
  {
    if ms == [] then "}" + rest else MemberText(ms[0], NextText(ms[1..], rest))
  }

  function NextText(ms: seq<Member>, rest: string): string
    decreases |ms|, 1
  {
    (if ms == [] then "" else ",") + MembersText(ms, rest)
  }

  /** `before { inside members } rest`; the inside blank only matters for an empty object. */
  function ObjectText(before: string, inside: string, ms: seq<Member>, rest: string): string {
    before + ("{" + (inside + MembersText(ms, rest)))
  }

  /**
    What is extracted from an object: the first "summary" whose value is a string, provided every member up to it
    has a key without escapes and every member before it has a string value.
   */
  function Summary(ms: seq<Member>): string
    requires AllMembers(ms)
  {
    if ms == [] || !ms[0].PlainKey() || ms[0].value.Other? then ""
    else if Spelling(ms[0].key) == "summary" then Heard(Units(ms[0].value.pieces))
    else Summary(ms[1..])
  }

  lemma {:induction false} RunBlank(m: Machine, s: string)
    requires m.Valid() && m.phase in {ObjectStart, KeyStart, AfterKey, ValueStart} && JsonBlank(s)
    ensures Run(m, s) == Outcome(m, "")
    decreases |s|
  {
    if s != "" {
      RunBlank(m, s[1..]);
    }
  }

  lemma {:induction false} RunStopped(m: Machine, s: string)
    requires m.Valid() && m.phase in {Done, Failed}
    ensures Run(m, s) == Outcome(m, "")
    decreases |s|
  {
    if s != "" {
      RunStopped(m, s[1..]);
    }
  }

  lemma {:induction false} RunSkipped(m: Machine, p: seq<Piece>)
    requires m.Valid() && m.phase == InSkipString && AllValid(p)
    ensures Run(m, Spelling(p)) == Outcome(m, "")
    decreases |p|
  {
    if p != [] {
      RunSkippedPiece(m, p[0]);
      RunSkipped(m, p[1..]);
      RunConcat(m, p[0].Spell(), Spelling(p[1..]));
    }
  }

  lemma RunSkippedPiece(m: Machine, p: Piece)
    requires m.Valid() && m.phase == InSkipString && p.Valid()
    ensures Run(m, p.Spell()) == Outcome(m, "")
  {
    match p {
      case Raw(c) => RunOne(m, c);
      case Short(letter) => RunEscape(m, letter, m.(phase := SkipEscaped));
      case Hex(d) =>
        RunEscape(m, 'u', m.(phase := SkipEscaped));
        Silent(m, ['\\', 'u'], d, m);
        RunSkippedDigits(m, d);
    }
  }

  lemma {:induction false} RunSkippedDigits(m: Machine, d: string)
    requires m.Valid() && m.phase == InSkipString && forall i :: 0 <= i < |d| ==> HexDigit(d[i]).Some?
    ensures Run(m, d) == Outcome(m, "")
    decreases |d|
  {
    if d != "" {
      assert HexDigit(d[0]).Some?;
      RunSkippedDigits(m, d[1..]);
    }
  }

  predicate KeyText(k: string) {
    forall i :: 0 <= i < |k| ==> k[i] != '"' && k[i] != '\\'
  }

  lemma {:induction false} PlainIsKeyText(p: seq<Piece>)
    requires AllValid(p) && Plain(p)
    ensures KeyText(Spelling(p))
  {
    if p != [] {
      PlainIsKeyText(p[1..]);
    }
  }

  lemma {:induction false} RunPlainKey(m: Machine, k: string)
    requires m.Valid() && m.phase == InKey && KeyText(k)
    ensures Run(m, k) == Outcome(m.(key := m.key + k), "")
    decreases |k|
  {
    if k == "" {
      assert m.key + "" == m.key;
    } else {
      var m1 := m.(key := m.key + [k[0]]);
      assert Step(m, k[0]) == Outcome(m1, "");
      RunPlainKey(m1, k[1..]);
      assert m.key + k == m1.key + k[1..];
    }
  }

  lemma {:induction false} RunEscapedKey(m: Machine, p: seq<Piece>)
    requires m.Valid() && m.phase == InKey && AllValid(p) && !Plain(p)
    ensures Run(m, Spelling(p)).machine.phase == Failed && Run(m, Spelling(p)).text == ""
    decreases |p|
  {
    if p[0].Raw? {
      var m1 := m.(key := m.key + [p[0].c]);
      SilentChar(m, p[0].c, Spelling(p[1..]), m1);
      RunEscapedKey(m1, p[1..]);
    } else {
      var t := Spelling(p);
      assert t == ['\\'] + t[1..];
      SilentChar(m, '\\', t[1..], m.(phase := Failed));
      RunStopped(m.(phase := Failed), t[1..]);
    }
  }

  /** The machine after the colon of a member with an unescaped key. */
  function AfterColon(m: Machine, member: Member): Machine {
    m.(phase := ValueStart, key := Spelling(member.key), keyIsSummary := Spelling(member.key) == "summary")
  }

  lemma RunAfterKey(m: Machine, member: Member, rest: string)
    requires m.Valid() && m.phase == InKey && m.key == Spelling(member.key) && member.Valid()
    ensures Run(m, "\"" + (member.afterKey + (":" + rest))) == Run(AfterColon(m, member), rest)
  {
    var m1 := m.(keyIsSummary := m.key == "summary", phase := AfterKey);
    SilentChar(m, '"', member.afterKey + (":" + rest), m1);
    RunBlank(m1, member.afterKey);
    Silent(m1, member.afterKey, ":" + rest, m1);
    SilentChar(m1, ':', rest, AfterColon(m, member));
  }

  lemma RunMemberKey(m: Machine, member: Member, rest: string)
    requires m.Valid() && m.phase == KeyStart && member.Valid()
    ensures Run(m, MemberText(member, rest)).text ==
      if member.PlainKey() then Run(AfterColon(m, member), FromValue(member, rest)).text else ""
  {
    var tail2 := "\"" + (member.afterKey + (":" + FromValue(member, rest)));
    var tail1 := Spelling(member.key) + tail2;
    var m1 := m.(key := "", phase := InKey);
    RunBlank(m, member.beforeKey);
    Silent(m, member.beforeKey, "\"" + tail1, m);
    SilentChar(m, '"', tail1, m1);
    if member.PlainKey() {
      PlainIsKeyText(member.key);
      RunPlainKey(m1, Spelling(member.key));
      var m2 := m1.(key := Spelling(member.key));
      assert "" + Spelling(member.key) == Spelling(member.key);
      Silent(m1, Spelling(member.key), tail2, m2);
      RunAfterKey(m2, member, FromValue(member, rest));
      assert AfterColon(m2, member) == AfterColon(m, member);
    } else {
      RunEscapedKey(m1, member.key);
      var m2 := Run(m1, Spelling(member.key)).machine;
      Silent(m1, Spelling(member.key), tail2, m2);
      RunStopped(m2, tail2);
    }
  }

  lemma RunSummaryValue(m: Machine, p: seq<Piece>, rest: string)
    requires m.Valid() && m.phase == InValue && m.pendingHigh == None && AllValid(p)
    ensures Run(m, Spelling(p) + ("\"" + rest)).text == Heard(Units(p))
  {
    RunValue(m, p);
    var m1 := Run(m, Spelling(p)).machine;
    RunConcat(m, Spelling(p), "\"" + rest);
    SilentChar(m1, '"', rest, m1.(phase := Done));
    RunStopped(m1.(phase := Done), rest);
    assert [] + Units(p) == Units(p);
  }

  lemma RunOtherValue(m: Machine, p: seq<Piece>, blank: string, rest: string)
    requires m.Valid() && m.phase == InSkipString && AllValid(p) && JsonBlank(blank)
    ensures Run(m, Spelling(p) + ("\"" + (blank + rest))) == Run(m.(phase := AfterKey), rest)
  {
    var m1 := m.(phase := AfterKey);
    RunSkipped(m, p);
    Silent(m, Spelling(p), "\"" + (blank + rest), m);
    SilentChar(m, '"', blank + rest, m1);
    RunBlank(m1, blank);
    Silent(m1, blank, rest, m1);
  }

  lemma RunMemberValue(m: Machine, member: Member, rest: string)
    requires m.Valid() && m.phase == ValueStart && m.pendingHigh == None && member.Valid()
    ensures Run(m, FromValue(member, rest)).text ==
      if member.value.Other? then ""
      else if m.keyIsSummary then Heard(Units(member.value.pieces))
      else Run(m.(phase := AfterKey), rest).text
  {
    var tail := member.afterValue + rest;
    var v := ValueText(member.value);
    RunBlank(m, member.beforeValue);
    Silent(m, member.beforeValue, v + tail, m);
    match member.value {
      case Other(text) =>
        assert v + tail == [text[0]] + (v + tail)[1..];
        SilentChar(m, text[0], (v + tail)[1..], m.(phase := Failed));
        RunStopped(m.(phase := Failed), (v + tail)[1..]);
      case Str(p) =>
        var s := Spelling(p) + ("\"" + tail);
        assert v + tail == "\"" + s;
        if m.keyIsSummary {
          SilentChar(m, '"', s, m.(phase := InValue));
          RunSummaryValue(m.(phase := InValue), p, tail);
        } else {
          SilentChar(m, '"', s, m.(phase := InSkipString));
          RunOtherValue(m.(phase := InSkipString), p, member.afterValue, rest);
        }
    }
  }

  lemma RunMember(m: Machine, member: Member, rest: string)
    requires m.Valid() && m.phase == KeyStart && m.pendingHigh == None && member.Valid()
    ensures Run(m, MemberText(member, rest)).text ==
      if !member.PlainKey() || member.value.Other? then ""
      else if Spelling(member.key) == "summary" then Heard(Units(member.value.pieces))
      else Run(AfterColon(m, member).(phase := AfterKey), rest).text
  {
    RunMemberKey(m, member, rest);
    RunMemberValue(AfterColon(m, member), member, rest);
  }

  lemma {:induction false} RunMembers(m: Machine, ms: seq<Member>, rest: string)
    requires m.Valid() && m.phase == KeyStart && m.pendingHigh == None
    requires AllMembers(ms)
    ensures Run(m, MembersText(ms, rest)).text == Summary(ms)
    decreases |ms|, 0
  {
    if ms == [] {
      SilentChar(m, '}', rest, m.(phase := Failed));
      RunStopped(m.(phase := Failed), rest);
    } else {
      RunMember(m, ms[0], NextText(ms[1..], rest));
      RunNext(AfterColon(m, ms[0]).(phase := AfterKey), ms[1..], rest);
    }
  }

  /** After a member: the end of the object, or a comma and the remaining members. */
  lemma {:induction false} RunNext(m: Machine, ms: seq<Member>, rest: string)
    requires m.Valid() && m.phase == AfterKey && m.pendingHigh == None && AllMembers(ms)
    ensures Run(m, NextText(ms, rest)).text == Summary(ms)
    decreases |ms|, 1
  {
    if ms == [] {
      assert NextText(ms, rest) == "}" + rest;
      SilentChar(m, '}', rest, m.(phase := Failed));
      RunStopped(m.(phase := Failed), rest);
    } else {
      SilentChar(m, ',', MembersText(ms, rest), m.(phase := KeyStart));
      RunMembers(m.(phase := KeyStart), ms, rest);
    }
  }

  /**
    Main result: from any JSON object, with any layout, any spelling of its strings and anything after it, a fresh
    parser extracts `Summary`.
   */
  lemma ObjectSummary(before: string, inside: string, ms: seq<Member>, rest: string)
    requires JsonBlank(before) && JsonBlank(inside)
    requires AllMembers(ms)
    ensures Run(INIT, ObjectText(before, inside, ms, rest)).text == Summary(ms)
  {
    var tail := inside + MembersText(ms, rest);
    RunBlank(INIT, before);
    Silent(INIT, before, "{" + tail, INIT);
    var m := INIT.(phase := KeyStart);
    SilentChar(INIT, '{', tail, m);
    RunBlank(m, inside);
    Silent(m, inside, MembersText(ms, rest), m);
    RunMembers(m, ms, rest);
  }

  /** The members before the first one named "summary". */
  predicate FirstSummary(ms: seq<Member>, k: nat) {
    && k < |ms| && Spelling(ms[k].key) == "summary" && ms[k].value.Str?
    && (forall i :: 0 <= i <= k ==> ms[i].PlainKey())
    && (forall i :: 0 <= i < k ==> Spelling(ms[i].key) != "summary" && ms[i].value.Str?)
  }

  lemma {:induction false} SummaryAt(ms: seq<Member>, k: nat)
    requires AllMembers(ms) && FirstSummary(ms, k)
    ensures Summary(ms) == Heard(Units(ms[k].value.pieces))
  {
    if k > 0 {
      SummaryAt(ms[1..], k - 1);
    }
  }

  /** Main result: whatever JSON spelling of whatever string the first "summary" has, that string comes out. */
  lemma SummaryRoundTrip(before: string, inside: string, ms: seq<Member>, rest: string, k: nat)
    requires JsonBlank(before) && JsonBlank(inside)
    requires AllMembers(ms)
    requires FirstSummary(ms, k) && AllValid(ms[k].value.pieces) && Meaning(ms[k].value.pieces).Some?
    ensures Run(INIT, ObjectText(before, inside, ms, rest)).text == Meaning(ms[k].value.pieces).value
  {
    ObjectSummary(before, inside, ms, rest);
    SummaryAt(ms, k);
    HeardMeaning(ms[k].value.pieces);
  }

  /** Unpaired surrogates: the extracted text is the lossy decoding exactly when none of them is dropped. */
  lemma SummaryLossyIff(before: string, inside: string, ms: seq<Member>, rest: string, k: nat)
    requires JsonBlank(before) && JsonBlank(inside)
    requires AllMembers(ms)
    requires FirstSummary(ms, k)
    ensures var u := Units(ms[k].value.pieces);
      Run(INIT, ObjectText(before, inside, ms, rest)).text == LossyUtf16(u) <==> Dropped(u) == 0
  {
    ObjectSummary(before, inside, ms, rest);
    SummaryAt(ms, k);
    UnitsFit(ms[k].value.pieces);
    HeardIsLossyIff(Units(ms[k].value.pieces));
  }

  function RawPieces(s: string): seq<Piece> {
    if s == "" then [] else [Raw(s[0])] + RawPieces(s[1..])
  }

  lemma {:induction false} RawPiecesSpell(s: string)
    requires forall i :: 0 <= i < |s| ==> Raw(s[i]).Valid()
    ensures AllValid(RawPieces(s)) && Plain(RawPieces(s)) && Spelling(RawPieces(s)) == s
  {
    if s != "" {
      RawPiecesSpell(s[1..]);
      assert RawPieces(s)[1..] == RawPieces(s[1..]);
    }
  }

  function OnlySummary(key: seq<Piece>, value: seq<Piece>): Member {
    Member("", key, "", "", Str(value), "")
  }

  lemma OneHex(digits: string)
    requires Hex(digits).Valid() && Low(HexValue(digits))
    ensures AllValid([Hex(digits)]) && Units([Hex(digits)]) == [HexValue(digits)]
    ensures Heard([HexValue(digits)]) == "" && LossyUtf16([HexValue(digits)]) == [REPLACEMENT]
  {
    assert [Hex(digits)][1..] == [] && [HexValue(digits)][1..] == [];
  }

  /** Any object whose summary is one lone low surrogate: nothing comes out, where the lossy decoder gives U+FFFD. */
  lemma LoneSurrogateIsDropped(before: string, inside: string, key: seq<Piece>, digits: string, rest: string)
    requires JsonBlank(before) && JsonBlank(inside) && AllValid(key) && Plain(key) && Spelling(key) == "summary"
    requires Hex(digits).Valid() && Low(HexValue(digits))
    ensures AllValid([Hex(digits)]) && LossyUtf16(Units([Hex(digits)])) == [REPLACEMENT]
    ensures Run(INIT, ObjectText(before, inside, [OnlySummary(key, [Hex(digits)])], rest)).text == ""
  {
    var ms := [OnlySummary(key, [Hex(digits)])];
    OneHex(digits);
    assert AllMembers(ms) && FirstSummary(ms, 0);
    ObjectSummary(before, inside, ms, rest);
    SummaryAt(ms, 0);
  }

  /** Such an object: `{"summary":"\udc00"}`. */
  lemma SomeSummaryIsDropped()
    ensures Run(INIT, ObjectText("", "", [OnlySummary(RawPieces("summary"), [Hex("dc00")])], "")).text == ""
  {
    RawPiecesSpell("summary");
    LoneSurrogateIsDropped("", "", RawPieces("summary"), "dc00", "");
  }

  /** The whole life of a parser object: its emit callbacks deliver the same text for every chunking. */
  method Extract(chunks: seq<string>) returns (emitted: string)
    ensures emitted == Run(INIT, Join(chunks)).text
  {
    var parser := new SummaryArgumentParser();
    emitted := "";
    for i := 0 to |chunks|
      invariant parser.View().Valid()
      invariant fresh(parser) && fresh(parser.unicode)
      invariant Outcome(parser.View(), emitted) == Run(INIT, Join(chunks[..i]))
    {
      RunConcat(INIT, Join(chunks[..i]), chunks[i]);
      assert chunks[..i + 1] == chunks[..i] + [chunks[i]];
      JoinSnoc(chunks[..i], chunks[i]);
      var piece := parser.Push(chunks[i]);
      emitted := emitted + piece;
    }
    assert chunks[..|chunks|] == chunks;
  }
}
