/**
  What the JSON filter emits for whole objects (RFC 8259 sections 2 to 7): exactly the decoded `free_talk` and
  `final_answer` strings at the root, in document order. A document is a tree of members and values with its own layout and
  spelling; the lemmas follow the tree, from one character of one string, over pieces, strings, nested values and members, to
  the object. Each says from which state the filter comes to which by reading that part, and what it emits on the way.
 */
module JsonDocuments {
  import opened Wrappers
  import opened Text
  import opened JsonText
  import opened JsonStream

  // ----- documents -----

  /** A value with the whitespace around it. */
  datatype Json = Json(before: string, core: Core, after: string)

  datatype Core =
    | Str(pieces: seq<Piece>)
    | Atom(text: string)  // a number or one of true, false, null
    | Arr(inside: string, items: seq<Json>)
    | Obj(inside: string, members: seq<Member>)

  datatype Member = Member(beforeKey: string, key: seq<Piece>, afterKey: string, value: Json)

  predicate AtomText(s: string) {
    forall i :: 0 <= i < |s| ==> s[i] !in "\"{}[]:,"
  }

  predicate ValidJson(v: Json)
    decreases v, 1
  {
    JsonBlank(v.before) && JsonBlank(v.after) && ValidCore(v.core)
  }

  predicate ValidCore(c: Core)
    decreases c, 0
  {
    match c
    case Str(p) => AllValid(p)
    case Atom(text) => AtomText(text)
    case Arr(inside, items) => JsonBlank(inside) && ValidItems(items)
    case Obj(inside, members) => JsonBlank(inside) && ValidMembers(members)
  }

  predicate ValidItems(items: seq<Json>)
    decreases items, 0
  {
    items == [] || (ValidJson(items[0]) && ValidItems(items[1..]))
  }

  predicate ValidMember(m: Member)
    decreases m, 0
  {
    JsonBlank(m.beforeKey) && AllValid(m.key) && JsonBlank(m.afterKey) && ValidJson(m.value)
  }

  predicate ValidMembers(members: seq<Member>)
    decreases members, 0
  {
    members == [] || (ValidMember(members[0]) && ValidMembers(members[1..]))
  }

  function Quoted(p: seq<Piece>): string {
    "\"" + (Spelling(p) + "\"")
  }

  function JsonString(v: Json): string
    decreases v, 1
  {
    v.before + (CoreText(v.core) + v.after)
  }

  function CoreText(c: Core): string
    decreases c, 0
  {
    match c
    case Str(p) => Quoted(p)
    case Atom(text) => text
    case Arr(inside, items) => "[" + (inside + (ItemsText(items) + "]"))
    case Obj(inside, members) => "{" + (inside + (MembersText(members) + "}"))
  }

  function ItemsText(items: seq<Json>): string
    decreases items, 0
  {
    if items == [] then ""
    else JsonString(items[0]) + (if |items| == 1 then "" else "," + ItemsText(items[1..]))
  }

  function MemberText(m: Member): string
    decreases m, 0
  {
    m.beforeKey + (Quoted(m.key) + (m.afterKey + (":" + JsonString(m.value))))
  }

  function MembersText(members: seq<Member>): string
    decreases members, 0
  {
    if members == [] then ""
    else MemberText(members[0]) + (if |members| == 1 then "" else "," + MembersText(members[1..]))
  }

  /** The names of the public members. */
  const PUBLIC: set<string> := {"free_talk", "final_answer"}

  /** RFC 8259 section 8.2 leaves open what strings with unpaired surrogates mean; the public ones must have a meaning. */
  predicate Decodable(members: seq<Member>) {
    forall i :: 0 <= i < |members| ==>
      && AllValid(members[i].key) && Meaning(members[i].key).Some?
      && (Meaning(members[i].key).value in PUBLIC && members[i].value.core.Str? ==>
            AllValid(members[i].value.core.pieces) && Meaning(members[i].value.core.pieces).Some?)
  }

  /** The public text of an object. */
  function PublicText(members: seq<Member>): string
    requires Decodable(members)
  {
    if members == [] then ""
    else
      (if Meaning(members[0].key).value in PUBLIC && members[0].value.core.Str?
       then Meaning(members[0].value.core.pieces).value else "")
      + PublicText(members[1..])
  }

  // ----- one step after the other -----

  predicate Leads(m: Machine, s: string, text: string, m': Machine) {
    Run(m, s) == Outcome(m', text, None)
  }

  lemma Chain(m: Machine, a: string, t: string, m1: Machine, b: string, u: string, m2: Machine)
    requires Leads(m, a, t, m1) && Leads(m1, b, u, m2)
    ensures Leads(m, a + b, t + u, m2)
  {
    RunConcat(m, a, b);
  }

  lemma Silent(m: Machine, a: string, m1: Machine, b: string, u: string, m2: Machine)
    requires Leads(m, a, "", m1) && Leads(m1, b, u, m2)
    ensures Leads(m, a + b, u, m2)
  {
    Chain(m, a, "", m1, b, u, m2);
    assert "" + u == u;
  }

  lemma One(m: Machine, c: char, t: string, m1: Machine)
    requires Step(m, c) == Outcome(m1, t, None)
    ensures Leads(m, [c], t, m1)
  {
    assert [c][1..] == "";
    assert t + "" == t;
  }

  /** One character and then the others. */
  lemma First(m: Machine, s: string, m1: Machine, u: string, m2: Machine)
    requires s != "" && Leads(m, [s[0]], "", m1) && Leads(m1, s[1..], u, m2)
    ensures Leads(m, s, u, m2)
  {
    Silent(m, [s[0]], m1, s[1..], u, m2);
    assert [s[0]] + s[1..] == s;
  }

  // ----- strings -----

  /** Inside a string. */
  predicate Reading(m: Machine) {
    m.started && m.depth > 0 && m.inString && !m.escaped
  }

  /** Characters that a string is not kept for only move the escape flag. */
  lemma SkipPiece(m: Machine, p: Piece)
    requires Reading(m) && !m.keyExpected && !m.publicValue && p.Valid()
    ensures Leads(m, p.Spell(), "", m)
  {
    match p {
      case Raw(c) => One(m, c, "", m);
      case Short(letter) =>
        SkipEscape(m, letter);
      case Hex(d) =>
        SkipEscape(m, 'u');
        SkipDigits(m, d);
        Silent(m, ['\\', 'u'], m, d, "", m);
    }
  }

  lemma SkipEscape(m: Machine, letter: char)
    requires Reading(m) && !m.keyExpected && !m.publicValue
    ensures Leads(m, ['\\', letter], "", m)
  {
    var m1 := m.(escaped := true);
    One(m, '\\', "", m1);
    One(m1, letter, "", m);
    Silent(m, ['\\'], m1, [letter], "", m);
  }

  lemma {:induction false} SkipDigits(m: Machine, d: string)
    requires Reading(m) && !m.keyExpected && !m.publicValue
    requires forall i :: 0 <= i < |d| ==> HexDigit(d[i]).Some?
    ensures Leads(m, d, "", m)
  {
    if d != "" {
      assert HexDigit(d[0]).Some?;
      One(m, d[0], "", m);
      SkipDigits(m, d[1..]);
      First(m, d, m, "", m);
    }
  }

  lemma {:induction false} SkipPieces(m: Machine, p: seq<Piece>)
    requires Reading(m) && !m.keyExpected && !m.publicValue && AllValid(p)
    ensures Leads(m, Spelling(p), "", m)
  {
    if p != [] {
      SkipPiece(m, p[0]);
      SkipPieces(m, p[1..]);
      Silent(m, p[0].Spell(), m, Spelling(p[1..]), "", m);
    }
  }

  /** What a kept string does with a text that holds no bare quote: it goes to the token. */
  function Toggle(s: string, escaped: bool): bool {
    if s == "" then escaped else Toggle(s[1..], s[0] == '\\' && !escaped)
  }

  predicate NoBareQuote(s: string, escaped: bool) {
    s == "" || ((s[0] == '"' ==> escaped) && NoBareQuote(s[1..], s[0] == '\\' && !escaped))
  }

  lemma PieceQuotes(p: Piece)
    requires p.Valid()
    ensures NoBareQuote(p.Spell(), false) && !Toggle(p.Spell(), false)
  {
    var s := p.Spell();
    match p {
      case Raw(c) => assert s[1..] == "";
      case Short(letter) => assert s[1..] == [letter] && s[1..][1..] == "";
      case Hex(d) =>
        assert s[1..] == ['u'] + d && s[1..][1..] == d;
        DigitQuotes(d);
    }
  }

  lemma {:induction false} DigitQuotes(d: string)
    requires forall i :: 0 <= i < |d| ==> HexDigit(d[i]).Some?
    ensures NoBareQuote(d, false) && !Toggle(d, false)
  {
    if d != "" {
      assert HexDigit(d[0]).Some?;
      DigitQuotes(d[1..]);
    }
  }

  lemma {:induction false} QuotesConcat(a: string, b: string, escaped: bool)
    requires NoBareQuote(a, escaped) && NoBareQuote(b, Toggle(a, escaped))
    ensures NoBareQuote(a + b, escaped) && Toggle(a + b, escaped) == Toggle(b, Toggle(a, escaped))
  {
    if a == "" {
      assert a + b == b;
    } else {
      assert (a + b)[1..] == a[1..] + b;
      QuotesConcat(a[1..], b, a[0] == '\\' && !escaped);
    }
  }

  lemma {:induction false} SpellingQuotes(p: seq<Piece>)
    requires AllValid(p)
    ensures NoBareQuote(Spelling(p), false) && !Toggle(Spelling(p), false)
  {
    if p != [] {
      PieceQuotes(p[0]);
      SpellingQuotes(p[1..]);
      QuotesConcat(p[0].Spell(), Spelling(p[1..]), false);
    }
  }

  predicate Collecting(m: Machine) {
    m.started && m.depth > 0 && m.inString && (m.keyExpected || m.publicValue)
  }

  lemma {:induction false} Utf8Char(t: string, s: string)
    requires s != ""
    ensures Utf8Len(t + [s[0]]) + Utf8Len(s[1..]) == Utf8Len(t) + Utf8Len(s)
  {
    assert [s[0]][1..] == "";
    assert Utf8Len([s[0]]) == Utf8Width(s[0]);
    Utf8LenConcat(t, [s[0]]);
  }

  /** The machine after holding one more character. */
  function Hold(m: Machine, c: char): Machine {
    m.(token := m.token + [c], escaped := c == '\\' && !m.escaped)
  }

  lemma CollectChar(m: Machine, c: char)
    requires Collecting(m) && (c == '"' ==> m.escaped) && Utf8Len(m.token + [c]) <= MAX_EVENT_BYTES
    requires m.publicValue ==> DecodeString(m.token + [c]).None?
    ensures Leads(m, [c], "", Hold(m, c))
  {
    Utf8Char(m.token, [c]);
    One(m, c, "", Hold(m, c));
  }

  /** The machine after holding a text. */
  function Held(m: Machine, s: string): Machine {
    m.(token := m.token + s, escaped := Toggle(s, m.escaped))
  }

  lemma HeldNothing(m: Machine)
    ensures Held(m, "") == m
  {
    assert m.token + "" == m.token;
  }

  lemma TokenGrows(t: string, s: string)
    requires s != ""
    ensures (t + [s[0]]) + s[1..] == t + s
  {
  }

  lemma HeldMore(m: Machine, s: string)
    requires s != ""
    ensures Held(Hold(m, s[0]), s[1..]) == Held(m, s)
  {
    TokenGrows(m.token, s);
  }

  /** A key is collected as it is. */
  lemma {:induction false} CollectKey(m: Machine, s: string)
    requires Collecting(m) && !m.publicValue
    requires NoBareQuote(s, m.escaped) && Utf8Len(m.token) + Utf8Len(s) <= MAX_EVENT_BYTES
    ensures Leads(m, s, "", Held(m, s))
    decreases |s|
  {
    if s == "" {
      HeldNothing(m);
    } else {
      Utf8Char(m.token, s);
      CollectChar(m, s[0]);
      CollectKey(Hold(m, s[0]), s[1..]);
      HeldMore(m, s);
      First(m, s, Hold(m, s[0]), "", Held(m, s));
    }
  }

  // ----- public values -----

  predicate Undecodable(t: string, s: string) {
    forall j :: 0 < j < |s| ==> DecodeString(t + s[..j]).None?
  }

  /** The characters of an escape are held back until the last one completes it. */
  lemma {:induction false} EmitHeld(m: Machine, s: string, c: char)
    requires Collecting(m) && m.publicValue && s != ""
    requires NoBareQuote(s, m.escaped) && !Toggle(s, m.escaped)
    requires Utf8Len(m.token) + Utf8Len(s) <= MAX_EVENT_BYTES
    requires Undecodable(m.token, s) && DecodeString(m.token + s) == Some([c])
    ensures Leads(m, s, [c], m.(token := "", escaped := false))
    decreases |s|
  {
    Utf8Char(m.token, s);
    if |s| == 1 {
      assert s == [s[0]] && s[1..] == "";
      EmitLast(m, s[0], c);
    } else {
      var m1 := Hold(m, s[0]);
      HoldFirst(m, s);
      EmitHeld(m1, s[1..], c);
      First(m, s, m1, [c], m.(token := "", escaped := false));
    }
  }

  lemma HoldFirst(m: Machine, s: string)
    requires Collecting(m) && m.publicValue && |s| > 1
    requires NoBareQuote(s, m.escaped)
    requires Utf8Len(m.token) + Utf8Len(s) <= MAX_EVENT_BYTES
    requires Undecodable(m.token, s)
    ensures Leads(m, [s[0]], "", Hold(m, s[0]))
    ensures Undecodable(Hold(m, s[0]).token, s[1..]) && Hold(m, s[0]).token + s[1..] == m.token + s
  {
    HoldFirstChar(m, s);
    HeldLater(m.token, s);
    TokenGrows(m.token, s);
  }

  lemma HoldFirstChar(m: Machine, s: string)
    requires Collecting(m) && m.publicValue && |s| > 1
    requires NoBareQuote(s, m.escaped)
    requires Utf8Len(m.token) + Utf8Len(s) <= MAX_EVENT_BYTES
    requires Undecodable(m.token, s)
    ensures Leads(m, [s[0]], "", Hold(m, s[0]))
  {
    Utf8Char(m.token, s);
    assert s[..1] == [s[0]];
    HoldOne(m, s[0]);
  }

  lemma HoldOne(m: Machine, c: char)
    requires Collecting(m) && m.publicValue && (c == '"' ==> m.escaped)
    requires Utf8Len(m.token + [c]) <= MAX_EVENT_BYTES && DecodeString(m.token + [c]).None?
    ensures Leads(m, [c], "", Hold(m, c))
  {
    CollectChar(m, c);
  }

  lemma EmitLast(m: Machine, last: char, c: char)
    requires Collecting(m) && m.publicValue && (last == '"' ==> m.escaped)
    requires !(last == '\\' && !m.escaped)
    requires Utf8Len(m.token + [last]) <= MAX_EVENT_BYTES
    requires DecodeString(m.token + [last]) == Some([c])
    ensures Leads(m, [last], [c], m.(token := "", escaped := false))
  {
    Utf8Char(m.token, [last]);
    One(m, last, [c], m.(token := "", escaped := false));
  }

  lemma HeldLater(t: string, s: string)
    requires s != "" && Undecodable(t, s)
    ensures Undecodable(t + [s[0]], s[1..])
  {
    forall j | 0 < j < |s[1..]| ensures DecodeString(t + [s[0]] + s[1..][..j]).None? {
      assert t + [s[0]] + s[1..][..j] == t + s[..j + 1];
    }
  }

  lemma PieceUndecodable(p: Piece)
    requires p.Valid()
    ensures Undecodable("", p.Spell())
  {
    forall j | 0 < j < |p.Spell()| ensures DecodeString("" + p.Spell()[..j]).None? {
      assert "" + p.Spell()[..j] == p.Spell()[..j];
    }
  }

  lemma PairUndecodable(p: Piece, q: Piece)
    requires p.IsHigh() && q.IsLow()
    ensures Undecodable("", p.Spell() + q.Spell())
  {
    var s := p.Spell() + q.Spell();
    forall j | 0 < j < |s| ensures DecodeString("" + s[..j]).None? {
      assert "" + s[..j] == s[..j];
      if j < 6 {
        assert s[..j] == p.Spell()[..j];
        PieceUndecodable(p);
        assert "" + p.Spell()[..j] == p.Spell()[..j];
      } else {
        assert s[..j] == p.Spell() + s[6..j];
        UnfinishedPair(p, s[6..j]);
      }
    }
  }

  lemma UnfinishedPair(p: Piece, rest: string)
    requires p.IsHigh() && |rest| < 6
    ensures DecodeString(p.Spell() + rest).None?
  {
    DecodeHex(p.digits, rest);
  }

  /** Public text: a fresh token inside a public string. */
  predicate Emitting(m: Machine) {
    Collecting(m) && m.publicValue && m.token == "" && !m.escaped
  }

  lemma SmallUnit(p: seq<Piece>)
    requires AllValid(p) && |p| <= 2
    ensures Utf8Len(Spelling(p)) <= MAX_EVENT_BYTES
  {
    Utf8AtMost(Spelling(p));
    if |p| > 0 {
      assert |p[0].Spell()| <= 6;
      if |p| > 1 {
        assert |p[1].Spell()| <= 6;
        assert p[1..][1..] == [];
      } else {
        assert p[1..] == [];
      }
    }
  }

  lemma {:induction false} Utf8AtMost(s: string)
    ensures Utf8Len(s) <= 4 * |s|
  {
    if s != "" {
      Utf8AtMost(s[1..]);
    }
  }

  lemma EmitUnit(m: Machine, s: string, c: char)
    requires Emitting(m) && s != "" && Utf8Len(s) <= MAX_EVENT_BYTES
    requires NoBareQuote(s, false) && !Toggle(s, false) && Undecodable("", s)
    requires DecodeString(s) == Prepend(c, Some(""))
    ensures Leads(m, s, [c], m)
  {
    assert "" + s == s;
    assert [c] + "" == [c];
    EmitHeld(m, s, c);
  }

  lemma EmitPiece(m: Machine, p: Piece)
    requires Emitting(m) && p.Valid() && !p.IsHigh() && p.Alone().Some?
    ensures Leads(m, p.Spell(), [p.Alone().value], m)
  {
    SmallUnit([p]);
    SpellingOne(p);
    PieceQuotes(p);
    PieceUndecodable(p);
    DecodeSingle(p, "");
    assert p.Spell() + "" == p.Spell();
    EmitUnit(m, p.Spell(), p.Alone().value);
  }

  lemma PairText(p: Piece, q: Piece)
    requires p.IsHigh() && q.IsLow()
    ensures var s := p.Spell() + q.Spell();
      && Utf8Len(s) <= MAX_EVENT_BYTES && NoBareQuote(s, false) && !Toggle(s, false)
      && DecodeString(s) == Prepend(Combine(HexValue(p.digits), HexValue(q.digits)), Some(""))
  {
    SmallUnit([p, q]);
    SpellingTwo(p, q);
    PieceQuotes(p);
    PieceQuotes(q);
    QuotesConcat(p.Spell(), q.Spell(), false);
    DecodePair(p, q, "");
    assert q.Spell() + "" == q.Spell();
  }

  lemma EmitPair(m: Machine, p: Piece, q: Piece)
    requires Emitting(m) && p.IsHigh() && q.IsLow()
    ensures Leads(m, p.Spell() + q.Spell(), [Combine(HexValue(p.digits), HexValue(q.digits))], m)
  {
    PairText(p, q);
    PairUndecodable(p, q);
    EmitUnit(m, p.Spell() + q.Spell(), Combine(HexValue(p.digits), HexValue(q.digits)));
  }

  /** A public value is emitted as its meaning. */
  lemma {:induction false} EmitPieces(m: Machine, p: seq<Piece>)
    requires Emitting(m) && AllValid(p) && Meaning(p).Some?
    ensures Leads(m, Spelling(p), Meaning(p).value, m)
    decreases |p|
  {
    if p == [] {
    } else if p[0].IsHigh() {
      SpellingPair(p);
      EmitPair(m, p[0], p[1]);
      EmitPieces(m, p[2..]);
      Chain(m, p[0].Spell() + p[1].Spell(), [Combine(HexValue(p[0].digits), HexValue(p[1].digits))], m,
            Spelling(p[2..]), Meaning(p[2..]).value, m);
    } else {
      EmitPiece(m, p[0]);
      EmitPieces(m, p[1..]);
      Chain(m, p[0].Spell(), [p[0].Alone().value], m, Spelling(p[1..]), Meaning(p[1..]).value, m);
    }
  }

  lemma SpellingPair(p: seq<Piece>)
    requires |p| >= 2
    ensures Spelling(p) == p[0].Spell() + p[1].Spell() + Spelling(p[2..])
  {
    assert p[1..][1..] == p[2..];
  }

  // ----- the structure around strings -----

  /** Between tokens, inside the root object. */
  predicate Between(m: Machine) {
    m.started && m.depth > 0 && !m.inString && !m.escaped && m.token == "" && !m.publicValue
  }

  /** Between tokens, where the next string is neither a root key nor a public value. */
  predicate Inert(m: Machine) {
    Between(m) && !m.keyExpected && !(m.depth == 1 && m.valueExpected && IsPublicKey(m.key))
  }

  predicate Nested(m: Machine) {
    Between(m) && m.depth >= 2 && !m.keyExpected && !m.valueExpected
  }

  lemma {:induction false} SkipBlank(m: Machine, s: string)
    requires (m.started ==> !m.inString) && JsonBlank(s)
    ensures Leads(m, s, "", m)
  {
    if s != "" {
      One(m, s[0], "", m);
      SkipBlank(m, s[1..]);
      Silent(m, [s[0]], m, s[1..], "", m);
      assert [s[0]] + s[1..] == s;
    }
  }

  lemma {:induction false} SkipAtom(m: Machine, s: string)
    requires Between(m) && AtomText(s)
    ensures Leads(m, s, "", m)
  {
    if s != "" {
      assert s[0] !in "\"{}[]:,";
      One(m, s[0], "", m);
      SkipAtom(m, s[1..]);
      Silent(m, [s[0]], m, s[1..], "", m);
      assert [s[0]] + s[1..] == s;
    }
  }

  /** Opening quote, inside and closing quote. */
  lemma Quotes(m: Machine, m1: Machine, p: seq<Piece>, text: string, m2: Machine, last: string, m3: Machine)
    requires Step(m, '"') == Outcome(m1, "", None)
    requires Leads(m1, Spelling(p), text, m2)
    requires Step(m2, '"') == Outcome(m3, last, None)
    ensures Leads(m, Quoted(p), text + last, m3)
  {
    One(m, '"', "", m1);
    One(m2, '"', last, m3);
    Chain(m1, Spelling(p), text, m2, "\"", last, m3);
    Silent(m, "\"", m1, Spelling(p) + "\"", text + last, m3);
  }

  lemma SkipString(m: Machine, p: seq<Piece>)
    requires Inert(m) && AllValid(p)
    ensures Leads(m, Quoted(p), "", m.(valueExpected := false))
  {
    var m1 := m.(inString := true, valueExpected := false);
    SkipPieces(m1, p);
    Quotes(m, m1, p, "", m1, "", m.(valueExpected := false));
  }

  /** What a value leaves behind. */
  function AfterCore(m: Machine, c: Core): Machine {
    if c.Atom? then m else m.(valueExpected := false)
  }

  lemma {:induction false} SkipJson(m: Machine, v: Json)
    requires Between(m) && !m.keyExpected && ValidJson(v) && (v.core.Str? ==> Inert(m))
    ensures Leads(m, JsonString(v), "", AfterCore(m, v.core))
    decreases v, 1
  {
    var m1 := AfterCore(m, v.core);
    SkipBlank(m, v.before);
    SkipCore(m, v.core);
    SkipBlank(m1, v.after);
    Silent(m, CoreText(v.core), m1, v.after, "", m1);
    Silent(m, v.before, m, CoreText(v.core) + v.after, "", m1);
  }

  lemma {:induction false} SkipCore(m: Machine, c: Core)
    requires Between(m) && !m.keyExpected && ValidCore(c) && (c.Str? ==> Inert(m))
    ensures Leads(m, CoreText(c), "", AfterCore(m, c))
    decreases c, 0
  {
    var inner := m.(depth := m.depth + 1, valueExpected := false);
    match c {
      case Str(p) => SkipString(m, p);
      case Atom(text) => SkipAtom(m, text);
      case Arr(inside, items) =>
        SkipItems(inner, items);
        Brackets(m, '[', inside, ItemsText(items), ']');
      case Obj(inside, members) =>
        SkipMembers(inner, members);
        Brackets(m, '{', inside, MembersText(members), '}');
    }
  }

  lemma Brackets(m: Machine, open: char, inside: string, body: string, close: char)
    requires Between(m) && !m.keyExpected && JsonBlank(inside)
    requires (open == '[' && close == ']') || (open == '{' && close == '}')
    requires var inner := m.(depth := m.depth + 1, valueExpected := false); Leads(inner, body, "", inner)
    ensures Leads(m, [open] + (inside + (body + [close])), "", m.(valueExpected := false))
  {
    var inner, last := m.(depth := m.depth + 1, valueExpected := false), m.(valueExpected := false);
    One(m, open, "", inner);
    SkipBlank(inner, inside);
    One(inner, close, "", last);
    Silent(inner, body, inner, [close], "", last);
    Silent(inner, inside, inner, body + [close], "", last);
    Silent(m, [open], inner, inside + (body + [close]), "", last);
  }

  lemma {:induction false} SkipItems(m: Machine, items: seq<Json>)
    requires Nested(m) && ValidItems(items)
    ensures Leads(m, ItemsText(items), "", m)
    decreases items, 0
  {
    if items != [] {
      SkipJson(m, items[0]);
      if |items| == 1 {
        assert JsonString(items[0]) + "" == JsonString(items[0]);
      } else {
        SkipItems(m, items[1..]);
        One(m, ',', "", m);
        Silent(m, ",", m, ItemsText(items[1..]), "", m);
        Silent(m, JsonString(items[0]), m, "," + ItemsText(items[1..]), "", m);
      }
    }
  }

  lemma {:induction false} SkipMembers(m: Machine, members: seq<Member>)
    requires Nested(m) && ValidMembers(members)
    ensures Leads(m, MembersText(members), "", m)
    decreases members, 0
  {
    if members != [] {
      SkipMember(m, members[0]);
      if |members| == 1 {
        assert MemberText(members[0]) + "" == MemberText(members[0]);
      } else {
        SkipMembers(m, members[1..]);
        One(m, ',', "", m);
        Silent(m, ",", m, MembersText(members[1..]), "", m);
        Silent(m, MemberText(members[0]), m, "," + MembersText(members[1..]), "", m);
      }
    }
  }

  lemma {:induction false} SkipMember(m: Machine, x: Member)
    requires Nested(m) && ValidMember(x)
    ensures Leads(m, MemberText(x), "", m)
    decreases x, 0
  {
    SkipJson(m, x.value);
    One(m, ':', "", m);
    SkipBlank(m, x.afterKey);
    SkipString(m, x.key);
    SkipBlank(m, x.beforeKey);
    var t1 := ":" + JsonString(x.value);
    var t2 := x.afterKey + t1;
    Silent(m, ":", m, JsonString(x.value), "", m);
    Silent(m, x.afterKey, m, t1, "", m);
    Silent(m, Quoted(x.key), m, t2, "", m);
    Silent(m, x.beforeKey, m, Quoted(x.key) + t2, "", m);
  }

  // ----- the root object -----

  predicate AtKey(m: Machine) {
    Between(m) && m.depth == 1 && m.keyExpected && !m.valueExpected
  }

  lemma ReadKey(m: Machine, p: seq<Piece>)
    requires AtKey(m) && AllValid(p) && Meaning(p).Some? && Utf8Len(Spelling(p)) <= MAX_EVENT_BYTES
    ensures Leads(m, Quoted(p), "", m.(key := Meaning(p).value, keyExpected := false))
  {
    var m1 := m.(inString := true);
    var m2 := m1.(token := Spelling(p));
    SpellingQuotes(p);
    CollectKey(m1, Spelling(p));
    assert "" + Spelling(p) == Spelling(p);
    DecodeSpelling(p);
    Quotes(m, m1, p, "", m2, "", m.(key := Meaning(p).value, keyExpected := false));
  }

  lemma ReadPublic(m: Machine, p: seq<Piece>)
    requires Between(m) && m.depth == 1 && !m.keyExpected && m.valueExpected && IsPublicKey(m.key)
    requires AllValid(p) && Meaning(p).Some?
    ensures Leads(m, Quoted(p), Meaning(p).value, m.(valueExpected := false))
  {
    var m1 := m.(inString := true, publicValue := true, valueExpected := false);
    EmitPieces(m1, p);
    Quotes(m, m1, p, Meaning(p).value, m1, "", m.(valueExpected := false));
    assert Meaning(p).value + "" == Meaning(p).value;
  }

  function MemberPublic(x: Member): string
    requires Decodable([x])
  {
    assert [x][0] == x;
    if Meaning(x.key).value in PUBLIC && x.value.core.Str? then Meaning(x.value.core.pieces).value else ""
  }

  lemma ReadValue(m: Machine, x: Member)
    requires Between(m) && m.depth == 1 && !m.keyExpected && m.valueExpected
    requires Decodable([x]) && ValidMember(x) && m.key == Meaning([x][0].key).value
    ensures Leads(m, JsonString(x.value), MemberPublic(x), AfterCore(m, x.value.core))
  {
    assert [x][0] == x;
    var m1 := AfterCore(m, x.value.core);
    if IsPublicKey(m.key) && x.value.core.Str? {
      ReadPublic(m, x.value.core.pieces);
      SkipBlank(m, x.value.before);
      SkipBlank(m1, x.value.after);
      Chain(m, CoreText(x.value.core), MemberPublic(x), m1, x.value.after, "", m1);
      assert MemberPublic(x) + "" == MemberPublic(x);
      Silent(m, x.value.before, m, CoreText(x.value.core) + x.value.after, MemberPublic(x), m1);
    } else {
      SkipJson(m, x.value);
    }
  }

  lemma ReadMember(m: Machine, x: Member) returns (m': Machine)
    requires AtKey(m) && ValidMember(x) && Decodable([x]) && Utf8Len(MemberText(x)) <= MAX_EVENT_BYTES
    ensures Leads(m, MemberText(x), MemberPublic(x), m') && Between(m') && m'.depth == 1
  {
    assert [x][0] == x;
    var m1 := m.(key := Meaning(x.key).value, keyExpected := false);
    var m2 := m1.(valueExpected := true);
    m' := AfterCore(m2, x.value.core);
    var t1 := ":" + JsonString(x.value);
    var t2 := x.afterKey + t1;
    KeyFits(x);
    SkipBlank(m, x.beforeKey);
    ReadKey(m, x.key);
    SkipBlank(m1, x.afterKey);
    One(m1, ':', "", m2);
    ReadValue(m2, x);
    Silent(m1, ":", m2, JsonString(x.value), MemberPublic(x), m');
    Silent(m1, x.afterKey, m1, t1, MemberPublic(x), m');
    Silent(m, Quoted(x.key), m1, t2, MemberPublic(x), m');
    Silent(m, x.beforeKey, m, Quoted(x.key) + t2, MemberPublic(x), m');
  }

  lemma KeyFits(x: Member)
    ensures Utf8Len(Spelling(x.key)) <= Utf8Len(MemberText(x))
  {
    var t := x.afterKey + (":" + JsonString(x.value));
    Utf8LenConcat(Spelling(x.key), "\"");
    Utf8LenConcat("\"", Spelling(x.key) + "\"");
    Utf8LenConcat(Quoted(x.key), t);
    Utf8LenConcat(x.beforeKey, Quoted(x.key) + t);
  }

  lemma {:induction false} ReadMembers(m: Machine, ms: seq<Member>) returns (m': Machine)
    requires AtKey(m) && ValidMembers(ms) && Decodable(ms) && Utf8Len(MembersText(ms)) <= MAX_EVENT_BYTES
    ensures Leads(m, MembersText(ms), PublicText(ms), m') && Between(m') && m'.depth == 1
    decreases |ms|, 0
  {
    m' := m;
    if ms != [] {
      var later := if |ms| == 1 then "" else "," + MembersText(ms[1..]);
      Utf8LenConcat(MemberText(ms[0]), later);
      assert MemberPublic(ms[0]) + PublicText(ms[1..]) == PublicText(ms);
      var m1 := ReadMember(m, ms[0]);
      if |ms| == 1 {
        m' := m1;
        assert MemberText(ms[0]) + "" == MemberText(ms[0]);
        assert PublicText(ms[1..]) == "" && MemberPublic(ms[0]) + "" == MemberPublic(ms[0]);
      } else {
        m' := ReadMoreMembers(m1, ms[1..]);
        Chain(m, MemberText(ms[0]), MemberPublic(ms[0]), m1, later, PublicText(ms[1..]), m');
      }
    }
  }

  lemma {:induction false} ReadMoreMembers(m: Machine, ms: seq<Member>) returns (m': Machine)
    requires Between(m) && m.depth == 1 && ValidMembers(ms) && Decodable(ms)
    requires Utf8Len("," + MembersText(ms)) <= MAX_EVENT_BYTES
    ensures Leads(m, "," + MembersText(ms), PublicText(ms), m') && Between(m') && m'.depth == 1
    decreases |ms|, 1
  {
    var m1 := m.(keyExpected := true, valueExpected := false, key := "");
    Utf8LenConcat(",", MembersText(ms));
    One(m, ',', "", m1);
    m' := ReadMembers(m1, ms);
    Silent(m, ",", m1, MembersText(ms), PublicText(ms), m');
  }

  lemma ReadObject(c: Core) returns (last: Machine)
    requires c.Obj? && ValidCore(c) && Decodable(c.members) && Utf8Len(MembersText(c.members)) <= MAX_EVENT_BYTES
    ensures Leads(INIT, CoreText(c), PublicText(c.members), last) && last.started && !last.inString && last.depth == 0
  {
    var body, text := MembersText(c.members), PublicText(c.members);
    var m1 := INIT.(started := true, depth := 1, keyExpected := true);
    One(INIT, '{', "", m1);
    SkipBlank(m1, c.inside);
    var m2 := ReadMembers(m1, c.members);
    last := m2.(depth := 0, valueExpected := false);
    One(m2, '}', "", last);
    Chain(m1, body, text, m2, "}", "", last);
    assert text + "" == text;
    Silent(m1, c.inside, m1, body + "}", text, last);
    Silent(INIT, "{", m1, c.inside + (body + "}"), text, last);
  }

  lemma ReadRoot(doc: Json) returns (last: Machine)
    requires doc.core.Obj? && ValidJson(doc) && Decodable(doc.core.members)
    requires Utf8Len(JsonString(doc)) <= MAX_EVENT_BYTES
    ensures Leads(INIT, JsonString(doc), PublicText(doc.core.members), last) && last.started && last.depth == 0
  {
    var text := PublicText(doc.core.members);
    MembersFit(doc);
    last := ReadObject(doc.core);
    SkipBlank(last, doc.after);
    Chain(INIT, CoreText(doc.core), text, last, doc.after, "", last);
    assert text + "" == text;
    SkipBlank(INIT, doc.before);
    Silent(INIT, doc.before, INIT, CoreText(doc.core) + doc.after, text, last);
  }

  lemma MembersFit(doc: Json)
    requires doc.core.Obj?
    ensures Utf8Len(MembersText(doc.core.members)) <= Utf8Len(JsonString(doc))
  {
    var t := MembersText(doc.core.members);
    Utf8LenConcat(t, "}");
    Utf8LenConcat(doc.core.inside, t + "}");
    Utf8LenConcat("{", doc.core.inside + (t + "}"));
    Utf8LenConcat(CoreText(doc.core), doc.after);
    Utf8LenConcat(doc.before, CoreText(doc.core) + doc.after);
  }

  /**
    Main result: from any object of at most 1 MiB whose root keys and public strings decode, however it is split, the
    filter emits exactly the decoded public strings in document order, without an error.
   */
  lemma DocumentEmitsPublicText(doc: Json, chunks: seq<string>)
    requires doc.core.Obj? && ValidJson(doc) && Decodable(doc.core.members)
    requires Join(chunks) == JsonString(doc) && Utf8Len(Join(chunks)) <= MAX_EVENT_BYTES
    ensures var all := PushAll(FRESH, chunks);
      all.text == PublicText(doc.core.members) && all.errors == [] && !all.stream.failed
  {
    var last := ReadRoot(doc);
    ChunksAgree(FRESH, chunks);
  }
}
