/** What compaction makes of a document: the same tree without its layout (core/agent/src/capability.rs). */
module CompactDocuments {
  import opened Wrappers
  import opened Text
  import opened JsonText
  import opened JsonDocuments
  import opened CompactJson

  // ----- a document without layout -----

  function Squeezed(s: string): string {
    if s == "" then "" else (if IsWhitespace(s[0]) then "" else [s[0]]) + Squeezed(s[1..])
  }

  function Bare(v: Json): Json
    decreases v, 1
  {
    Json("", BareCore(v.core), "")
  }

  /** Strings stay as they are, spelling included. */
  function BareCore(c: Core): Core
    decreases c, 0
  {
    match c
    case Str(p) => Str(p)
    case Atom(text) => Atom(Squeezed(text))
    case Arr(_, items) => Arr("", BareItems(items))
    case Obj(_, members) => Obj("", BareMembers(members))
  }

  function BareItems(items: seq<Json>): seq<Json>
    decreases items, 0
  {
    if items == [] then [] else [Bare(items[0])] + BareItems(items[1..])
  }

  function BareMember(m: Member): Member
    decreases m, 0
  {
    Member("", m.key, "", Bare(m.value))
  }

  function BareMembers(members: seq<Member>): seq<Member>
    decreases members, 0
  {
    if members == [] then [] else [BareMember(members[0])] + BareMembers(members[1..])
  }

  // ----- one part after the other -----

  function Reads(s: string, r: Reader): Reader {
    if s == "" then r else Reads(s[1..], Next(r, s[0]))
  }

  /** A part read from outside any string to outside any string, and what is kept of it. */
  predicate Leaves(s: string, kept: string) {
    Compact(s, START) == kept && Reads(s, START) == START
  }

  lemma {:induction false} CompactConcat(a: string, b: string, r: Reader)
    ensures Compact(a + b, r) == Compact(a, r) + Compact(b, Reads(a, r))
    ensures Reads(a + b, r) == Reads(b, Reads(a, r))
    decreases |a|
  {
    if a == "" {
      assert a + b == b;
    } else {
      assert (a + b)[1..] == a[1..] + b;
      CompactConcat(a[1..], b, Next(r, a[0]));
    }
  }

  lemma Both(a: string, x: string, b: string, y: string)
    requires Leaves(a, x) && Leaves(b, y)
    ensures Leaves(a + b, x + y)
  {
    CompactConcat(a, b, START);
  }

  lemma {:induction false} Outside(s: string)
    requires forall i :: 0 <= i < |s| ==> s[i] != '"'
    ensures Leaves(s, Squeezed(s))
  {
    if s != "" {
      Outside(s[1..]);
    }
  }

  lemma {:induction false} BlankSqueezed(s: string)
    requires JsonBlank(s)
    ensures Leaves(s, "")
  {
    if s != "" {
      assert IsJsonWhitespace(s[0]);
      BlankSqueezed(s[1..]);
    }
  }

  lemma {:induction false} InsideKept(s: string, escaped: bool)
    requires NoBareQuote(s, escaped) && !Toggle(s, escaped)
    ensures Compact(s + "\"", Reader(true, escaped)) == s + "\""
    ensures Reads(s + "\"", Reader(true, escaped)) == START
    decreases |s|
  {
    if s == "" {
      assert s + "\"" == "\"" && "\""[1..] == "";
    } else {
      assert (s + "\"")[1..] == s[1..] + "\"";
      InsideKept(s[1..], s[0] == '\\' && !escaped);
    }
  }

  lemma StringKept(p: seq<Piece>)
    requires AllValid(p)
    ensures Leaves(Quoted(p), Quoted(p))
  {
    SpellingQuotes(p);
    InsideKept(Spelling(p), false);
    assert Quoted(p)[1..] == Spelling(p) + "\"";
  }

  lemma MarkKept(c: char)
    requires c in "{}[]:,"
    ensures Leaves([c], [c])
  {
    assert [c][1..] == "";
  }

  /** Layout in front of a part goes. */
  lemma AfterBlank(blank: string, s: string, kept: string)
    requires JsonBlank(blank) && Leaves(s, kept)
    ensures Leaves(blank + s, kept) && Leaves(s + blank, kept)
  {
    BlankSqueezed(blank);
    Both(blank, "", s, kept);
    Both(s, kept, blank, "");
    assert "" + kept == kept == kept + "";
  }

  /** A part between two brackets. */
  lemma Bracketed(open: char, inside: string, s: string, kept: string, close: char)
    requires open in "{}[]:," && close in "{}[]:," && JsonBlank(inside) && Leaves(s, kept)
    ensures Leaves([open] + (inside + (s + [close])), [open] + ("" + (kept + [close])))
  {
    MarkKept(open);
    MarkKept(close);
    Both(s, kept, [close], [close]);
    AfterBlank(inside, s + [close], kept + [close]);
    Both([open], [open], inside + (s + [close]), kept + [close]);
    assert "" + (kept + [close]) == kept + [close];
  }

  // ----- along the tree -----

  lemma {:induction false} JsonKept(v: Json)
    requires ValidJson(v)
    ensures Leaves(JsonString(v), JsonString(Bare(v)))
    decreases v, 1
  {
    var kept := CoreText(BareCore(v.core));
    CoreKept(v.core);
    AfterBlank(v.after, CoreText(v.core), kept);
    AfterBlank(v.before, CoreText(v.core) + v.after, kept);
    assert "" + (kept + "") == kept;
  }

  lemma {:induction false} CoreKept(c: Core)
    requires ValidCore(c)
    ensures Leaves(CoreText(c), CoreText(BareCore(c)))
    decreases c, 0
  {
    match c {
      case Str(p) => StringKept(p);
      case Atom(text) =>
        assert forall i :: 0 <= i < |text| ==> text[i] != '"';
        Outside(text);
      case Arr(inside, items) =>
        ItemsKept(items);
        Bracketed('[', inside, ItemsText(items), ItemsText(BareItems(items)), ']');
      case Obj(inside, members) =>
        MembersKept(members);
        Bracketed('{', inside, MembersText(members), MembersText(BareMembers(members)), '}');
    }
  }

  lemma {:induction false} ItemsKept(items: seq<Json>)
    requires ValidItems(items)
    ensures Leaves(ItemsText(items), ItemsText(BareItems(items)))
    decreases items, 0
  {
    if items != [] {
      var bare := BareItems(items);
      assert bare[0] == Bare(items[0]) && bare[1..] == BareItems(items[1..]);
      JsonKept(items[0]);
      ItemsKept(items[1..]);
      OneMore(items[1..] == [], JsonString(items[0]), JsonString(bare[0]), ItemsText(items[1..]), ItemsText(bare[1..]));
    }
  }

  lemma OneMore(last: bool, s: string, kept: string, later: string, laterKept: string)
    requires Leaves(s, kept) && Leaves(later, laterKept)
    ensures Leaves(s + (if last then "" else "," + later), kept + (if last then "" else "," + laterKept))
  {
    MarkKept(',');
    Both(",", ",", later, laterKept);
    if last {
      assert s + "" == s && kept + "" == kept;
    } else {
      Both(s, kept, "," + later, "," + laterKept);
    }
  }

  lemma {:induction false} MemberKept(m: Member)
    requires ValidMember(m)
    ensures Leaves(MemberText(m), MemberText(BareMember(m)))
    decreases m, 0
  {
    var value, kept := JsonString(m.value), JsonString(Bare(m.value));
    JsonKept(m.value);
    MarkKept(':');
    Both(":", ":", value, kept);
    AfterBlank(m.afterKey, ":" + value, ":" + kept);
    StringKept(m.key);
    Both(Quoted(m.key), Quoted(m.key), m.afterKey + (":" + value), ":" + kept);
    AfterBlank(m.beforeKey, Quoted(m.key) + (m.afterKey + (":" + value)), Quoted(m.key) + (":" + kept));
    assert "" + (":" + kept) == ":" + kept;
    assert "" + (Quoted(m.key) + (":" + kept)) == Quoted(m.key) + (":" + kept);
  }

  lemma {:induction false} MembersKept(members: seq<Member>)
    requires ValidMembers(members)
    ensures Leaves(MembersText(members), MembersText(BareMembers(members)))
    decreases members, 0
  {
    if members != [] {
      var bare := BareMembers(members);
      assert bare[0] == BareMember(members[0]) && bare[1..] == BareMembers(members[1..]);
      MemberKept(members[0]);
      MembersKept(members[1..]);
      OneMore(members[1..] == [], MemberText(members[0]), MemberText(bare[0]), MembersText(members[1..]), MembersText(bare[1..]));
    }
  }

  /** Main result: compacting a document drops exactly its layout; every string keeps its spelling. */
  lemma CompactIsBare(doc: Json)
    requires ValidJson(doc)
    ensures Compact(JsonString(doc), START) == JsonString(Bare(doc))
  {
    JsonKept(doc);
  }
}
