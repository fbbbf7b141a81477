/** Whole XML documents. */
module XmlDocuments {
  // Exactly the text directly inside the public fields of the root is emitted, with references and CDATA sections decoded
  // (XML 1.0 sections 2.7 and 4.6).

  import opened Wrappers
  import opened Text
  import opened XmlStream
  import opened XmlChunks

  // ----- escaping, as `escape_xml_synopsis_text` does it (core/agent/src/capability.rs) -----

  function Replace(s: string, c: char, entity: string): string {
    if s == "" then "" else (if s[0] == c then entity else [s[0]]) + Replace(s[1..], c, entity)
  }

  function EscapeText(s: string): string {
    Replace(Replace(Replace(s, '&', "&amp;"), '<', "&lt;"), '>', "&gt;")
  }

  function EscapeChar(c: char): string {
    match c
    case '&' => "&amp;"
    case '<' => "&lt;"
    case '>' => "&gt;"
    case _ => [c]
  }

  lemma {:induction false} ReplaceConcat(a: string, b: string, c: char, entity: string)
    ensures Replace(a + b, c, entity) == Replace(a, c, entity) + Replace(b, c, entity)
  {
    if a == "" {
      assert a + b == b;
    } else {
      assert (a + b)[1..] == a[1..] + b;
      ReplaceConcat(a[1..], b, c, entity);
    }
  }

  /** Whatever is already escaped stays as it is: the ampersand has to be replaced first. */
  lemma {:induction false} ReplaceNothing(a: string, c: char, entity: string)
    requires forall i :: 0 <= i < |a| ==> a[i] != c
    ensures Replace(a, c, entity) == a
  {
    if a != "" {
      ReplaceNothing(a[1..], c, entity);
      assert [a[0]] + a[1..] == a;
    }
  }

  /** The three replacements in sequence escape every character once. */
  lemma {:induction false} EscapeFirst(s: string)
    requires s != ""
    ensures EscapeText(s) == EscapeChar(s[0]) + EscapeText(s[1..])
  {
    var first := Replace([s[0]], '&', "&amp;");
    var rest := Replace(s[1..], '&', "&amp;");
    assert [s[0]] + s[1..] == s;
    ReplaceConcat([s[0]], s[1..], '&', "&amp;");
    ReplaceConcat(first, rest, '<', "&lt;");
    ReplaceConcat(Replace(first, '<', "&lt;"), Replace(rest, '<', "&lt;"), '>', "&gt;");
    EscapeOne(s[0]);
  }

  lemma ReplaceOne(c: char, k: char, entity: string)
    ensures Replace([c], k, entity) == if c == k then entity else [c]
  {
    assert [c][1..] == "";
    assert entity + "" == entity;
  }

  lemma EscapeOne(c: char)
    ensures EscapeText([c]) == EscapeChar(c)
  {
    ReplaceOne(c, '&', "&amp;");
    ReplaceOne(c, '<', "&lt;");
    ReplaceOne(c, '>', "&gt;");
    if c == '&' {
      ReplaceNothing("&amp;", '<', "&lt;");
      ReplaceNothing("&amp;", '>', "&gt;");
    } else if c == '<' {
      ReplaceNothing("&lt;", '>', "&gt;");
    }
  }

  // ----- marked-up text -----

  /** A character as it is, or a reference between `&` and `;`. */
  datatype Mark = Plain(c: char) | Reference(name: string)

  /** The predefined entities of XML 1.0 section 4.6, by code point. */
  const PREDEFINED: map<string, nat> := map["lt" := 60, "gt" := 62, "amp" := 38, "apos" := 39, "quot" := 34]

  predicate MarkOk(m: Mark) {
    match m
    case Plain(c) => c != '<' && c != '&'
    case Reference(name) => forall i :: 0 <= i < |name| ==> name[i] != '<' && name[i] != ';'
  }

  predicate MarksOk(ms: seq<Mark>) {
    forall i :: 0 <= i < |ms| ==> MarkOk(ms[i])
  }

  function MarkText(m: Mark): string {
    match m
    case Plain(c) => [c]
    case Reference(name) => "&" + name + ";"
  }

  function MarksText(ms: seq<Mark>): string {
    if ms == [] then "" else MarkText(ms[0]) + MarksText(ms[1..])
  }

  /** The character that is meant; any other reference stands for its own text. */
  function Meant(m: Mark): string {
    match m
    case Plain(c) => [c]
    case Reference(name) => if name in PREDEFINED then [PREDEFINED[name] as char] else "&" + name + ";"
  }

  function MarksMeant(ms: seq<Mark>): string {
    if ms == [] then "" else Meant(ms[0]) + MarksMeant(ms[1..])
  }

  /** The marks that escaping makes of a text. */
  function EscapedMark(c: char): Mark {
    match c
    case '&' => Reference("amp")
    case '<' => Reference("lt")
    case '>' => Reference("gt")
    case _ => Plain(c)
  }

  function EscapedMarks(s: string): seq<Mark> {
    if s == "" then [] else [EscapedMark(s[0])] + EscapedMarks(s[1..])
  }

  lemma EscapedMeant(c: char)
    ensures MarkOk(EscapedMark(c)) && Meant(EscapedMark(c)) == [c] && MarkText(EscapedMark(c)) == EscapeChar(c)
  {
    assert '&' as int == 38 && '<' as int == 60 && '>' as int == 62;
  }

  lemma MarksStep(m: Mark, ms: seq<Mark>)
    requires MarkOk(m) && MarksOk(ms)
    ensures MarksOk([m] + ms)
    ensures MarksText([m] + ms) == MarkText(m) + MarksText(ms) && MarksMeant([m] + ms) == Meant(m) + MarksMeant(ms)
  {
    assert ([m] + ms)[1..] == ms;
  }

  /** Escaping a text marks up exactly that text. */
  lemma {:induction false} EscapeMarks(s: string)
    ensures MarksOk(EscapedMarks(s)) && MarksText(EscapedMarks(s)) == EscapeText(s) && MarksMeant(EscapedMarks(s)) == s
  {
    if s == "" {
      assert EscapeText("") == "";
    } else {
      EscapeMarks(s[1..]);
      EscapedMeant(s[0]);
      MarksStep(EscapedMark(s[0]), EscapedMarks(s[1..]));
      EscapeFirst(s);
      assert [s[0]] + s[1..] == s;
    }
  }

  // ----- documents -----

  datatype Node =
    | Chars(marks: seq<Mark>)
    | CData(s: string)
    | Element(name: string, attributes: string, children: seq<Node>, closing: string, gap: string)
    | Empty(name: string, attributes: string)

  predicate NameOk(name: string) {
    && name != "" && name[0] != '!'
    && forall i :: 0 <= i < |name| ==> !IsWhitespace(name[i]) && name[i] != '/' && name[i] != '>'
  }

  predicate Blank(s: string) {
    forall i :: 0 <= i < |s| ==> IsWhitespace(s[i])
  }

  /** Attributes follow the name after whitespace; `>` has to be escaped in them. */
  predicate AttributesOk(a: string) {
    && (a == "" || IsWhitespace(a[0]))
    && forall i :: 0 <= i < |a| ==> a[i] != '>'
  }

  /** A start tag that ends with a slash would be a self-closing one. */
  predicate NotSelfClosing(a: string) {
    var t := TrimEnd(a);
    t == "" || t[|t| - 1] != '/'
  }

  predicate NoClose(s: string) {
    s == "" || (!(CDATA_CLOSE <= s) && NoClose(s[1..]))
  }

  predicate Valid(n: Node)
    decreases n, 0
  {
    match n
    case Chars(marks) => MarksOk(marks)
    case CData(s) => NoClose(s)
    case Element(name, attributes, children, closing, gap) =>
      && NameOk(name) && AttributesOk(attributes) && NotSelfClosing(attributes)
      && NameOk(closing) && AsciiLower(closing) == AsciiLower(name) && Blank(gap)
      && AllValid(children)
    case Empty(name, attributes) => NameOk(name) && AttributesOk(attributes)
  }

  predicate AllValid(ns: seq<Node>)
    decreases ns, 0
  {
    ns == [] || (Valid(ns[0]) && AllValid(ns[1..]))
  }

  function Height(n: Node): nat
    decreases n, 0
  {
    if n.Element? then 1 + MaxHeight(n.children) else 0
  }

  function MaxHeight(ns: seq<Node>): nat
    decreases ns, 0
  {
    if ns == [] then 0
    else
      var a, b := Height(ns[0]), MaxHeight(ns[1..]);
      if a > b then a else b
  }

  /** A node as text, followed by `rest`. */
  function NodeText(n: Node, rest: string): string
    decreases n, 0
  {
    match n
    case Chars(marks) => MarksText(marks) + rest
    case CData(s) => CDATA_OPEN + (s + (CDATA_CLOSE + rest))
    case Element(name, attributes, children, closing, gap) =>
      StartTag(name, attributes) + NodesText(children, EndTag(closing, gap) + rest)
    case Empty(name, attributes) => EmptyTag(name, attributes) + rest
  }

  function NodesText(ns: seq<Node>, rest: string): string
    decreases ns, 0
  {
    if ns == [] then rest else NodeText(ns[0], NodesText(ns[1..], rest))
  }

  function StartTag(name: string, attributes: string): string { "<" + (name + attributes) + ">" }
  function EndTag(closing: string, gap: string): string { "<" + ("/" + closing + gap) + ">" }
  function EmptyTag(name: string, attributes: string): string { "<" + (name + attributes + "/") + ">" }

  /** The text directly inside an element. */
  function DirectText(ns: seq<Node>): string {
    if ns == [] then ""
    else (if ns[0].Chars? then MarksMeant(ns[0].marks) else if ns[0].CData? then ns[0].s else "") + DirectText(ns[1..])
  }

  /** The public text of a root element with these children. */
  function DocumentText(ns: seq<Node>): string {
    if ns == [] then ""
    else
      (if ns[0].Element? && AsciiLower(ns[0].name) in {"free_talk", "final_answer"} then DirectText(ns[0].children) else "")
      + DocumentText(ns[1..])
  }

  // ----- what the filter emits, as a function of its stack -----

  function NodePublic(n: Node, stack: seq<string>): string
    decreases n, 0
  {
    match n
    case Chars(marks) => Public(stack, MarksMeant(marks))
    case CData(s) => Public(stack, s)
    case Element(name, _, children, _, _) => NodesPublic(children, stack + [AsciiLower(name)])
    case Empty(_, _) => ""
  }

  function NodesPublic(ns: seq<Node>, stack: seq<string>): string
    decreases ns, 0
  {
    if ns == [] then "" else NodePublic(ns[0], stack) + NodesPublic(ns[1..], stack)
  }

  lemma {:induction false} DeepIsSilent(n: Node, stack: seq<string>)
    requires |stack| >= 2 && !Target(stack)
    ensures NodePublic(n, stack) == ""
    decreases n, 0
  {
    if n.Element? {
      DeepAreSilent(n.children, stack + [AsciiLower(n.name)]);
    }
  }

  lemma {:induction false} DeepAreSilent(ns: seq<Node>, stack: seq<string>)
    requires |stack| >= 2 && !Target(stack)
    ensures NodesPublic(ns, stack) == ""
    decreases ns, 0
  {
    if ns != [] {
      DeepIsSilent(ns[0], stack);
      DeepAreSilent(ns[1..], stack);
    }
  }

  lemma {:induction false} FieldIsDirectText(ns: seq<Node>, stack: seq<string>)
    requires Target(stack)
    ensures NodesPublic(ns, stack) == DirectText(ns)
  {
    if ns != [] {
      FieldIsDirectText(ns[1..], stack);
      if ns[0].Element? {
        DeepAreSilent(ns[0].children, stack + [AsciiLower(ns[0].name)]);
      }
    }
  }

  lemma {:induction false} RootIsDocumentText(ns: seq<Node>)
    ensures NodesPublic(ns, ["assistant"]) == DocumentText(ns)
  {
    if ns != [] {
      RootIsDocumentText(ns[1..]);
      if ns[0].Element? {
        var name := AsciiLower(ns[0].name);
        assert ["assistant"] + [name] == ["assistant", name];
        if name in {"free_talk", "final_answer"} {
          FieldIsDirectText(ns[0].children, ["assistant", name]);
        } else {
          DeepAreSilent(ns[0].children, ["assistant", name]);
        }
      }
    }
  }

  // ----- how the filter gets through a document -----

  predicate Leads(p: string, stack: seq<string>, cdata: bool, text: string, q: string, stack': seq<string>, cdata': bool) {
    Drain(Xml(p, stack, cdata)) == Emit(text, Drain(Xml(q, stack', cdata')))
  }

  lemma Chain(p: string, s: seq<string>, c: bool, a: string, q: string, s': seq<string>, c': bool,
              b: string, r: string, s'': seq<string>, c'': bool)
    requires Leads(p, s, c, a, q, s', c') && Leads(q, s', c', b, r, s'', c'')
    ensures Leads(p, s, c, a + b, r, s'', c'')
  {
    EmitTwice(a, b, Drain(Xml(r, s'', c'')));
  }

  lemma {:induction false} CDataBody(s: string, stack: seq<string>, rest: string)
    requires NoClose(s)
    ensures Leads(s + (CDATA_CLOSE + rest), stack, true, Public(stack, s), rest, stack, false)
  {
    var p := s + (CDATA_CLOSE + rest);
    if s == "" {
      assert p[3..] == rest;
    } else {
      var q := s[1..] + (CDATA_CLOSE + rest);
      assert p[1..] == q;
      NoEarlyClose(s, rest);
      CDataBody(s[1..], stack, rest);
      Chain(p, stack, true, Public(stack, [s[0]]), q, stack, true, Public(stack, s[1..]), rest, stack, false);
      assert [s[0]] + s[1..] == s;
    }
  }

  lemma NoEarlyClose(s: string, rest: string)
    requires s != "" && NoClose(s)
    ensures var p := s + (CDATA_CLOSE + rest); !(CDATA_CLOSE <= p) && !(p <= CDATA_CLOSE)
  {
    var p := s + (CDATA_CLOSE + rest);
    assert |p| >= 4;
    assert |s| >= 3 ==> p[..3] == s[..3];
    assert |s| < 3 ==> p[2] == (CDATA_CLOSE + rest)[2 - |s|] == ']';
  }

  lemma CDataSection(s: string, stack: seq<string>, rest: string)
    requires NoClose(s)
    ensures Leads(CDATA_OPEN + (s + (CDATA_CLOSE + rest)), stack, false, Public(stack, s), rest, stack, false)
  {
    var q := s + (CDATA_CLOSE + rest);
    var p := CDATA_OPEN + q;
    assert p[9..] == q && |p| > 9;
    CDataBody(s, stack, rest);
    Chain(p, stack, false, "", q, stack, true, Public(stack, s), rest, stack, false);
    assert "" + Public(stack, s) == Public(stack, s);
  }

  lemma {:induction false} PlainText(t: string, stack: seq<string>, rest: string)
    requires stack != [] || Blank(t)
    requires forall i :: 0 <= i < |t| ==> t[i] != '<' && !(Target(stack) && t[i] == '&')
    ensures Leads(t + rest, stack, false, Public(stack, t), rest, stack, false)
  {
    if t == "" {
      assert t + rest == rest;
      assert "" + Drain(Xml(rest, stack, false)).text == Drain(Xml(rest, stack, false)).text;
    } else {
      assert t + rest == [t[0]] + (t[1..] + rest);
      PlainText(t[1..], stack, rest);
      Chain(t + rest, stack, false, Public(stack, [t[0]]), t[1..] + rest, stack, false, Public(stack, t[1..]), rest, stack, false);
      assert [t[0]] + t[1..] == t;
    }
  }

  lemma NameOf(name: string, e: string, other: string)
    requires e == "&" + other + ";"
    ensures "&" + name + ";" == e <==> name == other
  {
    var t := "&" + name + ";";
    assert t[1..|t| - 1] == name && e[1..|e| - 1] == other;
  }

  /** What the filter makes of a reference. */
  lemma EntityMeant(name: string)
    ensures Entity("&" + name + ";") == Meant(Reference(name))
  {
    NameOf(name, "&lt;", "lt");
    NameOf(name, "&gt;", "gt");
    NameOf(name, "&quot;", "quot");
    NameOf(name, "&apos;", "apos");
    NameOf(name, "&amp;", "amp");
    assert '<' as int == 60 && '>' as int == 62 && '&' as int == 38 && '\'' as int == 39 && '"' as int == 34;
  }

  lemma ReferenceText(name: string, rest: string)
    requires MarkOk(Reference(name))
    ensures var p := "&" + name + ";" + rest;
      p[0] == '&' && Find(p, ';') == Some(|name| + 1) && p[..|name| + 2] == "&" + name + ";" && p[|name| + 2..] == rest
  {
    var p := "&" + name + ";" + rest;
    assert p == ("&" + name) + ([';'] + rest);
    FindFirst("&" + name, ';', rest);
  }

  lemma ReferenceLeads(name: string, stack: seq<string>, rest: string)
    requires Target(stack) && MarkOk(Reference(name))
    ensures Leads("&" + name + ";" + rest, stack, false, Meant(Reference(name)), rest, stack, false)
  {
    var x := Xml("&" + name + ";" + rest, stack, false);
    ReferenceText(name, rest);
    EntityMeant(name);
    assert Decide(x) == Advance(|name| + 2, Meant(Reference(name)), stack, false);
  }

  lemma MarkLeads(m: Mark, stack: seq<string>, rest: string)
    requires MarkOk(m) && stack != []
    ensures Leads(MarkText(m) + rest, stack, false, Public(stack, Meant(m)), rest, stack, false)
  {
    if m.Reference? && Target(stack) {
      ReferenceLeads(m.name, stack, rest);
    } else {
      PlainText(MarkText(m), stack, rest);
    }
  }

  lemma {:induction false} MarkedText(ms: seq<Mark>, stack: seq<string>, rest: string)
    requires MarksOk(ms) && stack != []
    ensures Leads(MarksText(ms) + rest, stack, false, Public(stack, MarksMeant(ms)), rest, stack, false)
  {
    if ms == [] {
      PlainText("", stack, rest);
    } else {
      var q := MarksText(ms[1..]) + rest;
      assert MarksText(ms) + rest == MarkText(ms[0]) + q;
      MarkLeads(ms[0], stack, q);
      MarkedText(ms[1..], stack, rest);
      Chain(MarksText(ms) + rest, stack, false, Public(stack, Meant(ms[0])), q, stack, false,
            Public(stack, MarksMeant(ms[1..])), rest, stack, false);
    }
  }

  // ----- tags -----

  lemma {:induction false} FindFirst(s: string, c: char, rest: string)
    requires forall i :: 0 <= i < |s| ==> s[i] != c
    ensures Find(s + ([c] + rest), c) == Some(|s|)
  {
    var t := s + ([c] + rest);
    if s != "" {
      assert t[1..] == s[1..] + ([c] + rest);
      FindFirst(s[1..], c, rest);
    }
  }

  /** A complete tag is decided from the text between its brackets. */
  lemma Tag(body: string, stack: seq<string>, rest: string, stack': seq<string>)
    requires body != "" && body[0] != '!' && forall i :: 0 <= i < |body| ==> body[i] != '>'
    requires DecideTag(stack, Trim(body), |body| + 2) == Advance(|body| + 2, "", stack', false)
    ensures Leads("<" + body + ">" + rest, stack, false, "", rest, stack', false)
  {
    var p := "<" + body + ">" + rest;
    TagText(body, rest);
  }

  lemma TagText(body: string, rest: string)
    requires body != "" && body[0] != '!' && forall i :: 0 <= i < |body| ==> body[i] != '>'
    ensures var p := "<" + body + ">" + rest;
      && p[0] == '<' && !(p <= CDATA_OPEN) && !(CDATA_OPEN <= p) && Find(p, '>') == Some(|body| + 1)
      && p[1..|body| + 1] == body && p[|body| + 2..] == rest
  {
    var p := "<" + body + ">" + rest;
    assert p == ("<" + body) + (['>'] + rest);
    FindFirst("<" + body, '>', rest);
    assert p[1] == body[0] && CDATA_OPEN[1] == '!';
  }

  lemma {:induction false} TrimEndConcat(a: string, b: string)
    requires a != "" && !IsWhitespace(a[|a| - 1])
    ensures TrimEnd(a + b) == a + TrimEnd(b)
    decreases |b|
  {
    if b == "" || !IsWhitespace(b[|b| - 1]) {
      assert b == "" ==> a + b == a;
    } else {
      assert (a + b)[..|a + b| - 1] == a + b[..|b| - 1];
      TrimEndConcat(a, b[..|b| - 1]);
    }
  }

  lemma {:induction false} TrimEndIsPrefix(s: string)
    ensures TrimEnd(s) <= s
    decreases |s|
  {
    if s != "" && IsWhitespace(s[|s| - 1]) {
      TrimEndIsPrefix(s[..|s| - 1]);
    }
  }

  lemma {:induction false} TrimEndBlank(s: string)
    requires Blank(s)
    ensures TrimEnd(s) == ""
    decreases |s|
  {
    if s != "" {
      TrimEndBlank(s[..|s| - 1]);
    }
  }

  lemma {:induction false} WordUntil(name: string, a: string)
    requires forall i :: 0 <= i < |name| ==> !IsWhitespace(name[i])
    requires a == "" || IsWhitespace(a[0])
    ensures UntilWhitespace(name + a) == name
  {
    if name == "" {
      assert name + a == a;
    } else {
      assert (name + a)[1..] == name[1..] + a;
      WordUntil(name[1..], a);
      assert [name[0]] + name[1..] == name;
    }
  }

  /** The name survives whatever slashes are trimmed behind it. */
  lemma {:induction false} TagName(name: string, a: string)
    requires NameOk(name) && (a == "" || IsWhitespace(a[0]) || a == "/")
    ensures FirstWord(TrimSlashes(name + a)) == name
    decreases |a|
  {
    var s := name + a;
    if a != "" && a[|a| - 1] == '/' {
      assert s[..|s| - 1] == name + a[..|a| - 1];
      TagName(name, a[..|a| - 1]);
    } else {
      assert a == "" ==> s == name;
      assert TrimSlashes(s) == s;
      WordUntil(name, a);
    }
  }

  lemma LowerEmpty(name: string)
    requires name != ""
    ensures AsciiLower(name) != ""
  {
    assert |AsciiLower(name)| == |name|;
  }

  lemma StartTagText(name: string, attributes: string)
    requires NameOk(name) && AttributesOk(attributes) && NotSelfClosing(attributes)
    ensures var raw := name + TrimEnd(attributes);
      && Trim(name + attributes) == raw && raw != ""
      && raw[0] == name[0] && raw[|raw| - 1] != '/'
      && FirstWord(TrimSlashes(raw)) == name
  {
    var body, a := name + attributes, TrimEnd(attributes);
    TrimEndConcat(name, attributes);
    TrimEndIsPrefix(attributes);
    TagName(name, a);
    var raw := name + a;
    assert raw[|raw| - 1] == if a == "" then name[|name| - 1] else a[|a| - 1];
  }

  lemma StartTagLeads(name: string, attributes: string, stack: seq<string>, rest: string)
    requires NameOk(name) && AttributesOk(attributes) && NotSelfClosing(attributes)
    requires |stack| < MAX_DEPTH && (stack == [] ==> AsciiLower(name) == "assistant")
    ensures Leads(StartTag(name, attributes) + rest, stack, false, "", rest, stack + [AsciiLower(name)], false)
  {
    StartTagText(name, attributes);
    LowerEmpty(name);
    Tag(name + attributes, stack, rest, stack + [AsciiLower(name)]);
  }

  lemma EmptyTagLeads(name: string, attributes: string, stack: seq<string>, rest: string)
    requires NameOk(name) && AttributesOk(attributes) && stack != []
    ensures Leads(EmptyTag(name, attributes) + rest, stack, false, "", rest, stack, false)
  {
    var body := name + attributes + "/";
    assert Trim(body) == body;
    assert body == name + (attributes + "/");
    assert attributes == "" ==> attributes + "/" == "/";
    TagName(name, attributes + "/");
    LowerEmpty(name);
    Tag(body, stack, rest, stack);
  }

  lemma EndTagLeads(closing: string, gap: string, stack: seq<string>, name: string, rest: string)
    requires NameOk(closing) && Blank(gap) && AsciiLower(closing) == AsciiLower(name)
    ensures Leads(EndTag(closing, gap) + rest, stack + [AsciiLower(name)], false, "", rest, stack, false)
  {
    var body := "/" + closing + gap;
    var open := stack + [AsciiLower(name)];
    EndTagText(closing, gap);
    assert open[..|open| - 1] == stack;
    Tag(body, open, rest, stack);
  }

  lemma EndTagText(closing: string, gap: string)
    requires NameOk(closing) && Blank(gap)
    ensures var body := "/" + closing + gap;
      && Trim(body) == "/" + closing && Trim(Trim(body)[1..]) == closing
      && forall i :: 0 <= i < |body| ==> body[i] != '>'
  {
    var body := "/" + closing + gap;
    TrimEndConcat("/" + closing, gap);
    TrimEndBlank(gap);
    assert "/" + closing + "" == "/" + closing;
    assert ("/" + closing)[1..] == closing;
  }

  // ----- trees -----

  lemma {:induction false} NodeLeads(n: Node, stack: seq<string>, rest: string)
    requires Valid(n) && stack != [] && |stack| + Height(n) <= MAX_DEPTH
    ensures Leads(NodeText(n, rest), stack, false, NodePublic(n, stack), rest, stack, false)
    decreases n, 1
  {
    match n {
      case Chars(marks) => MarkedText(marks, stack, rest);
      case CData(s) => CDataSection(s, stack, rest);
      case Empty(name, attributes) => EmptyTagLeads(name, attributes, stack, rest);
      case Element(_, _, _, _, _) => ElementLeads(n, stack, rest);
    }
  }

  lemma {:induction false} ElementLeads(n: Node, stack: seq<string>, rest: string)
    requires n.Element? && Valid(n) && |stack| + Height(n) <= MAX_DEPTH
    requires stack == [] ==> AsciiLower(n.name) == "assistant"
    ensures Leads(NodeText(n, rest), stack, false, NodePublic(n, stack), rest, stack, false)
    decreases n, 0
  {
    var inner := stack + [AsciiLower(n.name)];
    var end := EndTag(n.closing, n.gap) + rest;
    var body := NodesText(n.children, end);
    var text := NodesPublic(n.children, inner);
    StartTagLeads(n.name, n.attributes, stack, body);
    NodesLead(n.children, inner, end);
    EndTagLeads(n.closing, n.gap, stack, n.name, rest);
    Chain(NodeText(n, rest), stack, false, "", body, inner, false, text, end, inner, false);
    Chain(NodeText(n, rest), stack, false, "" + text, end, inner, false, "", rest, stack, false);
    assert "" + text + "" == text;
  }

  lemma {:induction false} NodesLead(ns: seq<Node>, stack: seq<string>, rest: string)
    requires AllValid(ns) && stack != [] && |stack| + MaxHeight(ns) <= MAX_DEPTH
    ensures Leads(NodesText(ns, rest), stack, false, NodesPublic(ns, stack), rest, stack, false)
    decreases ns, 0
  {
    if ns == [] {
      PlainText("", stack, rest);
      assert "" + rest == rest;
    } else {
      var later := NodesText(ns[1..], rest);
      NodeLeads(ns[0], stack, later);
      NodesLead(ns[1..], stack, rest);
      Chain(NodesText(ns, rest), stack, false, NodePublic(ns[0], stack), later, stack, false,
            NodesPublic(ns[1..], stack), rest, stack, false);
    }
  }

  // ----- main results -----

  predicate Document(root: Node) {
    root.Element? && Valid(root) && AsciiLower(root.name) == "assistant" && Height(root) <= MAX_DEPTH
  }

  lemma DrainDocument(before: string, root: Node, after: string)
    requires Blank(before) && Blank(after) && Document(root)
    ensures Drain(Xml(before + NodeText(root, after), [], false)) == Drained(Xml("", [], false), DocumentText(root.children), None)
  {
    var text := NodePublic(root, []);
    PlainText(before, [], NodeText(root, after));
    ElementLeads(root, [], after);
    Chain(before + NodeText(root, after), [], false, "", NodeText(root, after), [], false, text, after, [], false);
    PlainText(after, [], "");
    assert after + "" == after;
    Chain(before + NodeText(root, after), [], false, "" + text, after, [], false, "", "", [], false);
    assert [] + [AsciiLower(root.name)] == ["assistant"];
    RootIsDocumentText(root.children);
    assert "" + text + "" + "" == text;
  }

  /**
    From any document of at most 1 MiB, however it is split, the filter emits exactly the text that stands directly
    inside the public fields of the root, with no error and nothing left open or held back.
   */
  lemma DocumentEmitsPublicText(before: string, root: Node, after: string, chunks: seq<string>)
    requires Blank(before) && Blank(after) && Document(root)
    requires Join(chunks) == before + NodeText(root, after) && Utf8Len(Join(chunks)) <= MAX_EVENT_BYTES
    ensures var all := PushAll(FRESH, chunks);
      all.text == DocumentText(root.children) && all.errors == []
      && all.stream == Stream(Xml("", [], false), false, Utf8Len(Join(chunks)))
  {
    DrainDocument(before, root, after);
    FreshChunksAgree(chunks);
    assert "" + Join(chunks) == Join(chunks);
  }

  /**
    Text is emitted before its field is closed: after the two start tags, any mix of characters and references comes out
    as what it means, however it is split.
   */
  lemma MarkedRoundTrip(root: string, field: string, marks: seq<Mark>, chunks: seq<string>)
    requires NameOk(root) && AsciiLower(root) == "assistant" && MarksOk(marks)
    requires NameOk(field) && AsciiLower(field) in {"free_talk", "final_answer"}
    requires Join(chunks) == StartTag(root, "") + (StartTag(field, "") + MarksText(marks))
    requires Utf8Len(Join(chunks)) <= MAX_EVENT_BYTES
    ensures var all := PushAll(FRESH, chunks);
      all.text == MarksMeant(marks) && all.errors == [] && all.stream.xml == Xml("", [AsciiLower(root), AsciiLower(field)], false)
  {
    var e, text := MarksText(marks), MarksMeant(marks);
    OpenField(root, field, e);
    MarkedText(marks, [AsciiLower(root), AsciiLower(field)], "");
    assert e + "" == e;
    Chain(Join(chunks), [], false, "", e, [AsciiLower(root), AsciiLower(field)], false,
          text, "", [AsciiLower(root), AsciiLower(field)], false);
    assert "" + text + "" == text;
    FreshChunksAgree(chunks);
    assert "" + Join(chunks) == Join(chunks);
  }

  /** In particular escaped text comes out as the text. */
  lemma EscapeRoundTrip(root: string, field: string, text: string, chunks: seq<string>)
    requires NameOk(root) && AsciiLower(root) == "assistant"
    requires NameOk(field) && AsciiLower(field) in {"free_talk", "final_answer"}
    requires Join(chunks) == StartTag(root, "") + (StartTag(field, "") + EscapeText(text))
    requires Utf8Len(Join(chunks)) <= MAX_EVENT_BYTES
    ensures var all := PushAll(FRESH, chunks);
      all.text == text && all.errors == [] && all.stream.xml == Xml("", [AsciiLower(root), AsciiLower(field)], false)
  {
    EscapeMarks(text);
    MarkedRoundTrip(root, field, EscapedMarks(text), chunks);
  }

  /** The same for a CDATA section around any text that does not contain its end mark. */
  lemma CDataRoundTrip(root: string, field: string, text: string, chunks: seq<string>)
    requires NameOk(root) && AsciiLower(root) == "assistant" && NoClose(text)
    requires NameOk(field) && AsciiLower(field) in {"free_talk", "final_answer"}
    requires Join(chunks) == StartTag(root, "") + (StartTag(field, "") + (CDATA_OPEN + (text + CDATA_CLOSE)))
    requires Utf8Len(Join(chunks)) <= MAX_EVENT_BYTES
    ensures var all := PushAll(FRESH, chunks);
      all.text == text && all.errors == [] && all.stream.xml == Xml("", [AsciiLower(root), AsciiLower(field)], false)
  {
    var stack := [AsciiLower(root), AsciiLower(field)];
    var e := CDATA_OPEN + (text + CDATA_CLOSE);
    OpenField(root, field, e);
    CDataSection(text, stack, "");
    assert CDATA_CLOSE + "" == CDATA_CLOSE;
    Chain(Join(chunks), [], false, "", e, stack, false, text, "", stack, false);
    assert "" + text + "" == text;
    FreshChunksAgree(chunks);
    assert "" + Join(chunks) == Join(chunks);
  }

  lemma OpenField(root: string, field: string, rest: string)
    requires NameOk(root) && AsciiLower(root) == "assistant" && NameOk(field)
    ensures Leads(StartTag(root, "") + (StartTag(field, "") + rest), [], false, "",
                  rest, [AsciiLower(root), AsciiLower(field)], false)
  {
    var q := StartTag(field, "") + rest;
    StartTagLeads(root, "", [], q);
    StartTagLeads(field, "", [AsciiLower(root)], rest);
    assert [] + [AsciiLower(root)] == [AsciiLower(root)];
    assert [AsciiLower(root)] + [AsciiLower(field)] == [AsciiLower(root), AsciiLower(field)];
    Chain(StartTag(root, "") + q, [], false, "", q, [AsciiLower(root)], false,
          "", rest, [AsciiLower(root), AsciiLower(field)], false);
  }
}
