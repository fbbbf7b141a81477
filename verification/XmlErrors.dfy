/** The texts that the XML filter refuses, wherever they are split. */
module XmlErrors {
  import opened Wrappers
  import opened Text
  import opened XmlStream
  import opened XmlChunks
  import opened XmlDocuments

  /** The filter stops at this text with an error. */
  predicate Stops(p: string, stack: seq<string>, error: XmlError, remaining: seq<string>) {
    Drain(Xml(p, stack, false)) == Drained(Xml("", remaining, false), "", Some(error))
  }

  lemma TagStops(body: string, stack: seq<string>, rest: string, error: XmlError, remaining: seq<string>)
    requires body != "" && body[0] != '!' && forall i :: 0 <= i < |body| ==> body[i] != '>'
    requires DecideTag(stack, Trim(body), |body| + 2) == Fail(error, remaining)
    ensures Stops("<" + body + ">" + rest, stack, error, remaining)
  {
    TagText(body, rest);
  }

  /** An end tag has to name the innermost open element, in any case. */
  lemma WrongEndStops(closing: string, gap: string, stack: seq<string>, rest: string)
    requires NameOk(closing) && Blank(gap) && (stack != [] ==> stack[|stack| - 1] != AsciiLower(closing))
    ensures Stops(EndTag(closing, gap) + rest, stack, MismatchedTag, if stack == [] then [] else stack[..|stack| - 1])
  {
    EndTagText(closing, gap);
    TagStops("/" + closing + gap, stack, rest, MismatchedTag, if stack == [] then [] else stack[..|stack| - 1]);
  }

  /** Elements are open to a depth of 64. */
  lemma TooDeepStops(name: string, attributes: string, stack: seq<string>, rest: string)
    requires NameOk(name) && AttributesOk(attributes) && NotSelfClosing(attributes) && |stack| >= 64
    ensures Stops(StartTag(name, attributes) + rest, stack, DepthExceeded, stack)
  {
    StartTagText(name, attributes);
    LowerEmpty(name);
    TagStops(name + attributes, stack, rest, DepthExceeded, stack);
  }

  /** The root has to be called assistant, in any case. */
  lemma OtherRootStops(name: string, attributes: string, rest: string)
    requires NameOk(name) && AttributesOk(attributes) && NotSelfClosing(attributes) && AsciiLower(name) != "assistant"
    ensures Stops(StartTag(name, attributes) + rest, [], ExpectedRoot, [])
  {
    StartTagText(name, attributes);
    TagStops(name + attributes, [], rest, ExpectedRoot, []);
  }

  lemma OtherEmptyRootStops(name: string, attributes: string, rest: string)
    requires NameOk(name) && AttributesOk(attributes) && AsciiLower(name) != "assistant"
    ensures Stops(EmptyTag(name, attributes) + rest, [], ExpectedRoot, [])
  {
    var body := name + attributes + "/";
    assert Trim(body) == body;
    assert body == name + (attributes + "/");
    assert attributes == "" ==> attributes + "/" == "/";
    TagName(name, attributes + "/");
    TagStops(body, [], rest, ExpectedRoot, []);
  }

  lemma StrayTextStops(c: char, rest: string)
    requires c != '<' && !IsWhitespace(c)
    ensures Stops([c] + rest, [], ExpectedRoot, [])
  {
  }

  /** One of the texts at which the filter stops outside the root. */
  ghost predicate Stray(p: string, error: XmlError) {
    || (error == ExpectedRoot && p != "" && p[0] != '<' && !IsWhitespace(p[0]))
    || (exists closing: string, gap: string, rest: string ::
          error == MismatchedTag && NameOk(closing) && Blank(gap) && p == EndTag(closing, gap) + rest)
    || (exists name: string, attributes: string, rest: string ::
          error == ExpectedRoot && NameOk(name) && AttributesOk(attributes) && NotSelfClosing(attributes)
          && AsciiLower(name) != "assistant" && p == StartTag(name, attributes) + rest)
    || (exists name: string, attributes: string, rest: string ::
          error == ExpectedRoot && NameOk(name) && AttributesOk(attributes)
          && AsciiLower(name) != "assistant" && p == EmptyTag(name, attributes) + rest)
  }

  lemma StrayStops(p: string, error: XmlError)
    requires Stray(p, error)
    ensures Stops(p, [], error, [])
  {
    if closing: string, gap: string, rest: string :|
      error == MismatchedTag && NameOk(closing) && Blank(gap) && p == EndTag(closing, gap) + rest {
      WrongEndStops(closing, gap, [], rest);
    } else if name: string, attributes: string, rest: string :|
      error == ExpectedRoot && NameOk(name) && AttributesOk(attributes) && NotSelfClosing(attributes)
      && AsciiLower(name) != "assistant" && p == StartTag(name, attributes) + rest {
      OtherRootStops(name, attributes, rest);
    } else if name: string, attributes: string, rest: string :|
      error == ExpectedRoot && NameOk(name) && AttributesOk(attributes)
      && AsciiLower(name) != "assistant" && p == EmptyTag(name, attributes) + rest {
      OtherEmptyRootStops(name, attributes, rest);
    } else {
      assert p == [p[0]] + p[1..];
      StrayTextStops(p[0], p[1..]);
    }
  }

  /** Every chunking stops with that error, behind the text emitted before it. */
  lemma ChunksStop(text: string, chunks: seq<string>, emitted: string, stack: seq<string>, p: string, error: XmlError, remaining: seq<string>)
    requires Join(chunks) == text && Utf8Len(text) <= MAX_EVENT_BYTES
    requires Leads(text, [], false, emitted, p, stack, false) && Stops(p, stack, error, remaining)
    ensures PushAll(FRESH, chunks).text == emitted && PushAll(FRESH, chunks).errors == [error]
  {
    FreshChunksAgree(chunks);
    assert emitted + "" == emitted;
    assert "" + Join(chunks) == Join(chunks);
  }

  /** Outside the root: nothing but whitespace and one root, whether before the root or behind it. */
  lemma StrayFails(before: string, p: string, error: XmlError, chunks: seq<string>)
    requires Blank(before) && Stray(p, error) && Join(chunks) == before + p && Utf8Len(Join(chunks)) <= MAX_EVENT_BYTES
    ensures PushAll(FRESH, chunks).text == "" && PushAll(FRESH, chunks).errors == [error]
  {
    PlainText(before, [], p);
    StrayStops(p, error);
    ChunksStop(Join(chunks), chunks, "", [], p, error, []);
  }

  lemma StrayBehindFails(before: string, root: Node, after: string, p: string, error: XmlError, chunks: seq<string>)
    requires Blank(before) && Blank(after) && Document(root) && Stray(p, error)
    requires Join(chunks) == before + NodeText(root, after + p) && Utf8Len(Join(chunks)) <= MAX_EVENT_BYTES
    ensures PushAll(FRESH, chunks).text == DocumentText(root.children) && PushAll(FRESH, chunks).errors == [error]
  {
    var text, tail := NodePublic(root, []), NodeText(root, after + p);
    PlainText(before, [], tail);
    ElementLeads(root, [], after + p);
    PlainText(after, [], p);
    Chain(Join(chunks), [], false, "", tail, [], false, text, after + p, [], false);
    Chain(Join(chunks), [], false, "" + text, after + p, [], false, "", p, [], false);
    assert [] + [AsciiLower(root.name)] == ["assistant"];
    RootIsDocumentText(root.children);
    assert "" + text + "" == text;
    StrayStops(p, error);
    ChunksStop(Join(chunks), chunks, text, [], p, error, []);
  }

  /** An open root: its children are read, and then an end tag of another name. */
  lemma WrongEndFails(root: string, children: seq<Node>, closing: string, gap: string, rest: string, chunks: seq<string>)
    requires NameOk(root) && AsciiLower(root) == "assistant" && AllValid(children) && MaxHeight(children) < 64
    requires NameOk(closing) && Blank(gap) && AsciiLower(closing) != "assistant"
    requires Join(chunks) == StartTag(root, "") + NodesText(children, EndTag(closing, gap) + rest)
    requires Utf8Len(Join(chunks)) <= MAX_EVENT_BYTES
    ensures PushAll(FRESH, chunks).text == DocumentText(children) && PushAll(FRESH, chunks).errors == [MismatchedTag]
  {
    var end := EndTag(closing, gap) + rest;
    var body, text := NodesText(children, end), NodesPublic(children, ["assistant"]);
    StartTagLeads(root, "", [], body);
    assert [] + [AsciiLower(root)] == ["assistant"];
    NodesLead(children, ["assistant"], end);
    Chain(Join(chunks), [], false, "", body, ["assistant"], false, text, end, ["assistant"], false);
    assert "" + text == text;
    RootIsDocumentText(children);
    WrongEndStops(closing, gap, ["assistant"], rest);
    ChunksStop(Join(chunks), chunks, text, ["assistant"], end, MismatchedTag, []);
  }
}
