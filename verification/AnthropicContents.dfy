/** What the messages of an Anthropic request hold, piece by piece (core/agent/src/model_api.rs). */
module AnthropicContents {
  import opened Wrappers
  import opened Text
  import opened Exchanges
  import opened AnthropicExchanges

  /** A piece of content and whether the assistant says it. */
  datatype Said = Said(assistant: bool, content: Content)

  function Flat(ms: seq<AnthropicMessage>): seq<Said> {
    if ms == [] then [] else Spoken(ms[0].assistant, ms[0].content) + Flat(ms[1..])
  }

  function Spoken(assistant: bool, contents: seq<Content>): (said: seq<Said>)
    ensures |said| == |contents|
    ensures forall i :: 0 <= i < |said| ==> said[i] == Said(assistant, contents[i])
  {
    if contents == [] then [] else [Said(assistant, contents[0])] + Spoken(assistant, contents[1..])
  }

  /** A text that says something holds a character that is not whitespace. */
  predicate SaysSomething(text: string) {
    exists i :: 0 <= i < |text| && !IsWhitespace(text[i])
  }

  function CallsSaid(cs: seq<ToolCall>): seq<Said> {
    seq(|cs|, i requires 0 <= i < |cs| => Said(true, ToolUse(cs[i].id, cs[i].name, cs[i].input)))
  }

  function ResultsSaid(rs: seq<ToolResult>): seq<Said> {
    seq(|rs|, i requires 0 <= i < |rs| => Said(false, ToolOutput(rs[i].callId, rs[i].content, rs[i].isError)))
  }

  /** An exchange: the assistant's text if it says something, its calls, and the user's results with their error flags. */
  function ExchangeSaid(x: Exchange): seq<Said> {
    (if SaysSomething(x.assistantText) then [Said(true, TextBlock(x.assistantText, false))] else [])
    + CallsSaid(x.calls) + ResultsSaid(x.results)
  }

  function SlotSaid(s: Slot): seq<Said> {
    match s
    case Prompt(b) => [Said(false, TextBlock(b.text, b.cached))]
    case Tools(x) => ExchangeSaid(x)
  }

  function SlotsSaid(slots: seq<Slot>): seq<Said> {
    if slots == [] then [] else SlotSaid(slots[0]) + SlotsSaid(slots[1..])
  }

  // ----- concatenations -----

  lemma SpokenConcat(assistant: bool, a: seq<Content>, b: seq<Content>)
    ensures Spoken(assistant, a + b) == Spoken(assistant, a) + Spoken(assistant, b)
  {
  }

  lemma {:induction false} FlatConcat(a: seq<AnthropicMessage>, b: seq<AnthropicMessage>)
    ensures Flat(a + b) == Flat(a) + Flat(b)
  {
    if a == [] {
      assert a + b == b;
    } else {
      assert (a + b)[1..] == a[1..] + b;
      FlatConcat(a[1..], b);
      assert Spoken(a[0].assistant, a[0].content) + (Flat(a[1..]) + Flat(b))
          == (Spoken(a[0].assistant, a[0].content) + Flat(a[1..])) + Flat(b);
    }
  }

  lemma {:induction false} SlotsConcat(a: seq<Slot>, b: seq<Slot>)
    ensures SlotsSaid(a + b) == SlotsSaid(a) + SlotsSaid(b)
  {
    if a == [] {
      assert a + b == b;
    } else {
      assert (a + b)[1..] == a[1..] + b;
      SlotsConcat(a[1..], b);
      assert SlotSaid(a[0]) + (SlotsSaid(a[1..]) + SlotsSaid(b)) == (SlotSaid(a[0]) + SlotsSaid(a[1..])) + SlotsSaid(b);
    }
  }

  lemma FlatOne(m: AnthropicMessage)
    ensures Flat([m]) == Spoken(m.assistant, m.content)
  {
    assert [m][1..] == [];
  }

  // ----- one exchange -----

  lemma {:induction false} UsesAre(cs: seq<ToolCall>)
    ensures |ToolUses(cs)| == |cs|
    ensures forall i :: 0 <= i < |cs| ==> ToolUses(cs)[i] == ToolUse(cs[i].id, cs[i].name, cs[i].input)
  {
    if cs != [] {
      UsesAre(cs[1..]);
    }
  }

  lemma {:induction false} OutputsAre(rs: seq<ToolResult>)
    ensures |ToolOutputs(rs)| == |rs|
    ensures forall i :: 0 <= i < |rs| ==> ToolOutputs(rs)[i] == ToolOutput(rs[i].callId, rs[i].content, rs[i].isError)
  {
    if rs != [] {
      OutputsAre(rs[1..]);
    }
  }

  lemma {:induction false} TrimStartBlank(s: string)
    ensures TrimStart(s) == "" <==> !SaysSomething(s)
    ensures TrimStart(s) != "" ==> !IsWhitespace(TrimStart(s)[0])
  {
    if s != "" && IsWhitespace(s[0]) {
      TrimStartBlank(s[1..]);
      if i :| 0 <= i < |s| && !IsWhitespace(s[i]) {
        assert !IsWhitespace(s[1..][i - 1]);
      }
      if j :| 0 <= j < |s[1..]| && !IsWhitespace(s[1..][j]) {
        assert !IsWhitespace(s[j + 1]);
      }
    }
  }

  lemma {:induction false} TrimEndKeeps(s: string)
    requires s != "" && !IsWhitespace(s[0])
    ensures TrimEnd(s) != ""
  {
    if IsWhitespace(s[|s| - 1]) {
      TrimEndKeeps(s[..|s| - 1]);
    }
  }

  lemma BlankIff(text: string)
    ensures Blank(text) <==> !SaysSomething(text)
  {
    TrimStartBlank(text);
    if TrimStart(text) != "" {
      TrimEndKeeps(TrimStart(text));
    }
  }

  lemma CallsAre(cs: seq<ToolCall>)
    ensures Spoken(true, ToolUses(cs)) == CallsSaid(cs)
  {
    UsesAre(cs);
  }

  lemma ResultsAre(rs: seq<ToolResult>)
    ensures Spoken(false, ToolOutputs(rs)) == ResultsSaid(rs)
  {
    OutputsAre(rs);
  }

  lemma ExchangeIs(x: Exchange)
    ensures Flat(AnthropicExchange(x)) == ExchangeSaid(x)
  {
    var ms := AnthropicExchange(x);
    var text: seq<Content> := if Blank(x.assistantText) then [] else [TextBlock(x.assistantText, false)];
    assert ms == [ms[0]] + [ms[1]];
    FlatConcat([ms[0]], [ms[1]]);
    FlatOne(ms[0]);
    FlatOne(ms[1]);
    SpokenConcat(true, text, ToolUses(x.calls));
    CallsAre(x.calls);
    ResultsAre(x.results);
    BlankIff(x.assistantText);
    assert Spoken(true, text) == if SaysSomething(x.assistantText) then [Said(true, TextBlock(x.assistantText, false))] else [];
  }

  lemma {:induction false} ToolsAre(xs: seq<Exchange>)
    ensures Flat(AnthropicTools(xs)) == SlotsSaid(ToolSlots(xs))
  {
    if xs != [] {
      ToolsAre(xs[1..]);
      FlatConcat(AnthropicExchange(xs[0]), AnthropicTools(xs[1..]));
      ExchangeIs(xs[0]);
      assert ToolSlots(xs)[1..] == ToolSlots(xs[1..]);
    }
  }

  // ----- the whole body -----

  lemma {:induction false} TextsAre(bs: seq<Block>)
    ensures Spoken(false, TextsOf(bs)) == SlotsSaid(PromptSlots(bs))
  {
    if bs != [] {
      TextsAre(bs[1..]);
      assert TextsOf(bs)[1..] == TextsOf(bs[1..]);
      assert PromptSlots(bs)[1..] == PromptSlots(bs[1..]);
    }
  }

  lemma WeaveStep(b: Block, rest: seq<Block>, xs: seq<Exchange>, ids: DeltaIds)
    ensures SlotsSaid(Weave([b] + rest, xs, ids)) ==
      [Said(false, TextBlock(b.text, b.cached))] + SlotsSaid(ToolSlots(After(b, xs, ids))) + SlotsSaid(Weave(rest, xs, ids))
  {
    var own, tools := [Prompt(b)], ToolSlots(After(b, xs, ids));
    assert ([b] + rest)[1..] == rest;
    SlotsConcat(own + tools, Weave(rest, xs, ids));
    SlotsConcat(own, tools);
    assert own[1..] == [] && SlotsSaid(own) == [Said(false, TextBlock(b.text, b.cached))] + [];
  }

  lemma DeltaIs(joined: seq<Content>, xs: seq<Exchange>, later: seq<AnthropicMessage>)
    ensures Flat([AnthropicMessage(false, joined)] + AnthropicTools(xs) + later) ==
      Spoken(false, joined) + SlotsSaid(ToolSlots(xs)) + Flat(later)
  {
    var first := AnthropicMessage(false, joined);
    FlatConcat([first] + AnthropicTools(xs), later);
    FlatConcat([first], AnthropicTools(xs));
    FlatOne(first);
    ToolsAre(xs);
  }

  lemma Regroup<T>(a: seq<T>, b: seq<T>, c: seq<T>, d: seq<T>, e: seq<T>)
    ensures (a + b) + c + ([] + d + e) == a + (b + c + d) + e
  {
  }

  ghost predicate Holds(pending: seq<Content>, bs: seq<Block>, tail: seq<Content>, xs: seq<Exchange>, ids: DeltaIds) {
    Flat(Anthropic(pending, bs, tail, xs, ids)) ==
      Spoken(false, pending) + SlotsSaid(Weave(bs, xs, ids)) + Spoken(false, tail)
  }

  lemma EndHolds(pending: seq<Content>, tail: seq<Content>, xs: seq<Exchange>, ids: DeltaIds)
    ensures Holds(pending, [], tail, xs, ids)
  {
    SpokenConcat(false, pending, tail);
    if pending + tail != [] {
      FlatOne(AnthropicMessage(false, pending + tail));
    }
  }

  lemma Joined(pending: seq<Content>, b: Block)
    ensures Spoken(false, pending + [TextBlock(b.text, b.cached)]) ==
      Spoken(false, pending) + [Said(false, TextBlock(b.text, b.cached))]
  {
    SpokenConcat(false, pending, [TextBlock(b.text, b.cached)]);
  }

  lemma PlainHolds(pending: seq<Content>, b: Block, rest: seq<Block>, tail: seq<Content>, xs: seq<Exchange>, ids: DeltaIds)
    requires ids(b.text).None? && Holds(pending + [TextBlock(b.text, b.cached)], rest, tail, xs, ids)
    ensures Holds(pending, [b] + rest, tail, xs, ids)
  {
    Joined(pending, b);
    WeaveStep(b, rest, xs, ids);
    assert After(b, xs, ids) == [] && ToolSlots([]) == [] && SlotsSaid([]) == [];
    AnthropicPlain(pending, b, rest, tail, xs, ids);
    RegroupPlain(Spoken(false, pending), [Said(false, TextBlock(b.text, b.cached))], SlotsSaid(Weave(rest, xs, ids)),
      Spoken(false, tail));
  }

  lemma AnthropicPlain(pending: seq<Content>, b: Block, rest: seq<Block>, tail: seq<Content>, xs: seq<Exchange>, ids: DeltaIds)
    requires ids(b.text).None?
    ensures Anthropic(pending, [b] + rest, tail, xs, ids) == Anthropic(pending + [TextBlock(b.text, b.cached)], rest, tail, xs, ids)
  {
    assert ([b] + rest)[1..] == rest;
  }

  lemma RegroupPlain<T>(a: seq<T>, b: seq<T>, d: seq<T>, e: seq<T>)
    ensures (a + b) + d + e == a + (b + [] + d) + e
  {
  }

  lemma DeltaHolds(pending: seq<Content>, b: Block, rest: seq<Block>, tail: seq<Content>, xs: seq<Exchange>, ids: DeltaIds)
    requires ids(b.text).Some? && Holds([], rest, tail, xs, ids)
    ensures Holds(pending, [b] + rest, tail, xs, ids)
  {
    Joined(pending, b);
    WeaveStep(b, rest, xs, ids);
    assert ([b] + rest)[1..] == rest;
    DeltaIs(pending + [TextBlock(b.text, b.cached)], After(b, xs, ids), Anthropic([], rest, tail, xs, ids));
    Regroup(Spoken(false, pending), [Said(false, TextBlock(b.text, b.cached))], SlotsSaid(ToolSlots(After(b, xs, ids))),
      SlotsSaid(Weave(rest, xs, ids)), Spoken(false, tail));
  }

  lemma {:induction false} AnthropicIs(pending: seq<Content>, bs: seq<Block>, tail: seq<Content>, xs: seq<Exchange>, ids: DeltaIds)
    ensures Holds(pending, bs, tail, xs, ids)
    decreases |bs|
  {
    if bs == [] {
      EndHolds(pending, tail, xs, ids);
    } else {
      var b, rest := bs[0], bs[1..];
      assert bs == [b] + rest;
      if ids(b.text).None? {
        AnthropicIs(pending + [TextBlock(b.text, b.cached)], rest, tail, xs, ids);
        PlainHolds(pending, b, rest, tail, xs, ids);
      } else {
        AnthropicIs([], rest, tail, xs, ids);
        DeltaHolds(pending, b, rest, tail, xs, ids);
      }
    }
  }

  /**
    Main result: the messages of an Anthropic request hold, in order, every user block with its cache mark and every exchange
    with its texts, inputs, results and error flags, and nothing else.
   */
  lemma AnthropicHolds(bs: seq<Block>, xs: seq<Exchange>, ids: DeltaIds)
    ensures Flat(AnthropicBody(bs, xs, ids)) == SlotsSaid(Plan(UserBlocks(bs), xs, ids))
  {
    var users := UserBlocks(bs);
    AnthropicIs([], Others(users), TextsOf(Trailers(users)), xs, ids);
    TextsAre(Trailers(users));
    SlotsConcat(Weave(Others(users), xs, ids), PromptSlots(Trailers(users)));
  }
}
