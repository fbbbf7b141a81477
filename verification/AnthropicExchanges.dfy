/**
  The tool exchanges of an Anthropic request (core/agent/src/model_api.rs). The texts of the user blocks wait until an
  exchange or the end needs them as one user message, and the results of tools go into a user message of their own: the
  grouping differs from that of the other providers, the timeline read back does not.
 */
module AnthropicExchanges {
  import opened Wrappers
  import opened Exchanges

  datatype Content =
    | TextBlock(text: string, cached: bool)
    | ToolUse(id: string, name: string, input: string)
    | ToolOutput(toolUseId: string, content: string, isError: bool)

  datatype AnthropicMessage = AnthropicMessage(assistant: bool, content: seq<Content>)

  function ToolUses(cs: seq<ToolCall>): seq<Content> {
    if cs == [] then [] else [ToolUse(cs[0].id, cs[0].name, cs[0].input)] + ToolUses(cs[1..])
  }

  function ToolOutputs(rs: seq<ToolResult>): seq<Content> {
    if rs == [] then [] else [ToolOutput(rs[0].callId, rs[0].content, rs[0].isError)] + ToolOutputs(rs[1..])
  }

  function AssistantContent(x: Exchange): seq<Content> {
    (if Blank(x.assistantText) then [] else [TextBlock(x.assistantText, false)]) + ToolUses(x.calls)
  }

  function AnthropicExchange(x: Exchange): seq<AnthropicMessage> {
    [AnthropicMessage(true, AssistantContent(x)), AnthropicMessage(false, ToolOutputs(x.results))]
  }

  function AnthropicTools(xs: seq<Exchange>): seq<AnthropicMessage> {
    if xs == [] then [] else AnthropicExchange(xs[0]) + AnthropicTools(xs[1..])
  }

  function TextsOf(bs: seq<Block>): seq<Content> {
    if bs == [] then [] else [TextBlock(bs[0].text, bs[0].cached)] + TextsOf(bs[1..])
  }

  /** The messages for the blocks still to come, when `pending` texts wait and `tail` ends the prompt. */
  function Anthropic(pending: seq<Content>, bs: seq<Block>, tail: seq<Content>, xs: seq<Exchange>, ids: DeltaIds): seq<AnthropicMessage>
    decreases |bs|
  {
    if bs == [] then (if pending + tail == [] then [] else [AnthropicMessage(false, pending + tail)])
    else
      var joined := pending + [TextBlock(bs[0].text, bs[0].cached)];
      if ids(bs[0].text).None? then Anthropic(joined, bs[1..], tail, xs, ids)
      else
        [AnthropicMessage(false, joined)] + AnthropicTools(After(bs[0], xs, ids)) + Anthropic([], bs[1..], tail, xs, ids)
  }

  /** The Anthropic messages for a prompt. */
  function AnthropicBody(bs: seq<Block>, xs: seq<Exchange>, ids: DeltaIds): seq<AnthropicMessage> {
    Anthropic([], Others(UserBlocks(bs)), TextsOf(Trailers(UserBlocks(bs))), xs, ids)
  }

  lemma {:induction false} AnthropicToolsSnoc(xs: seq<Exchange>, x: Exchange)
    ensures AnthropicTools(xs + [x]) == AnthropicTools(xs) + AnthropicExchange(x)
  {
    if xs == [] {
      assert xs + [x] == [x];
      assert [x][1..] == [];
    } else {
      assert (xs + [x])[1..] == xs[1..] + [x];
      AnthropicToolsSnoc(xs[1..], x);
    }
  }

  /** Adds the exchanges of one delta. */
  method ExtendAnthropic(messages: seq<AnthropicMessage>, xs: seq<Exchange>, id: string) returns (extended: seq<AnthropicMessage>)
    ensures extended == messages + AnthropicTools(ForDelta(xs, id))
  {
    extended := messages;
    for i := 0 to |xs|
      invariant extended == messages + AnthropicTools(ForDelta(xs[..i], id))
    {
      ForDeltaUpTo(xs, i, id);
      if xs[i].deltaId == id {
        AnthropicToolsSnoc(ForDelta(xs[..i], id), xs[i]);
        extended := extended + AnthropicExchange(xs[i]);
      } else {
        assert ForDelta(xs[..i], id) + [] == ForDelta(xs[..i], id);
      }
    }
    assert xs[..|xs|] == xs;
  }

  /** Adds a block, and the exchanges of its delta behind the texts that waited. */
  method Place(messages: seq<AnthropicMessage>, pending: seq<Content>, block: Block, xs: seq<Exchange>, ids: DeltaIds,
               ghost rest: seq<Block>, ghost tail: seq<Content>)
    returns (placed: seq<AnthropicMessage>, waiting: seq<Content>)
    ensures var joined := pending + [TextBlock(block.text, block.cached)];
      placed + Anthropic(waiting, rest, tail, xs, ids) ==
        messages + if ids(block.text).None? then Anthropic(joined, rest, tail, xs, ids)
        else [AnthropicMessage(false, joined)] + AnthropicTools(After(block, xs, ids)) + Anthropic([], rest, tail, xs, ids)
  {
    placed, waiting := messages, pending + [TextBlock(block.text, block.cached)];
    var id := ids(block.text);
    if id.Some? {
      Associate(messages, [AnthropicMessage(false, waiting)], AnthropicTools(After(block, xs, ids)), Anthropic([], rest, tail, xs, ids));
      placed := ExtendAnthropic(placed + [AnthropicMessage(false, waiting)], xs, id.value);
      waiting := [];
    }
  }

  /** `blocks` are the texts of the one user message that the request was built with. */
  method AppendAnthropic(blocks: seq<Block>, xs: seq<Exchange>, ids: DeltaIds) returns (messages: seq<AnthropicMessage>)
    ensures messages == Anthropic([], Others(blocks), TextsOf(Trailers(blocks)), xs, ids)
  {
    var pending: seq<Content>, tail: seq<Content> := [], [];
    messages := [];
    ghost var end := TextsOf(Trailers(blocks));
    ghost var body := Anthropic([], Others(blocks), end, xs, ids);
    assert blocks[0..] == blocks;
    for i := 0 to |blocks|
      invariant messages + Anthropic(pending, Others(blocks[i..]), end, xs, ids) == body
      invariant tail + TextsOf(Trailers(blocks[i..])) == end
    {
      var block := blocks[i];
      var text := TextBlock(block.text, block.cached);
      if IsTrailer(block) {
        tail := tail + [text];
      } else {
        messages, pending := Place(messages, pending, block, xs, ids, Others(blocks[i + 1..]), end);
      }
    }
    assert blocks[|blocks|..] == [];
    assert tail == end;
    assert messages + Anthropic(pending, [], end, xs, ids) == body;
    pending := pending + tail;
    if pending != [] {
      messages := messages + [AnthropicMessage(false, pending)];
    }
    assert messages == body;
  }

  function ContentMoment(c: Content, assistant: bool): Moment {
    match c
    case TextBlock(text, _) => if assistant then AssistantText(text) else UserText(text)
    case ToolUse(id, name, input) => Call(id, name, input)
    case ToolOutput(id, content, _) => Result(id, content)
  }

  function ContentTold(cs: seq<Content>, assistant: bool): seq<Moment> {
    if cs == [] then [] else [ContentMoment(cs[0], assistant)] + ContentTold(cs[1..], assistant)
  }

  /** Anthropic messages read back. */
  function AnthropicTold(ms: seq<AnthropicMessage>): seq<Moment> {
    if ms == [] then [] else ContentTold(ms[0].content, ms[0].assistant) + AnthropicTold(ms[1..])
  }

  lemma {:induction false} ContentToldConcat(s: seq<Content>, t: seq<Content>, assistant: bool)
    ensures ContentTold(s + t, assistant) == ContentTold(s, assistant) + ContentTold(t, assistant)
  {
    if s == [] {
      assert s + t == t;
    } else {
      assert (s + t)[1..] == s[1..] + t;
      ContentToldConcat(s[1..], t, assistant);
    }
  }

  lemma {:induction false} AnthropicToldConcat(s: seq<AnthropicMessage>, t: seq<AnthropicMessage>)
    ensures AnthropicTold(s + t) == AnthropicTold(s) + AnthropicTold(t)
  {
    if s == [] {
      assert s + t == t;
    } else {
      assert (s + t)[1..] == s[1..] + t;
      AnthropicToldConcat(s[1..], t);
      Associate(ContentTold(s[0].content, s[0].assistant), AnthropicTold(s[1..]), AnthropicTold(t), []);
    }
  }

  lemma {:induction false} ToolUsesTold(cs: seq<ToolCall>)
    ensures ContentTold(ToolUses(cs), true) == CallMoments(cs)
  {
    if cs != [] {
      ToolUsesTold(cs[1..]);
      assert ToolUses(cs)[1..] == ToolUses(cs[1..]);
    }
  }

  lemma {:induction false} ToolOutputsTold(rs: seq<ToolResult>)
    ensures ContentTold(ToolOutputs(rs), false) == ResultMoments(rs)
  {
    if rs != [] {
      ToolOutputsTold(rs[1..]);
      assert ToolOutputs(rs)[1..] == ToolOutputs(rs[1..]);
    }
  }

  lemma AnthropicExchangeTold(x: Exchange)
    ensures AnthropicTold(AnthropicExchange(x)) == ExchangeMoments(x)
  {
    var text: seq<Content> := if Blank(x.assistantText) then [] else [TextBlock(x.assistantText, false)];
    var ms := AnthropicExchange(x);
    assert ms == [ms[0]] + [ms[1]];
    AnthropicToldConcat([ms[0]], [ms[1]]);
    ContentToldConcat(text, ToolUses(x.calls), true);
    assert text != [] ==> text[1..] == [];
    ToolUsesTold(x.calls);
    ToolOutputsTold(x.results);
  }

  lemma {:induction false} AnthropicToolsTold(xs: seq<Exchange>)
    ensures AnthropicTold(AnthropicTools(xs)) == Told(ToolSlots(xs))
  {
    if xs != [] {
      AnthropicToolsTold(xs[1..]);
      AnthropicToldConcat(AnthropicExchange(xs[0]), AnthropicTools(xs[1..]));
      AnthropicExchangeTold(xs[0]);
      assert ToolSlots(xs)[1..] == ToolSlots(xs[1..]);
    }
  }

  lemma {:induction false} TextsTold(bs: seq<Block>)
    requires AllUser(bs)
    ensures ContentTold(TextsOf(bs), false) == Told(PromptSlots(bs))
  {
    if bs != [] {
      TextsTold(bs[1..]);
      assert TextsOf(bs)[1..] == TextsOf(bs[1..]);
      assert PromptSlots(bs)[1..] == PromptSlots(bs[1..]);
    }
  }

  lemma JoinedTold(pending: seq<Content>, b: Block)
    requires b.role == User
    ensures ContentTold(pending + [TextBlock(b.text, b.cached)], false) == ContentTold(pending, false) + SlotMoments(Prompt(b))
  {
    ContentToldConcat(pending, [TextBlock(b.text, b.cached)], false);
    assert [TextBlock(b.text, b.cached)][1..] == [];
  }

  lemma DeltaTold(joined: seq<Content>, xs: seq<Exchange>, later: seq<AnthropicMessage>)
    ensures AnthropicTold([AnthropicMessage(false, joined)] + AnthropicTools(xs) + later) ==
      ContentTold(joined, false) + Told(ToolSlots(xs)) + AnthropicTold(later)
  {
    var first := AnthropicMessage(false, joined);
    AnthropicToldConcat([first] + AnthropicTools(xs), later);
    AnthropicToldConcat([first], AnthropicTools(xs));
    AnthropicToolsTold(xs);
  }

  lemma Reassociate<T>(a: seq<T>, b: seq<T>, c: seq<T>, d: seq<T>, e: seq<T>)
    ensures (a + b) + c + ([] + d + e) == a + (b + c + d) + e
  {
  }

  lemma EndTold(pending: seq<Content>, tail: seq<Content>, xs: seq<Exchange>, ids: DeltaIds)
    ensures AnthropicTold(Anthropic(pending, [], tail, xs, ids)) == ContentTold(pending, false) + ContentTold(tail, false)
  {
    ContentToldConcat(pending, tail, false);
    if pending + tail != [] {
    } else {
      assert pending == [] && tail == [];
    }
  }

  lemma {:induction false} AnthropicReadsBack(pending: seq<Content>, bs: seq<Block>, tail: seq<Content>, xs: seq<Exchange>, ids: DeltaIds)
    requires AllUser(bs)
    ensures AnthropicTold(Anthropic(pending, bs, tail, xs, ids)) ==
      ContentTold(pending, false) + Told(Weave(bs, xs, ids)) + ContentTold(tail, false)
    decreases |bs|
  {
    if bs == [] {
      EndTold(pending, tail, xs, ids);
    } else {
      var b, rest := bs[0], bs[1..];
      assert bs == [b] + rest;
      if ids(b.text).None? {
        AnthropicReadsBack(pending + [TextBlock(b.text, b.cached)], rest, tail, xs, ids);
        PlainStep(pending, b, rest, tail, xs, ids);
      } else {
        AnthropicReadsBack([], rest, tail, xs, ids);
        DeltaStep(pending, b, rest, tail, xs, ids);
      }
    }
  }

  lemma PlainStep(pending: seq<Content>, b: Block, rest: seq<Block>, tail: seq<Content>, xs: seq<Exchange>, ids: DeltaIds)
    requires b.role == User && ids(b.text).None?
    requires AnthropicTold(Anthropic(pending + [TextBlock(b.text, b.cached)], rest, tail, xs, ids)) ==
      ContentTold(pending + [TextBlock(b.text, b.cached)], false) + Told(Weave(rest, xs, ids)) + ContentTold(tail, false)
    ensures AnthropicTold(Anthropic(pending, [b] + rest, tail, xs, ids)) ==
      ContentTold(pending, false) + Told(Weave([b] + rest, xs, ids)) + ContentTold(tail, false)
  {
    JoinedTold(pending, b);
    ToldStep(b, rest, xs, ids);
    var own := SlotMoments(Prompt(b));
  }

  lemma DeltaStep(pending: seq<Content>, b: Block, rest: seq<Block>, tail: seq<Content>, xs: seq<Exchange>, ids: DeltaIds)
    requires b.role == User && ids(b.text).Some?
    requires AnthropicTold(Anthropic([], rest, tail, xs, ids)) ==
      ContentTold([], false) + Told(Weave(rest, xs, ids)) + ContentTold(tail, false)
    ensures AnthropicTold(Anthropic(pending, [b] + rest, tail, xs, ids)) ==
      ContentTold(pending, false) + Told(Weave([b] + rest, xs, ids)) + ContentTold(tail, false)
  {
    JoinedTold(pending, b);
    ToldStep(b, rest, xs, ids);
    DeltaTold(pending + [TextBlock(b.text, b.cached)], After(b, xs, ids), Anthropic([], rest, tail, xs, ids));
    Reassociate(ContentTold(pending, false), SlotMoments(Prompt(b)), Told(ToolSlots(After(b, xs, ids))),
      Told(Weave(rest, xs, ids)), ContentTold(tail, false));
  }

  /** Anthropic messages tell the timeline. */
  lemma AnthropicTimeline(bs: seq<Block>, xs: seq<Exchange>, ids: DeltaIds)
    ensures AnthropicTold(AnthropicBody(bs, xs, ids)) == Timeline(bs, xs, ids)
  {
    var users := UserBlocks(bs);
    UserBlocksAreUser(bs);
    SplitUser(users);
    AnthropicReadsBack([], Others(users), TextsOf(Trailers(users)), xs, ids);
    TextsTold(Trailers(users));
    ToldConcat(Weave(Others(users), xs, ids), PromptSlots(Trailers(users)));
  }
}
