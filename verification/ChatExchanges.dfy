/** The tool exchanges of a Chat request (core/agent/src/model_api.rs). */
module ChatExchanges {
  import opened Wrappers
  import opened Text
  import opened Exchanges

  datatype ChatCall = ChatCall(id: string, name: string, arguments: string)

  datatype ChatMessage =
    | ChatBlock(block: Block)
    | ChatAssistant(assistantText: Option<string>, toolCalls: seq<ChatCall>)
    | ChatTool(callId: string, content: string)

  function ChatCalls(cs: seq<ToolCall>): seq<ChatCall> {
    if cs == [] then [] else [ChatCall(cs[0].id, cs[0].name, cs[0].rawArguments)] + ChatCalls(cs[1..])
  }

  function ChatTools(rs: seq<ToolResult>): seq<ChatMessage> {
    if rs == [] then [] else [ChatTool(rs[0].callId, rs[0].content)] + ChatTools(rs[1..])
  }

  function ChatExchange(x: Exchange): seq<ChatMessage> {
    [ChatAssistant(if Blank(x.assistantText) then None else Some(x.assistantText), ChatCalls(x.calls))] + ChatTools(x.results)
  }

  function ChatSlot(s: Slot): seq<ChatMessage> {
    match s
    case Prompt(b) => [ChatBlock(b)]
    case Tools(x) => ChatExchange(x)
  }

  function Chat(slots: seq<Slot>): seq<ChatMessage> {
    if slots == [] then [] else ChatSlot(slots[0]) + Chat(slots[1..])
  }

  lemma {:induction false} ChatConcat(s: seq<Slot>, t: seq<Slot>)
    ensures Chat(s + t) == Chat(s) + Chat(t)
  {
    if s == [] {
      assert s + t == t;
    } else {
      assert (s + t)[1..] == s[1..] + t;
      ChatConcat(s[1..], t);
      Associate(ChatSlot(s[0]), Chat(s[1..]), Chat(t), []);
    }
  }

  lemma ChatSnoc(slots: seq<Slot>, s: Slot)
    ensures Chat(slots + [s]) == Chat(slots) + ChatSlot(s)
  {
    ChatConcat(slots, [s]);
    assert [s][1..] == [];
  }

  /** Adds the exchanges of one delta. */
  method Extend(messages: seq<ChatMessage>, xs: seq<Exchange>, id: string, ghost slots: seq<Slot>)
    returns (extended: seq<ChatMessage>)
    requires messages == Chat(slots)
    ensures extended == Chat(slots + ToolSlots(ForDelta(xs, id)))
  {
    extended := messages;
    assert slots + [] == slots;
    for i := 0 to |xs|
      invariant extended == Chat(slots + ToolSlots(ForDelta(xs[..i], id)))
    {
      ghost var tools := ToolSlots(ForDelta(xs[..i], id));
      ToolsUpTo(xs, i, id);
      if xs[i].deltaId == id {
        ChatSnoc(slots + tools, Tools(xs[i]));
        assert (slots + tools) + [Tools(xs[i])] == slots + (tools + [Tools(xs[i])]);
        extended := extended + ChatExchange(xs[i]);
      } else {
        assert tools + [] == tools;
      }
    }
    assert xs[..|xs|] == xs;
  }

  /** Adds a block and the exchanges of its delta. */
  method Place(messages: seq<ChatMessage>, block: Block, xs: seq<Exchange>, ids: DeltaIds, ghost slots: seq<Slot>)
    returns (placed: seq<ChatMessage>)
    requires messages == Chat(slots)
    ensures placed == Chat(slots + [Prompt(block)] + ToolSlots(After(block, xs, ids)))
  {
    ChatSnoc(slots, Prompt(block));
    placed := messages + [ChatBlock(block)];
    var id := ids(block.text);
    if id.Some? {
      placed := Extend(placed, xs, id.value, slots + [Prompt(block)]);
    } else {
      assert slots + [Prompt(block)] + [] == slots + [Prompt(block)];
    }
  }

  method AppendChat(blocks: seq<Block>, xs: seq<Exchange>, ids: DeltaIds) returns (messages: seq<ChatMessage>)
    ensures messages == Chat(Plan(blocks, xs, ids))
  {
    var ordered: seq<ChatMessage>, tail: seq<ChatMessage> := [], [];
    for i := 0 to |blocks|
      invariant ordered == Chat(Weave(Others(blocks[..i]), xs, ids))
      invariant tail == Chat(PromptSlots(Trailers(blocks[..i])))
    {
      var block := blocks[i];
      ghost var woven, moved := Weave(Others(blocks[..i]), xs, ids), PromptSlots(Trailers(blocks[..i]));
      SplitUpTo(blocks, i, xs, ids);
      if IsTrailer(block) {
        ChatSnoc(moved, Prompt(block));
        tail := tail + [ChatBlock(block)];
      } else {
        ordered := Place(ordered, block, xs, ids, woven);
        assert moved + [] == moved;
      }
    }
    assert blocks[..|blocks|] == blocks;
    ChatConcat(Weave(Others(blocks), xs, ids), PromptSlots(Trailers(blocks)));
    messages := ordered + tail;
  }

  function ChatCallMoments(cs: seq<ChatCall>, read: Reading): seq<Moment> {
    if cs == [] then [] else [Call(cs[0].id, cs[0].name, read(cs[0].arguments))] + ChatCallMoments(cs[1..], read)
  }

  function ChatMoment(m: ChatMessage, read: Reading): seq<Moment> {
    match m
    case ChatBlock(b) => if b.role == User then [UserText(b.text)] else []
    case ChatAssistant(text, calls) =>
      (if text.Some? then [AssistantText(text.value)] else []) + ChatCallMoments(calls, read)
    case ChatTool(callId, content) => [Result(callId, content)]
  }

  /** A Chat body read back. */
  function ChatTold(ms: seq<ChatMessage>, read: Reading): seq<Moment> {
    if ms == [] then [] else ChatMoment(ms[0], read) + ChatTold(ms[1..], read)
  }

  lemma {:induction false} ChatToldConcat(s: seq<ChatMessage>, t: seq<ChatMessage>, read: Reading)
    ensures ChatTold(s + t, read) == ChatTold(s, read) + ChatTold(t, read)
  {
    if s == [] {
      assert s + t == t;
    } else {
      assert (s + t)[1..] == s[1..] + t;
      ChatToldConcat(s[1..], t, read);
    }
  }

  lemma {:induction false} ChatCallsTold(cs: seq<ToolCall>, read: Reading)
    requires CallsParsed(cs, read)
    ensures ChatCallMoments(ChatCalls(cs), read) == CallMoments(cs)
  {
    if cs != [] {
      ChatCallsTold(cs[1..], read);
      assert ChatCalls(cs)[1..] == ChatCalls(cs[1..]);
    }
  }

  lemma {:induction false} ChatToolsTold(rs: seq<ToolResult>, read: Reading)
    ensures ChatTold(ChatTools(rs), read) == ResultMoments(rs)
  {
    if rs != [] {
      ChatToolsTold(rs[1..], read);
      assert ChatTools(rs)[1..] == ChatTools(rs[1..]);
    }
  }

  lemma ChatSlotTold(s: Slot, read: Reading)
    requires SlotParsed(s, read)
    ensures ChatTold(ChatSlot(s), read) == SlotMoments(s)
  {
    match s
    case Prompt(b) => assert [ChatBlock(b)][1..] == [];
    case Tools(x) =>
      assert ChatExchange(x)[1..] == ChatTools(x.results);
      ChatToolsTold(x.results, read);
      ChatCallsTold(x.calls, read);
  }

  lemma {:induction false} ChatReadsBack(slots: seq<Slot>, read: Reading)
    requires SlotsParsed(slots, read)
    ensures ChatTold(Chat(slots), read) == Told(slots)
  {
    if slots != [] {
      ChatReadsBack(slots[1..], read);
      ChatToldConcat(ChatSlot(slots[0]), Chat(slots[1..]), read);
      assert SlotParsed(slots[0], read);
      ChatSlotTold(slots[0], read);
    }
  }

  function ChatBlocks(ms: seq<ChatMessage>): seq<Block> {
    if ms == [] then [] else if ms[0].ChatBlock? then [ms[0].block] + ChatBlocks(ms[1..]) else ChatBlocks(ms[1..])
  }

  lemma {:induction false} ChatBlocksConcat(s: seq<ChatMessage>, t: seq<ChatMessage>)
    ensures ChatBlocks(s + t) == ChatBlocks(s) + ChatBlocks(t)
  {
    if s == [] {
      assert s + t == t;
    } else {
      assert (s + t)[1..] == s[1..] + t;
      ChatBlocksConcat(s[1..], t);
    }
  }

  lemma {:induction false} ChatToolsHoldNoBlock(rs: seq<ToolResult>)
    ensures ChatBlocks(ChatTools(rs)) == []
  {
    if rs != [] {
      ChatToolsHoldNoBlock(rs[1..]);
      assert ChatTools(rs)[1..] == ChatTools(rs[1..]);
    }
  }

  lemma {:induction false} ChatHoldsBlocks(slots: seq<Slot>)
    ensures ChatBlocks(Chat(slots)) == BlocksIn(slots)
  {
    if slots != [] {
      ChatHoldsBlocks(slots[1..]);
      ChatBlocksConcat(ChatSlot(slots[0]), Chat(slots[1..]));
      match slots[0]
      case Prompt(b) => assert [ChatBlock(b)][1..] == [];
      case Tools(x) =>
        assert ChatExchange(x)[1..] == ChatTools(x.results);
        ChatToolsHoldNoBlock(x.results);
    }
  }

  /** Without the exchanges a Chat body is the prompt again, cache marks included, its trailers at the end. */
  lemma ChatWithoutExchanges(bs: seq<Block>, xs: seq<Exchange>, ids: DeltaIds)
    ensures ChatBlocks(Chat(Plan(bs, xs, ids))) == Others(bs) + Trailers(bs)
    ensures multiset(ChatBlocks(Chat(Plan(bs, xs, ids)))) == multiset(bs)
  {
    ChatHoldsBlocks(Plan(bs, xs, ids));
    PlanBlocks(bs, xs, ids);
    NothingLost(bs);
  }

  /** The moments a Chat body holds beyond the timeline: exchanges of delta ids found on system blocks. */
  function SystemMoments(bs: seq<Block>, xs: seq<Exchange>, ids: DeltaIds): nat {
    if bs == [] then 0
    else (if bs[0].role == System then |Told(ToolSlots(After(bs[0], xs, ids)))| else 0) + SystemMoments(bs[1..], xs, ids)
  }

  lemma {:induction false} WeaveSystem(bs: seq<Block>, xs: seq<Exchange>, ids: DeltaIds)
    ensures |Told(Weave(Others(bs), xs, ids))| ==
      |Told(Weave(Others(UserBlocks(bs)), xs, ids))| + SystemMoments(Others(bs), xs, ids)
    ensures SystemMoments(Others(bs), xs, ids) == 0 ==>
      Told(Weave(Others(bs), xs, ids)) == Told(Weave(Others(UserBlocks(bs)), xs, ids))
  {
    if bs != [] {
      var rest := bs[1..];
      WeaveSystem(rest, xs, ids);
      SplitFirst(bs);
      if bs[0].role == User {
        SplitFirst(UserBlocks(bs));
        assert UserBlocks(bs)[1..] == UserBlocks(rest);
      }
      if !IsTrailer(bs[0]) {
        assert Others(bs)[1..] == Others(rest);
        ToldStep(bs[0], Others(rest), xs, ids);
        if bs[0].role == User {
          ToldStep(bs[0], Others(UserBlocks(rest)), xs, ids);
        }
      }
    }
  }

  lemma {:induction false} TrailersTold(bs: seq<Block>)
    ensures Told(PromptSlots(Trailers(bs))) == Told(PromptSlots(Trailers(UserBlocks(bs))))
  {
    if bs != [] {
      var rest := bs[1..];
      TrailersTold(rest);
      SplitFirst(bs);
      if bs[0].role == User {
        SplitFirst(UserBlocks(bs));
        assert UserBlocks(bs)[1..] == UserBlocks(rest);
      }
    }
  }

  /** A Chat body tells the timeline exactly when no system block brings exchanges of its own. */
  lemma ChatTimelineIff(bs: seq<Block>, xs: seq<Exchange>, ids: DeltaIds, read: Reading)
    requires Parsed(xs, read)
    ensures ChatTold(Chat(Plan(bs, xs, ids)), read) == Timeline(bs, xs, ids) <==> SystemMoments(Others(bs), xs, ids) == 0
  {
    PlanParsed(bs, xs, ids, read);
    ChatReadsBack(Plan(bs, xs, ids), read);
    ToldConcat(Weave(Others(bs), xs, ids), PromptSlots(Trailers(bs)));
    ToldConcat(Weave(Others(UserBlocks(bs)), xs, ids), PromptSlots(Trailers(UserBlocks(bs))));
    WeaveSystem(bs, xs, ids);
    TrailersTold(bs);
  }

  lemma OneExchangeTold(b: Block, x: Exchange, ids: DeltaIds)
    requires ids(b.text) == Some(x.deltaId)
    ensures Told(ToolSlots(After(b, [x], ids))) == SlotMoments(Tools(x))
  {
    assert [x][1..] == [] && [Tools(x)][1..] == [];
    assert ForDelta([x], x.deltaId) == [x];
    assert ToolSlots([x]) == [Tools(x)];
    assert Told([Tools(x)]) == SlotMoments(Tools(x)) + Told([]) == SlotMoments(Tools(x));
  }

  lemma OneBlockTrailers(b: Block)
    requires !IsTrailer(b)
    ensures Others([b]) == [b] && Trailers([b]) == []
    ensures b.role == System ==> UserBlocks([b]) == []
  {
    assert [b][1..] == [];
  }

  lemma OneSystemBlock(b: Block, x: Exchange, ids: DeltaIds)
    requires b.role == System && !IsTrailer(b) && ids(b.text) == Some(x.deltaId)
    ensures Timeline([b], [x], ids) == []
    ensures SystemMoments(Others([b]), [x], ids) == |SlotMoments(Tools(x))|
  {
    OneExchangeTold(b, x, ids);
    OneBlockTrailers(b);
    assert [b][1..] == [];
  }

  /** A system block with the delta id of an exchange that says something: the Chat body tells it, the timeline not. */
  lemma SystemBlockTellsMore(b: Block, x: Exchange, ids: DeltaIds, read: Reading)
    requires b.role == System && !IsTrailer(b) && ids(b.text) == Some(x.deltaId)
    requires Parsed([x], read) && SlotMoments(Tools(x)) != []
    ensures Timeline([b], [x], ids) == [] && ChatTold(Chat(Plan([b], [x], ids)), read) != []
  {
    OneSystemBlock(b, x, ids);
    ChatTimelineIff([b], [x], ids, read);
  }

  const MARKED: string := "[BEGIN DELTA]\ndelta_id: d"

  /** Such a block and exchange: the text starts with a delta marker, and no other text has the id. */
  lemma SomeSystemBlockTellsMore(read: Reading)
    ensures var b, x := Block(System, MARKED, false), Exchange("d", "done", [], []);
      var ids := (text: string) => if text == MARKED then Some("d") else None;
      Timeline([b], [x], ids) == [] && ChatTold(Chat(Plan([b], [x], ids)), read) != []
  {
    var b, x := Block(System, MARKED, false), Exchange("d", "done", [], []);
    var ids := (text: string) => if text == MARKED then Some("d") else None;
    TrimShortens(MARKED);
    assert !IsTrailer(b);
    SystemBlockTellsMore(b, x, ids, read);
  }

  lemma {:induction false} TrimShortens(s: string)
    ensures |Trim(s)| <= |s|
  {
    TrimStartShortens(s);
    TrimEndShortens(TrimStart(s));
  }

  lemma {:induction false} TrimStartShortens(s: string)
    ensures |TrimStart(s)| <= |s|
  {
    if s != "" {
      TrimStartShortens(s[1..]);
    }
  }

  lemma {:induction false} TrimEndShortens(s: string)
    ensures |TrimEnd(s)| <= |s|
  {
    if s != "" {
      TrimEndShortens(s[..|s| - 1]);
    }
  }
}
