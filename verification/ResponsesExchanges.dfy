/**
  The tool exchanges of a Responses request (core/agent/src/model_api.rs). An input is a flat list of items: user texts,
  assistant texts, function calls and their outputs. System blocks do not appear in it, so it tells the timeline under no
  further condition than that the raw arguments of every call can be read.
 */
module ResponsesExchanges {
  import opened Wrappers
  import opened Exchanges

  datatype ResponsesItem =
    | InputText(text: string)
    | OutputText(text: string)
    | FunctionCall(callId: string, name: string, arguments: string)
    | FunctionOutput(callId: string, output: string)

  function ResponsesCalls(cs: seq<ToolCall>): seq<ResponsesItem> {
    if cs == [] then [] else [FunctionCall(cs[0].id, cs[0].name, cs[0].rawArguments)] + ResponsesCalls(cs[1..])
  }

  function ResponsesOutputs(rs: seq<ToolResult>): seq<ResponsesItem> {
    if rs == [] then [] else [FunctionOutput(rs[0].callId, rs[0].content)] + ResponsesOutputs(rs[1..])
  }

  function ResponsesExchange(x: Exchange): seq<ResponsesItem> {
    (if Blank(x.assistantText) then [] else [OutputText(x.assistantText)])
    + ResponsesCalls(x.calls) + ResponsesOutputs(x.results)
  }

  function ResponsesSlot(s: Slot): seq<ResponsesItem> {
    match s
    case Prompt(b) => [InputText(b.text)]
    case Tools(x) => ResponsesExchange(x)
  }

  function Responses(slots: seq<Slot>): seq<ResponsesItem> {
    if slots == [] then [] else ResponsesSlot(slots[0]) + Responses(slots[1..])
  }

  lemma {:induction false} ResponsesConcat(s: seq<Slot>, t: seq<Slot>)
    ensures Responses(s + t) == Responses(s) + Responses(t)
  {
    if s == [] {
      assert s + t == t;
    } else {
      assert (s + t)[1..] == s[1..] + t;
      ResponsesConcat(s[1..], t);
      Associate(ResponsesSlot(s[0]), Responses(s[1..]), Responses(t), []);
    }
  }

  lemma ResponsesSnoc(slots: seq<Slot>, s: Slot)
    ensures Responses(slots + [s]) == Responses(slots) + ResponsesSlot(s)
  {
    ResponsesConcat(slots, [s]);
    assert [s][1..] == [];
  }

  /** Adds the exchanges of one delta. */
  method Extend(input: seq<ResponsesItem>, xs: seq<Exchange>, id: string, ghost slots: seq<Slot>)
    returns (extended: seq<ResponsesItem>)
    requires input == Responses(slots)
    ensures extended == Responses(slots + ToolSlots(ForDelta(xs, id)))
  {
    extended := input;
    assert slots + [] == slots;
    for i := 0 to |xs|
      invariant extended == Responses(slots + ToolSlots(ForDelta(xs[..i], id)))
    {
      ghost var tools := ToolSlots(ForDelta(xs[..i], id));
      ToolsUpTo(xs, i, id);
      if xs[i].deltaId == id {
        ResponsesSnoc(slots + tools, Tools(xs[i]));
        assert (slots + tools) + [Tools(xs[i])] == slots + (tools + [Tools(xs[i])]);
        extended := extended + ResponsesExchange(xs[i]);
      } else {
        assert tools + [] == tools;
      }
    }
    assert xs[..|xs|] == xs;
  }

  /** Adds a block and the exchanges of its delta. */
  method Place(input: seq<ResponsesItem>, block: Block, xs: seq<Exchange>, ids: DeltaIds, ghost slots: seq<Slot>)
    returns (placed: seq<ResponsesItem>)
    requires input == Responses(slots)
    ensures placed == Responses(slots + [Prompt(block)] + ToolSlots(After(block, xs, ids)))
  {
    ResponsesSnoc(slots, Prompt(block));
    placed := input + [InputText(block.text)];
    var id := ids(block.text);
    if id.Some? {
      placed := Extend(placed, xs, id.value, slots + [Prompt(block)]);
    } else {
      assert slots + [Prompt(block)] + [] == slots + [Prompt(block)];
    }
  }

  method AppendResponses(blocks: seq<Block>, xs: seq<Exchange>, ids: DeltaIds) returns (input: seq<ResponsesItem>)
    ensures input == Responses(Plan(UserBlocks(blocks), xs, ids))
  {
    var users := UserBlocks(blocks);
    var ordered: seq<ResponsesItem>, tail: seq<ResponsesItem> := [], [];
    for i := 0 to |users|
      invariant ordered == Responses(Weave(Others(users[..i]), xs, ids))
      invariant tail == Responses(PromptSlots(Trailers(users[..i])))
    {
      var block := users[i];
      ghost var woven, moved := Weave(Others(users[..i]), xs, ids), PromptSlots(Trailers(users[..i]));
      SplitUpTo(users, i, xs, ids);
      if IsTrailer(block) {
        ResponsesSnoc(moved, Prompt(block));
        tail := tail + [InputText(block.text)];
      } else {
        ordered := Place(ordered, block, xs, ids, woven);
        assert moved + [] == moved;
      }
    }
    assert users[..|users|] == users;
    ResponsesConcat(Weave(Others(users), xs, ids), PromptSlots(Trailers(users)));
    input := ordered + tail;
  }

  function ResponsesMoment(m: ResponsesItem, read: Reading): Moment {
    match m
    case InputText(text) => UserText(text)
    case OutputText(text) => AssistantText(text)
    case FunctionCall(callId, name, arguments) => Call(callId, name, read(arguments))
    case FunctionOutput(callId, output) => Result(callId, output)
  }

  /** A Responses input read back. */
  function ResponsesTold(ms: seq<ResponsesItem>, read: Reading): seq<Moment> {
    if ms == [] then [] else [ResponsesMoment(ms[0], read)] + ResponsesTold(ms[1..], read)
  }

  lemma {:induction false} ResponsesToldConcat(s: seq<ResponsesItem>, t: seq<ResponsesItem>, read: Reading)
    ensures ResponsesTold(s + t, read) == ResponsesTold(s, read) + ResponsesTold(t, read)
  {
    if s == [] {
      assert s + t == t;
    } else {
      assert (s + t)[1..] == s[1..] + t;
      ResponsesToldConcat(s[1..], t, read);
    }
  }

  lemma {:induction false} ResponsesCallsTold(cs: seq<ToolCall>, read: Reading)
    requires CallsParsed(cs, read)
    ensures ResponsesTold(ResponsesCalls(cs), read) == CallMoments(cs)
  {
    if cs != [] {
      ResponsesCallsTold(cs[1..], read);
      assert ResponsesCalls(cs)[1..] == ResponsesCalls(cs[1..]);
    }
  }

  lemma {:induction false} ResponsesOutputsTold(rs: seq<ToolResult>, read: Reading)
    ensures ResponsesTold(ResponsesOutputs(rs), read) == ResultMoments(rs)
  {
    if rs != [] {
      ResponsesOutputsTold(rs[1..], read);
      assert ResponsesOutputs(rs)[1..] == ResponsesOutputs(rs[1..]);
    }
  }

  lemma ResponsesSlotTold(s: Slot, read: Reading)
    requires SlotParsed(s, read) && (s.Prompt? ==> s.block.role == User)
    ensures ResponsesTold(ResponsesSlot(s), read) == SlotMoments(s)
  {
    match s
    case Prompt(b) => assert [InputText(b.text)][1..] == [];
    case Tools(x) =>
      var text: seq<ResponsesItem> := if Blank(x.assistantText) then [] else [OutputText(x.assistantText)];
      ResponsesToldConcat(text + ResponsesCalls(x.calls), ResponsesOutputs(x.results), read);
      ResponsesToldConcat(text, ResponsesCalls(x.calls), read);
      assert text != [] ==> text[1..] == [];
      ResponsesCallsTold(x.calls, read);
      ResponsesOutputsTold(x.results, read);
  }

  predicate OnlyUser(slots: seq<Slot>) {
    forall i :: 0 <= i < |slots| ==> (slots[i].Prompt? ==> slots[i].block.role == User)
  }

  lemma {:induction false} ToolSlotsOnlyTools(xs: seq<Exchange>)
    ensures OnlyUser(ToolSlots(xs))
  {
    if xs != [] {
      ToolSlotsOnlyTools(xs[1..]);
    }
  }

  lemma {:induction false} PromptsOnlyUser(bs: seq<Block>)
    requires AllUser(bs)
    ensures OnlyUser(PromptSlots(bs))
  {
    if bs != [] {
      PromptsOnlyUser(bs[1..]);
    }
  }

  lemma {:induction false} WeaveOnlyUser(bs: seq<Block>, xs: seq<Exchange>, ids: DeltaIds)
    requires AllUser(bs)
    ensures OnlyUser(Weave(bs, xs, ids))
  {
    if bs != [] {
      WeaveOnlyUser(bs[1..], xs, ids);
      ToolSlotsOnlyTools(After(bs[0], xs, ids));
    }
  }

  lemma PlanOnlyUser(bs: seq<Block>, xs: seq<Exchange>, ids: DeltaIds)
    ensures OnlyUser(Plan(UserBlocks(bs), xs, ids))
  {
    UserBlocksAreUser(bs);
    SplitUser(UserBlocks(bs));
    WeaveOnlyUser(Others(UserBlocks(bs)), xs, ids);
    PromptsOnlyUser(Trailers(UserBlocks(bs)));
  }

  lemma {:induction false} ResponsesReadsBack(slots: seq<Slot>, read: Reading)
    requires SlotsParsed(slots, read) && OnlyUser(slots)
    ensures ResponsesTold(Responses(slots), read) == Told(slots)
  {
    if slots != [] {
      ResponsesReadsBack(slots[1..], read);
      ResponsesToldConcat(ResponsesSlot(slots[0]), Responses(slots[1..]), read);
      assert SlotParsed(slots[0], read);
      ResponsesSlotTold(slots[0], read);
    }
  }

  /** A Responses input tells the timeline. */
  lemma ResponsesTimeline(bs: seq<Block>, xs: seq<Exchange>, ids: DeltaIds, read: Reading)
    requires Parsed(xs, read)
    ensures ResponsesTold(Responses(Plan(UserBlocks(bs), xs, ids)), read) == Timeline(bs, xs, ids)
  {
    PlanParsed(UserBlocks(bs), xs, ids, read);
    PlanOnlyUser(bs, xs, ids);
    ResponsesReadsBack(Plan(UserBlocks(bs), xs, ids), read);
  }
}
