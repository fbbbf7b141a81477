/**
  Weaving tool exchanges into a prompt for the three provider protocols (core/agent/src/model_api.rs): the Chat,
  Responses and Anthropic bodies tell one and the same timeline. This module holds the plan they share, which says what
  stands behind what whatever the provider, and the timeline; each provider's rendering is a module of its own.
 */
module Exchanges {
  import opened Wrappers
  import opened Text

  const TRAILER: string :=
    "Continue the work and express thought in the user's language.  Use tools smartly. When all work is genuinely done, call the task_finished tool with the complete final answer as its summary:"

  datatype Role = System | User

  datatype Block = Block(role: Role, text: string, cached: bool)

  /** `rawArguments` is the text the provider sent, `input` the JSON value read from it. */
  datatype ToolCall = ToolCall(id: string, name: string, input: string, rawArguments: string)
  datatype ToolResult = ToolResult(callId: string, content: string, isError: bool)
  datatype Exchange = Exchange(deltaId: string, assistantText: string, calls: seq<ToolCall>, results: seq<ToolResult>)

  /** Finding the delta id in a prompt block is not part of this model. */
  type DeltaIds = string -> Option<string>

  /** Reading a call's raw arguments as JSON is not part of this model. */
  type Reading = string -> string

  predicate Blank(text: string) {
    Trim(text) == ""
  }

  predicate IsTrailer(b: Block) {
    Trim(b.text) == TRAILER
  }

  function Trailers(bs: seq<Block>): seq<Block> {
    if bs == [] then [] else if IsTrailer(bs[0]) then [bs[0]] + Trailers(bs[1..]) else Trailers(bs[1..])
  }

  function Others(bs: seq<Block>): seq<Block> {
    if bs == [] then [] else if IsTrailer(bs[0]) then Others(bs[1..]) else [bs[0]] + Others(bs[1..])
  }

  function UserBlocks(bs: seq<Block>): seq<Block> {
    if bs == [] then [] else if bs[0].role == User then [bs[0]] + UserBlocks(bs[1..]) else UserBlocks(bs[1..])
  }

  function ForDelta(xs: seq<Exchange>, id: string): seq<Exchange> {
    if xs == [] then [] else if xs[0].deltaId == id then [xs[0]] + ForDelta(xs[1..], id) else ForDelta(xs[1..], id)
  }

  function After(b: Block, xs: seq<Exchange>, ids: DeltaIds): seq<Exchange> {
    match ids(b.text)
    case None => []
    case Some(id) => ForDelta(xs, id)
  }

  // ----- the plan: which exchange goes where, whatever the provider -----

  datatype Slot = Prompt(block: Block) | Tools(exchange: Exchange)

  function PromptSlots(bs: seq<Block>): seq<Slot> {
    if bs == [] then [] else [Prompt(bs[0])] + PromptSlots(bs[1..])
  }

  function ToolSlots(xs: seq<Exchange>): seq<Slot> {
    if xs == [] then [] else [Tools(xs[0])] + ToolSlots(xs[1..])
  }

  function Weave(bs: seq<Block>, xs: seq<Exchange>, ids: DeltaIds): seq<Slot> {
    if bs == [] then [] else [Prompt(bs[0])] + ToolSlots(After(bs[0], xs, ids)) + Weave(bs[1..], xs, ids)
  }

  function Plan(bs: seq<Block>, xs: seq<Exchange>, ids: DeltaIds): seq<Slot> {
    Weave(Others(bs), xs, ids) + PromptSlots(Trailers(bs))
  }

  function BlocksIn(slots: seq<Slot>): seq<Block> {
    if slots == [] then [] else if slots[0].Prompt? then [slots[0].block] + BlocksIn(slots[1..]) else BlocksIn(slots[1..])
  }

  function ExchangesIn(slots: seq<Slot>): seq<Exchange> {
    if slots == [] then [] else if slots[0].Tools? then [slots[0].exchange] + ExchangesIn(slots[1..]) else ExchangesIn(slots[1..])
  }

  /** How many of the blocks carry a delta id. */
  function Count(bs: seq<Block>, id: string, ids: DeltaIds): nat {
    if bs == [] then 0 else (if ids(bs[0].text) == Some(id) then 1 else 0) + Count(bs[1..], id, ids)
  }

  predicate DistinctIds(bs: seq<Block>, ids: DeltaIds) {
    forall i, j :: 0 <= i < j < |bs| && ids(bs[i].text).Some? ==> ids(bs[i].text) != ids(bs[j].text)
  }

  function Times<T>(n: nat, s: seq<T>): seq<T> {
    if n == 0 then [] else s + Times(n - 1, s)
  }

  /** Every exchange belongs to the nearest block before it; `current` is the delta id of that block. */
  predicate Follows(slots: seq<Slot>, current: Option<string>, ids: DeltaIds) {
    slots != [] ==>
      match slots[0]
      case Prompt(b) => Follows(slots[1..], ids(b.text), ids)
      case Tools(x) => current == Some(x.deltaId) && Follows(slots[1..], current, ids)
  }

  lemma {:induction false} BlocksInConcat(s: seq<Slot>, t: seq<Slot>)
    ensures BlocksIn(s + t) == BlocksIn(s) + BlocksIn(t)
  {
    if s == [] {
      assert s + t == t;
    } else {
      assert (s + t)[1..] == s[1..] + t;
      BlocksInConcat(s[1..], t);
    }
  }

  lemma {:induction false} ExchangesInConcat(s: seq<Slot>, t: seq<Slot>)
    ensures ExchangesIn(s + t) == ExchangesIn(s) + ExchangesIn(t)
  {
    if s == [] {
      assert s + t == t;
    } else {
      assert (s + t)[1..] == s[1..] + t;
      ExchangesInConcat(s[1..], t);
    }
  }

  lemma {:induction false} ForDeltaConcat(xs: seq<Exchange>, ys: seq<Exchange>, id: string)
    ensures ForDelta(xs + ys, id) == ForDelta(xs, id) + ForDelta(ys, id)
  {
    if xs == [] {
      assert xs + ys == ys;
    } else {
      assert (xs + ys)[1..] == xs[1..] + ys;
      ForDeltaConcat(xs[1..], ys, id);
    }
  }

  lemma {:induction false} ForDeltaTwice(xs: seq<Exchange>, id: string, other: string)
    ensures ForDelta(ForDelta(xs, other), id) == if other == id then ForDelta(xs, id) else []
  {
    if xs != [] {
      ForDeltaTwice(xs[1..], id, other);
      if xs[0].deltaId == other {
        assert ForDelta(xs, other)[1..] == ForDelta(xs[1..], other);
      }
    }
  }

  lemma {:induction false} PromptSlotsHold(bs: seq<Block>)
    ensures BlocksIn(PromptSlots(bs)) == bs && ExchangesIn(PromptSlots(bs)) == []
  {
    if bs != [] {
      PromptSlotsHold(bs[1..]);
      assert PromptSlots(bs)[1..] == PromptSlots(bs[1..]);
    }
  }

  lemma {:induction false} ToolSlotsHold(xs: seq<Exchange>)
    ensures BlocksIn(ToolSlots(xs)) == [] && ExchangesIn(ToolSlots(xs)) == xs
  {
    if xs != [] {
      ToolSlotsHold(xs[1..]);
      assert ToolSlots(xs)[1..] == ToolSlots(xs[1..]);
    }
  }

  lemma {:induction false} WeaveBlocks(bs: seq<Block>, xs: seq<Exchange>, ids: DeltaIds)
    ensures BlocksIn(Weave(bs, xs, ids)) == bs
  {
    if bs != [] {
      var own, after, later := [Prompt(bs[0])], ToolSlots(After(bs[0], xs, ids)), Weave(bs[1..], xs, ids);
      WeaveBlocks(bs[1..], xs, ids);
      ToolSlotsHold(After(bs[0], xs, ids));
      BlocksInConcat(own + after, later);
      BlocksInConcat(own, after);
      assert own[1..] == [];
    }
  }

  /** Taking the exchanges out again leaves the blocks as they were, the trailers moved to the end. */
  lemma PlanBlocks(bs: seq<Block>, xs: seq<Exchange>, ids: DeltaIds)
    ensures BlocksIn(Plan(bs, xs, ids)) == Others(bs) + Trailers(bs)
  {
    BlocksInConcat(Weave(Others(bs), xs, ids), PromptSlots(Trailers(bs)));
    WeaveBlocks(Others(bs), xs, ids);
    PromptSlotsHold(Trailers(bs));
  }

  lemma {:induction false} NothingLost(bs: seq<Block>)
    ensures multiset(Others(bs) + Trailers(bs)) == multiset(bs)
  {
    if bs != [] {
      NothingLost(bs[1..]);
      assert bs == [bs[0]] + bs[1..];
    }
  }


  lemma ExchangesStep(b: Block, rest: seq<Block>, xs: seq<Exchange>, ids: DeltaIds)
    ensures ExchangesIn(Weave([b] + rest, xs, ids)) == After(b, xs, ids) + ExchangesIn(Weave(rest, xs, ids))
  {
    var tools := ToolSlots(After(b, xs, ids));
    ToolSlotsHold(After(b, xs, ids));
    ExchangesInConcat([Prompt(b)] + tools, Weave(rest, xs, ids));
    ExchangesInConcat([Prompt(b)], tools);
    assert [Prompt(b)][1..] == [];
  }

  lemma AfterFor(b: Block, xs: seq<Exchange>, ids: DeltaIds, id: string)
    ensures ForDelta(After(b, xs, ids), id) == if ids(b.text) == Some(id) then ForDelta(xs, id) else []
  {
    if ids(b.text).Some? {
      ForDeltaTwice(xs, id, ids(b.text).value);
    }
  }

  lemma {:induction false} WeaveExchanges(bs: seq<Block>, xs: seq<Exchange>, ids: DeltaIds, id: string)
    ensures ForDelta(ExchangesIn(Weave(bs, xs, ids)), id) == Times(Count(bs, id, ids), ForDelta(xs, id))
  {
    if bs != [] {
      assert bs == [bs[0]] + bs[1..];
      WeaveExchanges(bs[1..], xs, ids, id);
      ExchangesStep(bs[0], bs[1..], xs, ids);
      ForDeltaConcat(After(bs[0], xs, ids), ExchangesIn(Weave(bs[1..], xs, ids)), id);
      AfterFor(bs[0], xs, ids, id);
    }
  }

  /** The exchanges of a delta appear, in their order, once for every block that carries its id. */
  lemma PlanExchanges(bs: seq<Block>, xs: seq<Exchange>, ids: DeltaIds, id: string)
    ensures ForDelta(ExchangesIn(Plan(bs, xs, ids)), id) == Times(Count(Others(bs), id, ids), ForDelta(xs, id))
  {
    var woven := Weave(Others(bs), xs, ids);
    ExchangesInConcat(woven, PromptSlots(Trailers(bs)));
    PromptSlotsHold(Trailers(bs));
    assert ExchangesIn(woven) + [] == ExchangesIn(woven);
    WeaveExchanges(Others(bs), xs, ids, id);
  }

  lemma {:induction false} CountDistinct(bs: seq<Block>, id: string, ids: DeltaIds)
    requires DistinctIds(bs, ids)
    ensures Count(bs, id, ids) == if exists i :: 0 <= i < |bs| && ids(bs[i].text) == Some(id) then 1 else 0
  {
    if bs != [] {
      var rest := bs[1..];
      assert forall i :: 0 <= i < |rest| ==> rest[i] == bs[i + 1];
      CountDistinct(rest, id, ids);
      if i :| 0 <= i < |rest| && ids(rest[i].text) == Some(id) {
        assert ids(bs[i + 1].text) == Some(id);
      }
      assert ids(bs[0].text) == Some(id) ==> ids(bs[0].text) == Some(id);
    }
  }

  /** With distinct delta ids every exchange whose id occurs appears exactly once, and no other. */
  lemma EveryExchangeOnce(bs: seq<Block>, xs: seq<Exchange>, ids: DeltaIds, id: string)
    requires DistinctIds(Others(bs), ids)
    ensures ForDelta(ExchangesIn(Plan(bs, xs, ids)), id) ==
      if exists i :: 0 <= i < |Others(bs)| && ids(Others(bs)[i].text) == Some(id) then ForDelta(xs, id) else []
  {
    PlanExchanges(bs, xs, ids, id);
    CountDistinct(Others(bs), id, ids);
    assert Times(0, ForDelta(xs, id)) == [];
    assert Times(1, ForDelta(xs, id)) == ForDelta(xs, id) + Times(0, ForDelta(xs, id)) == ForDelta(xs, id);
  }

  lemma {:induction false} ToolsFollow(xs: seq<Exchange>, id: string, later: seq<Slot>, ids: DeltaIds)
    requires Follows(later, Some(id), ids)
    ensures Follows(ToolSlots(ForDelta(xs, id)) + later, Some(id), ids)
  {
    if xs == [] {
      assert ToolSlots(ForDelta(xs, id)) + later == later;
    } else {
      ToolsFollow(xs[1..], id, later, ids);
      if xs[0].deltaId == id {
        var rest := ToolSlots(ForDelta(xs[1..], id));
        assert ForDelta(xs, id)[1..] == ForDelta(xs[1..], id);
        assert ToolSlots(ForDelta(xs, id)) + later == [Tools(xs[0])] + (rest + later);
      }
    }
  }

  lemma {:induction false} PromptsFollow(bs: seq<Block>, current: Option<string>, ids: DeltaIds)
    ensures Follows(PromptSlots(bs), current, ids)
  {
    if bs != [] {
      PromptsFollow(bs[1..], ids(bs[0].text), ids);
      assert PromptSlots(bs)[1..] == PromptSlots(bs[1..]);
    }
  }

  lemma FirstSlot(bs: seq<Block>, tail: seq<Block>, xs: seq<Exchange>, ids: DeltaIds)
    requires bs != []
    ensures Weave(bs, xs, ids) + PromptSlots(tail) ==
      [Prompt(bs[0])] + (ToolSlots(After(bs[0], xs, ids)) + (Weave(bs[1..], xs, ids) + PromptSlots(tail)))
  {
    var own, tools, later := [Prompt(bs[0])], ToolSlots(After(bs[0], xs, ids)), Weave(bs[1..], xs, ids);
    Associate(own, tools, later, PromptSlots(tail));
  }

  lemma Associate<T>(a: seq<T>, b: seq<T>, c: seq<T>, d: seq<T>)
    ensures a + b + c + d == a + (b + (c + d))
  {
  }

  lemma {:induction false} WeaveFollows(bs: seq<Block>, tail: seq<Block>, xs: seq<Exchange>, current: Option<string>, ids: DeltaIds)
    ensures Follows(Weave(bs, xs, ids) + PromptSlots(tail), current, ids)
  {
    if bs == [] {
      assert Weave(bs, xs, ids) + PromptSlots(tail) == PromptSlots(tail);
      PromptsFollow(tail, current, ids);
    } else {
      var own := ids(bs[0].text);
      var tools, later := ToolSlots(After(bs[0], xs, ids)), Weave(bs[1..], xs, ids) + PromptSlots(tail);
      WeaveFollows(bs[1..], tail, xs, own, ids);
      if own.Some? {
        ToolsFollow(xs, own.value, later, ids);
      } else {
        assert tools + later == later;
      }
      FirstSlot(bs, tail, xs, ids);
    }
  }

  /** Every exchange stands behind the block with its delta id, with nothing but exchanges of that id between. */
  lemma PlanFollows(bs: seq<Block>, xs: seq<Exchange>, ids: DeltaIds)
    ensures Follows(Plan(bs, xs, ids), None, ids)
  {
    WeaveFollows(Others(bs), Trailers(bs), xs, None, ids);
  }

  // ----- the timeline -----

  datatype Moment =
    | UserText(text: string)
    | AssistantText(text: string)
    | Call(id: string, name: string, input: string)
    | Result(id: string, content: string)

  function CallMoments(cs: seq<ToolCall>): seq<Moment> {
    if cs == [] then [] else [Call(cs[0].id, cs[0].name, cs[0].input)] + CallMoments(cs[1..])
  }

  function ResultMoments(rs: seq<ToolResult>): seq<Moment> {
    if rs == [] then [] else [Result(rs[0].callId, rs[0].content)] + ResultMoments(rs[1..])
  }

  /** Assistant text, then its calls, then their results. */
  function ExchangeMoments(x: Exchange): seq<Moment> {
    (if Blank(x.assistantText) then [] else [AssistantText(x.assistantText)])
    + CallMoments(x.calls) + ResultMoments(x.results)
  }

  function SlotMoments(s: Slot): seq<Moment> {
    match s
    case Prompt(b) => if b.role == User then [UserText(b.text)] else []
    case Tools(x) => ExchangeMoments(x)
  }

  function Told(slots: seq<Slot>): seq<Moment> {
    if slots == [] then [] else SlotMoments(slots[0]) + Told(slots[1..])
  }

  /** What the model is told: the user blocks with their exchanges, and the trailers at the end. */
  function Timeline(bs: seq<Block>, xs: seq<Exchange>, ids: DeltaIds): seq<Moment> {
    Told(Plan(UserBlocks(bs), xs, ids))
  }

  lemma {:induction false} ToldConcat(s: seq<Slot>, t: seq<Slot>)
    ensures Told(s + t) == Told(s) + Told(t)
  {
    if s == [] {
      assert s + t == t;
    } else {
      assert (s + t)[1..] == s[1..] + t;
      ToldConcat(s[1..], t);
      Associate(SlotMoments(s[0]), Told(s[1..]), Told(t), []);
    }
  }

  /** The raw arguments of every call say what its input says. */
  predicate Parsed(xs: seq<Exchange>, read: Reading) {
    forall i :: 0 <= i < |xs| ==> CallsParsed(xs[i].calls, read)
  }

  predicate CallsParsed(cs: seq<ToolCall>, read: Reading) {
    forall i :: 0 <= i < |cs| ==> read(cs[i].rawArguments) == cs[i].input
  }

  predicate SlotParsed(s: Slot, read: Reading) {
    s.Tools? ==> CallsParsed(s.exchange.calls, read)
  }

  predicate SlotsParsed(slots: seq<Slot>, read: Reading) {
    forall i :: 0 <= i < |slots| ==> SlotParsed(slots[i], read)
  }

  lemma {:induction false} ToolsParsed(xs: seq<Exchange>, id: string, read: Reading)
    requires Parsed(xs, read)
    ensures SlotsParsed(ToolSlots(ForDelta(xs, id)), read)
  {
    if xs != [] {
      ToolsParsed(xs[1..], id, read);
      if xs[0].deltaId == id {
        assert ForDelta(xs, id)[1..] == ForDelta(xs[1..], id);
        assert CallsParsed(xs[0].calls, read);
      }
    }
  }

  lemma {:induction false} PromptsParsed(bs: seq<Block>, read: Reading)
    ensures SlotsParsed(PromptSlots(bs), read)
  {
    if bs != [] {
      PromptsParsed(bs[1..], read);
    }
  }

  lemma {:induction false} WeaveParsed(bs: seq<Block>, xs: seq<Exchange>, ids: DeltaIds, read: Reading)
    requires Parsed(xs, read)
    ensures SlotsParsed(Weave(bs, xs, ids), read)
  {
    if bs != [] {
      WeaveParsed(bs[1..], xs, ids, read);
      if ids(bs[0].text).Some? {
        ToolsParsed(xs, ids(bs[0].text).value, read);
      }
    }
  }

  lemma PlanParsed(bs: seq<Block>, xs: seq<Exchange>, ids: DeltaIds, read: Reading)
    requires Parsed(xs, read)
    ensures SlotsParsed(Plan(bs, xs, ids), read)
  {
    WeaveParsed(Others(bs), xs, ids, read);
    PromptsParsed(Trailers(bs), read);
  }

  /** The first block goes to the tail or stays in place. */
  lemma SplitFirst(bs: seq<Block>)
    requires bs != []
    ensures IsTrailer(bs[0]) ==> Others(bs) == Others(bs[1..]) && Trailers(bs) == [bs[0]] + Trailers(bs[1..])
    ensures !IsTrailer(bs[0]) ==> Others(bs) == [bs[0]] + Others(bs[1..]) && Trailers(bs) == Trailers(bs[1..])
  {
  }

  lemma ToldStep(b: Block, rest: seq<Block>, xs: seq<Exchange>, ids: DeltaIds)
    ensures Told(Weave([b] + rest, xs, ids)) ==
      SlotMoments(Prompt(b)) + Told(ToolSlots(After(b, xs, ids))) + Told(Weave(rest, xs, ids))
  {
    var tools := ToolSlots(After(b, xs, ids));
    ToldConcat([Prompt(b)] + tools, Weave(rest, xs, ids));
    ToldConcat([Prompt(b)], tools);
    assert [Prompt(b)][1..] == [];
    assert Told([Prompt(b)]) == SlotMoments(Prompt(b));
  }

  // ----- one step of the loops -----

  lemma {:induction false} ForDeltaUpTo(xs: seq<Exchange>, i: nat, id: string)
    requires i < |xs|
    ensures ForDelta(xs[..i + 1], id) == ForDelta(xs[..i], id) + if xs[i].deltaId == id then [xs[i]] else []
  {
    assert xs[..i + 1] == xs[..i] + [xs[i]];
    ForDeltaConcat(xs[..i], [xs[i]], id);
    assert [xs[i]][1..] == [];
  }

  lemma {:induction false} ToolSlotsSnoc(xs: seq<Exchange>, x: Exchange)
    ensures ToolSlots(xs + [x]) == ToolSlots(xs) + [Tools(x)]
  {
    if xs == [] {
      assert xs + [x] == [x];
      assert [x][1..] == [];
    } else {
      assert (xs + [x])[1..] == xs[1..] + [x];
      ToolSlotsSnoc(xs[1..], x);
    }
  }

  lemma ToolsUpTo(xs: seq<Exchange>, i: nat, id: string)
    requires i < |xs|
    ensures ToolSlots(ForDelta(xs[..i + 1], id)) ==
      ToolSlots(ForDelta(xs[..i], id)) + if xs[i].deltaId == id then [Tools(xs[i])] else []
  {
    ForDeltaUpTo(xs, i, id);
    ToolSlotsSnoc(ForDelta(xs[..i], id), xs[i]);
    assert ForDelta(xs[..i], id) + [] == ForDelta(xs[..i], id);
  }

  lemma {:induction false} WeaveSnoc(bs: seq<Block>, b: Block, xs: seq<Exchange>, ids: DeltaIds)
    ensures Weave(bs + [b], xs, ids) == Weave(bs, xs, ids) + [Prompt(b)] + ToolSlots(After(b, xs, ids))
  {
    if bs == [] {
      assert bs + [b] == [b];
      assert [b][1..] == [];
    } else {
      assert (bs + [b])[1..] == bs[1..] + [b];
      WeaveSnoc(bs[1..], b, xs, ids);
      Associate([Prompt(bs[0])] + ToolSlots(After(bs[0], xs, ids)), Weave(bs[1..], xs, ids),
        [Prompt(b)], ToolSlots(After(b, xs, ids)));
      Associate(Weave(bs[1..], xs, ids), [Prompt(b)], ToolSlots(After(b, xs, ids)), []);
    }
  }

  lemma {:induction false} PromptSlotsSnoc(bs: seq<Block>, b: Block)
    ensures PromptSlots(bs + [b]) == PromptSlots(bs) + [Prompt(b)]
  {
    if bs == [] {
      assert bs + [b] == [b];
      assert [b][1..] == [];
    } else {
      assert (bs + [b])[1..] == bs[1..] + [b];
      PromptSlotsSnoc(bs[1..], b);
    }
  }

  lemma {:induction false} SplitSnoc(bs: seq<Block>, b: Block)
    ensures Others(bs + [b]) == Others(bs) + if IsTrailer(b) then [] else [b]
    ensures Trailers(bs + [b]) == Trailers(bs) + if IsTrailer(b) then [b] else []
  {
    if bs == [] {
      assert bs + [b] == [b];
      assert [b][1..] == [];
    } else {
      assert (bs + [b])[1..] == bs[1..] + [b];
      SplitSnoc(bs[1..], b);
    }
  }

  lemma SplitUpTo(bs: seq<Block>, i: nat, xs: seq<Exchange>, ids: DeltaIds)
    requires i < |bs|
    ensures Weave(Others(bs[..i + 1]), xs, ids) ==
      if IsTrailer(bs[i]) then Weave(Others(bs[..i]), xs, ids)
      else Weave(Others(bs[..i]), xs, ids) + [Prompt(bs[i])] + ToolSlots(After(bs[i], xs, ids))
    ensures PromptSlots(Trailers(bs[..i + 1])) ==
      PromptSlots(Trailers(bs[..i])) + if IsTrailer(bs[i]) then [Prompt(bs[i])] else []
  {
    assert bs[..i + 1] == bs[..i] + [bs[i]];
    SplitSnoc(bs[..i], bs[i]);
    if IsTrailer(bs[i]) {
      PromptSlotsSnoc(Trailers(bs[..i]), bs[i]);
      assert Others(bs[..i]) + [] == Others(bs[..i]);
    } else {
      WeaveSnoc(Others(bs[..i]), bs[i], xs, ids);
      assert Trailers(bs[..i]) + [] == Trailers(bs[..i]);
    }
  }

  // ----- user blocks -----

  predicate AllUser(bs: seq<Block>) {
    forall i :: 0 <= i < |bs| ==> bs[i].role == User
  }

  lemma {:induction false} UserBlocksAreUser(bs: seq<Block>)
    ensures AllUser(UserBlocks(bs))
  {
    if bs != [] {
      UserBlocksAreUser(bs[1..]);
    }
  }

  lemma {:induction false} SplitUser(bs: seq<Block>)
    requires AllUser(bs)
    ensures AllUser(Others(bs)) && AllUser(Trailers(bs))
  {
    if bs != [] {
      SplitUser(bs[1..]);
    }
  }

  // ----- the timeline without its exchanges -----

  function UserTexts(ms: seq<Moment>): seq<string> {
    if ms == [] then [] else if ms[0].UserText? then [ms[0].text] + UserTexts(ms[1..]) else UserTexts(ms[1..])
  }

  function BlockTexts(bs: seq<Block>): seq<string> {
    if bs == [] then [] else [bs[0].text] + BlockTexts(bs[1..])
  }

  lemma {:induction false} UserTextsConcat(s: seq<Moment>, t: seq<Moment>)
    ensures UserTexts(s + t) == UserTexts(s) + UserTexts(t)
  {
    if s == [] {
      assert s + t == t;
    } else {
      assert (s + t)[1..] == s[1..] + t;
      UserTextsConcat(s[1..], t);
    }
  }

  lemma {:induction false} CallsHoldNoText(cs: seq<ToolCall>)
    ensures UserTexts(CallMoments(cs)) == []
  {
    if cs != [] {
      CallsHoldNoText(cs[1..]);
      assert CallMoments(cs)[1..] == CallMoments(cs[1..]);
    }
  }

  lemma {:induction false} ResultsHoldNoText(rs: seq<ToolResult>)
    ensures UserTexts(ResultMoments(rs)) == []
  {
    if rs != [] {
      ResultsHoldNoText(rs[1..]);
      assert ResultMoments(rs)[1..] == ResultMoments(rs[1..]);
    }
  }

  lemma ExchangesHoldNoText(x: Exchange)
    ensures UserTexts(ExchangeMoments(x)) == []
  {
    var text: seq<Moment> := if Blank(x.assistantText) then [] else [AssistantText(x.assistantText)];
    UserTextsConcat(text + CallMoments(x.calls), ResultMoments(x.results));
    UserTextsConcat(text, CallMoments(x.calls));
    assert text != [] ==> text[1..] == [];
    CallsHoldNoText(x.calls);
    ResultsHoldNoText(x.results);
  }

  lemma {:induction false} ToldTexts(slots: seq<Slot>)
    requires AllUser(BlocksIn(slots))
    ensures UserTexts(Told(slots)) == BlockTexts(BlocksIn(slots))
  {
    if slots != [] {
      UserTextsConcat(SlotMoments(slots[0]), Told(slots[1..]));
      match slots[0]
      case Prompt(b) =>
        assert BlocksIn(slots)[1..] == BlocksIn(slots[1..]);
        assert b == BlocksIn(slots)[0];
        assert SlotMoments(slots[0])[1..] == [];
        ToldTexts(slots[1..]);
      case Tools(x) =>
        ExchangesHoldNoText(x);
        ToldTexts(slots[1..]);
    }
  }

  /** Without its exchanges the timeline is the user blocks, the trailers at the end. */
  lemma TimelineWithoutExchanges(bs: seq<Block>, xs: seq<Exchange>, ids: DeltaIds)
    ensures UserTexts(Timeline(bs, xs, ids)) == BlockTexts(Others(UserBlocks(bs)) + Trailers(UserBlocks(bs)))
  {
    var users := UserBlocks(bs);
    UserBlocksAreUser(bs);
    SplitUser(users);
    PlanBlocks(users, xs, ids);
    ToldTexts(Plan(users, xs, ids));
  }
}
