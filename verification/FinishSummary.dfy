/** The finish summary, streamed. */
module FinishSummary {
  // The preview of a streamed `task_finished` summary (core/agent/src/model_stream.rs) and the calls collected from the
  // same fragments (core/agent/src/model_api.rs).

  import opened Wrappers
  import opened Text
  import S = SummaryArguments
  import D = SummaryDocuments
  import J = JsonText

  const FINISH: string := "task_finished"

  /** One element of `choices[0].delta.tool_calls`. */
  datatype Chunk = Chunk(index: Option<nat>, id: Option<string>, name: Option<string>, arguments: Option<string>)

  datatype Event =
    | ChatDelta(chunks: seq<Chunk>)
    | ItemAdded(isFunctionCall: bool, id: Option<string>, name: Option<string>)
    | ArgumentsDelta(itemId: Option<string>, delta: Option<string>)
    | OtherEvent

  datatype Fragment = Fragment(key: string, name: Option<string>, arguments: string)

  function OrEmpty(s: Option<string>): string {
    if s.Some? then s.value else ""
  }

  // ----- decimal keys -----

  function Decimal(n: nat): string {
    if n < 10 then [DigitChar(n)] else Decimal(n / 10) + [DigitChar(n % 10)]
  }

  function DigitChar(d: nat): char
    requires d < 10
  {
    (d + '0' as int) as char
  }

  function DecimalValue(s: string): int {
    if s == "" then 0 else DecimalValue(s[..|s| - 1]) * 10 + (s[|s| - 1] as int - '0' as int)
  }

  lemma {:induction false} DecimalRoundTrip(n: nat)
    ensures Decimal(n) != "" && DecimalValue(Decimal(n)) == n
  {
    if n < 10 {
      assert Decimal(n)[..0] == "";
    } else {
      DecimalRoundTrip(n / 10);
      assert Decimal(n)[..|Decimal(n)| - 1] == Decimal(n / 10);
    }
  }

  // ----- the preview -----

  function ChunkFragment(c: Chunk): Fragment
    requires c.index.Some?
  {
    Fragment(Decimal(c.index.value), if OrEmpty(c.name) == "" then None else c.name, OrEmpty(c.arguments))
  }

  function ChunkFragments(chunks: seq<Chunk>): seq<Fragment> {
    if chunks == [] then []
    else (if chunks[0].index.Some? then [ChunkFragment(chunks[0])] else []) + ChunkFragments(chunks[1..])
  }

  function EventFragments(e: Event): seq<Fragment> {
    match e
    case ChatDelta(chunks) => ChunkFragments(chunks)
    case ItemAdded(isFunctionCall, id, name) =>
      if isFunctionCall && id.Some? && name.Some? then [Fragment(id.value, name, "")] else []
    case ArgumentsDelta(itemId, delta) =>
      if itemId.Some? && delta.Some? then [Fragment(itemId.value, None, delta.value)] else []
    case OtherEvent => []
  }

  /** The calls seen so far, by key, with the last name given to each, and the one argument parser. */
  datatype Finder = Finder(calls: seq<(string, string)>, parser: S.Machine)

  datatype Outcome = Outcome(finder: Finder, text: string)

  const FRESH := Finder([], S.INIT)

  function SetName(calls: seq<(string, string)>, key: string, name: string): seq<(string, string)> {
    if calls == [] then [(key, name)]
    else if calls[0].0 == key then [(key, name)] + calls[1..]
    else [calls[0]] + SetName(calls[1..], key, name)
  }

  function NameOf(calls: seq<(string, string)>, key: string): Option<string> {
    if calls == [] then None else if calls[0].0 == key then Some(calls[0].1) else NameOf(calls[1..], key)
  }

  function Step(f: Finder, x: Fragment): (r: Outcome)
    requires f.parser.Valid()
    ensures r.finder.parser.Valid()
  {
    var calls := if x.name.Some? then SetName(f.calls, x.key, x.name.value) else f.calls;
    if x.arguments != "" && NameOf(calls, x.key) == Some(FINISH) then
      var r := S.Run(f.parser, x.arguments);
      Outcome(Finder(calls, r.machine), r.text)
    else Outcome(f.(calls := calls), "")
  }

  function Run(f: Finder, xs: seq<Fragment>): (r: Outcome)
    requires f.parser.Valid()
    ensures r.finder.parser.Valid()
    decreases |xs|
  {
    if xs == [] then Outcome(f, "")
    else
      var first := Step(f, xs[0]);
      var rest := Run(first.finder, xs[1..]);
      Outcome(rest.finder, first.text + rest.text)
  }

  lemma {:induction false} RunConcat(f: Finder, a: seq<Fragment>, b: seq<Fragment>)
    requires f.parser.Valid()
    ensures Run(f, a + b) ==
      Outcome(Run(Run(f, a).finder, b).finder, Run(f, a).text + Run(Run(f, a).finder, b).text)
    decreases |a|
  {
    if a == [] {
      assert a + b == b;
    } else {
      var first := Step(f, a[0]);
      assert (a + b)[1..] == a[1..] + b;
      RunConcat(first.finder, a[1..], b);
      var later := Run(first.finder, a[1..]);
      assert first.text + (later.text + Run(later.finder, b).text) == (first.text + later.text) + Run(later.finder, b).text;
    }
  }

  lemma RunSnoc(f: Finder, a: seq<Fragment>, x: Fragment)
    requires f.parser.Valid()
    ensures var before := Run(f, a);
      var last := Step(before.finder, x);
      Run(f, a + [x]) == Outcome(last.finder, before.text + last.text)
  {
    RunConcat(f, a, [x]);
    assert [x][1..] == [];
    assert Step(Run(f, a).finder, x).text + "" == Step(Run(f, a).finder, x).text;
  }

  class NativeFinishSummaryStream {
    var calls: seq<(string, string)>
    const parser: S.SummaryArgumentParser

    ghost function View(): Finder
      reads this, parser, parser.unicode
    {
      Finder(calls, parser.View())
    }

    constructor ()
      ensures View() == FRESH && fresh(parser) && fresh(parser.unicode)
    {
      calls := [];
      parser := new S.SummaryArgumentParser();
    }

    method PushEvent(event: Event) returns (emitted: string)
      requires View().parser.Valid()
      modifies this, parser, parser.unicode
      ensures Outcome(View(), emitted) == old(Run(View(), EventFragments(event)))
    {
      var fragments := EventFragments(event);
      emitted := "";
      ghost var start := View();
      for i := 0 to |fragments|
        invariant View().parser.Valid()
        invariant Outcome(View(), emitted) == Run(start, fragments[..i])
      {
        RunSnoc(start, fragments[..i], fragments[i]);
        assert fragments[..i + 1] == fragments[..i] + [fragments[i]];
        var piece := PushFragment(fragments[i]);
        emitted := emitted + piece;
      }
      assert fragments[..|fragments|] == fragments;
    }

    method PushFragment(x: Fragment) returns (emitted: string)
      requires View().parser.Valid()
      modifies this, parser, parser.unicode
      ensures Outcome(View(), emitted) == old(Step(View(), x))
    {
      emitted := "";
      if x.name.Some? {
        calls := SetName(calls, x.key, x.name.value);
      }
      if x.arguments == "" {
        return;
      }
      if NameOf(calls, x.key) == Some(FINISH) {
        emitted := parser.Push(x.arguments);
      }
    }
  }

  lemma {:induction false} NameAfterSet(calls: seq<(string, string)>, key: string, name: string, other: string)
    ensures NameOf(SetName(calls, key, name), other) == if other == key then Some(name) else NameOf(calls, other)
  {
    if calls != [] && calls[0].0 != key {
      NameAfterSet(calls[1..], key, name, other);
      assert ([calls[0]] + SetName(calls[1..], key, name))[1..] == SetName(calls[1..], key, name);
    } else if calls != [] {
      assert ([(key, name)] + calls[1..])[1..] == calls[1..];
    } else {
      assert [(key, name)][1..] == [];
    }
  }

  // ----- the authoritative calls -----

  datatype Call = Call(id: string, name: string, arguments: string)

  datatype CallError = TooManyCalls

  const NO_CALL := Call("", "", "")

  function Resized(calls: seq<Call>, size: nat): (r: seq<Call>)
    ensures |r| == if |calls| < size then size else |calls|
    ensures forall i :: 0 <= i < |r| ==> r[i] == CallAt(calls, i)
  {
    if |calls| < size then calls + seq(size - |calls|, _ => NO_CALL) else calls
  }

  function CallAt(calls: seq<Call>, i: nat): Call {
    if i < |calls| then calls[i] else NO_CALL
  }

  function AddChunk(calls: seq<Call>, c: Chunk, limit: nat): Result<seq<Call>, CallError> {
    var index := if c.index.Some? then c.index.value else |calls|;
    if index >= limit then Err(TooManyCalls)
    else
      var grown := Resized(calls, index + 1);
      Ok(grown[index := Extended(grown[index], c)])
  }

  function Extended(call: Call, c: Chunk): Call {
    Call(call.id + OrEmpty(c.id), call.name + OrEmpty(c.name), call.arguments + OrEmpty(c.arguments))
  }

  function AddChunks(calls: seq<Call>, chunks: seq<Chunk>, limit: nat): Result<seq<Call>, CallError>
    decreases |chunks|
  {
    if chunks == [] then Ok(calls)
    else
      match AddChunks(calls, chunks[..|chunks| - 1], limit)
      case Err(e) => Err(e)
      case Ok(before) => AddChunk(before, chunks[|chunks| - 1], limit)
  }

  method Extend(call: Call, chunk: Chunk) returns (r: Call)
    ensures r == Extended(call, chunk)
  {
    r := call;
    if chunk.id.Some? { r := r.(id := r.id + chunk.id.value); }
    if chunk.name.Some? { r := r.(name := r.name + chunk.name.value); }
    if chunk.arguments.Some? { r := r.(arguments := r.arguments + chunk.arguments.value); }
    assert call.id + "" == call.id && call.name + "" == call.name && call.arguments + "" == call.arguments;
  }

  /** The accumulation loop over the tool-call chunks of one stream. */
  method Accumulate(chunks: seq<Chunk>, limit: nat) returns (result: Result<seq<Call>, CallError>)
    ensures result == AddChunks([], chunks, limit)
  {
    var calls: seq<Call> := [];
    for i := 0 to |chunks|
      invariant AddChunks([], chunks[..i], limit) == Ok(calls)
    {
      assert chunks[..i + 1][..i] == chunks[..i];
      var chunk := chunks[i];
      var index := if chunk.index.Some? then chunk.index.value else |calls|;
      if index >= limit {
        FailureStays([], chunks, limit, i + 1);
        return Err(TooManyCalls);
      }
      if |calls| <= index {
        calls := Resized(calls, index + 1);
      }
      var call := Extend(calls[index], chunk);
      calls := calls[index := call];
    }
    assert chunks[..|chunks|] == chunks;
    result := Ok(calls);
  }

  lemma {:induction false} FailureStays(calls: seq<Call>, chunks: seq<Chunk>, limit: nat, n: nat)
    requires n <= |chunks| && AddChunks(calls, chunks[..n], limit) == Err(TooManyCalls)
    ensures AddChunks(calls, chunks, limit) == Err(TooManyCalls)
    decreases |chunks|
  {
    if n == |chunks| {
      assert chunks[..n] == chunks;
    } else {
      assert chunks[..|chunks| - 1][..n] == chunks[..n];
      FailureStays(calls, chunks[..|chunks| - 1], limit, n);
    }
  }

  // ----- agreement -----

  /** Everything the chunks of one index say, put together. */
  function IdAt(chunks: seq<Chunk>, i: nat): string {
    if chunks == [] then ""
    else
      var last := chunks[|chunks| - 1];
      IdAt(chunks[..|chunks| - 1], i) + (if last.index == Some(i) then OrEmpty(last.id) else "")
  }

  function NameAt(chunks: seq<Chunk>, i: nat): string {
    if chunks == [] then ""
    else
      var last := chunks[|chunks| - 1];
      NameAt(chunks[..|chunks| - 1], i) + (if last.index == Some(i) then OrEmpty(last.name) else "")
  }

  function ArgumentsAt(chunks: seq<Chunk>, i: nat): string {
    if chunks == [] then ""
    else
      var last := chunks[|chunks| - 1];
      ArgumentsAt(chunks[..|chunks| - 1], i) + (if last.index == Some(i) then OrEmpty(last.arguments) else "")
  }

  predicate AllIndexed(chunks: seq<Chunk>, limit: nat) {
    forall k :: 0 <= k < |chunks| ==> chunks[k].index.Some? && chunks[k].index.value < limit
  }

  function CallOf(chunks: seq<Chunk>, i: nat): Call {
    Call(IdAt(chunks, i), NameAt(chunks, i), ArgumentsAt(chunks, i))
  }

  lemma CallOfSnoc(chunks: seq<Chunk>, i: nat)
    requires chunks != []
    ensures var init, last := chunks[..|chunks| - 1], chunks[|chunks| - 1];
      CallOf(chunks, i) == if last.index == Some(i) then Extended(CallOf(init, i), last) else CallOf(init, i)
  {
    var before := CallOf(chunks[..|chunks| - 1], i);
    assert before.id + "" == before.id && before.name + "" == before.name && before.arguments + "" == before.arguments;
  }

  /** The authoritative calls hold, per index, exactly what the chunks of that index say: id, name and arguments. */
  lemma {:induction false} CallsHoldFragments(chunks: seq<Chunk>, limit: nat)
    requires AllIndexed(chunks, limit)
    ensures var r := AddChunks([], chunks, limit);
      r.Ok? && forall i: nat :: CallAt(r.value, i) == CallOf(chunks, i)
    decreases |chunks|
  {
    if chunks != [] {
      var init, last := chunks[..|chunks| - 1], chunks[|chunks| - 1];
      CallsHoldFragments(init, limit);
      var before := AddChunks([], init, limit).value;
      var after := AddChunks([], chunks, limit).value;
      forall i: nat ensures CallAt(after, i) == CallOf(chunks, i) {
        AddedAt(before, last, limit, i);
        CallOfSnoc(chunks, i);
      }
    }
  }

  lemma AddedAt(calls: seq<Call>, c: Chunk, limit: nat, i: nat)
    requires c.index.Some? && c.index.value < limit
    ensures var r := AddChunk(calls, c, limit);
      r.Ok? && CallAt(r.value, i) ==
        if i == c.index.value then Extended(CallAt(calls, i), c) else CallAt(calls, i)
  {
    var grown := Resized(calls, c.index.value + 1);
    if i < |grown| {
      assert grown[i] == CallAt(calls, i);
    }
  }

  // ----- chunks without an index -----

  /** How many calls there are behind these chunks. */
  function Width(chunks: seq<Chunk>): nat
    decreases |chunks|, 0
  {
    if chunks == [] then 0
    else
      var place := Place(chunks[..|chunks| - 1], chunks[|chunks| - 1]);
      if place < Width(chunks[..|chunks| - 1]) then Width(chunks[..|chunks| - 1]) else place + 1
  }

  /** The call that a chunk behind others belongs to: the one it names, or a new one at the end. */
  function Place(before: seq<Chunk>, c: Chunk): nat
    decreases |before|, 1
  {
    match c.index
    case Some(i) => i
    case None => Width(before)
  }

  /** The chunks with their calls filled in. */
  function Placed(chunks: seq<Chunk>): (placed: seq<Chunk>)
    ensures |placed| == |chunks|
  {
    if chunks == [] then []
    else
      var init, last := chunks[..|chunks| - 1], chunks[|chunks| - 1];
      Placed(init) + [last.(index := Some(Place(init, last)))]
  }

  predicate AllPlacesBelow(chunks: seq<Chunk>, limit: nat) {
    chunks == [] || (AllPlacesBelow(chunks[..|chunks| - 1], limit) && Place(chunks[..|chunks| - 1], chunks[|chunks| - 1]) < limit)
  }

  lemma PlacedSnoc(chunks: seq<Chunk>, i: nat)
    requires chunks != []
    ensures var init, last := chunks[..|chunks| - 1], chunks[|chunks| - 1];
      CallOf(Placed(chunks), i) ==
        if i == Place(init, last) then Extended(CallOf(Placed(init), i), last) else CallOf(Placed(init), i)
  {
    assert Placed(chunks)[..|chunks| - 1] == Placed(chunks[..|chunks| - 1]);
    CallOfSnoc(Placed(chunks), i);
  }

  lemma PlacedAt(calls: seq<Call>, before: seq<Chunk>, c: Chunk, limit: nat, i: nat)
    requires |calls| == Width(before)
    ensures var r := AddChunk(calls, c, limit);
      && (r.Ok? <==> Place(before, c) < limit)
      && (r.Ok? ==> CallAt(r.value, i) == if i == Place(before, c) then Extended(CallAt(calls, i), c) else CallAt(calls, i))
  {
    var grown := Resized(calls, Place(before, c) + 1);
    if i < |grown| {
      assert grown[i] == CallAt(calls, i);
    }
  }

  /**
    The accumulation fails exactly when a chunk belongs to a call beyond the limit; otherwise it holds, per call, exactly
    what its chunks say, and a chunk that names no call begins a new one.
   */
  lemma {:induction false} AccumulatedIff(chunks: seq<Chunk>, limit: nat)
    ensures var r := AddChunks([], chunks, limit);
      && (r.Ok? <==> AllPlacesBelow(chunks, limit))
      && (r.Ok? ==> |r.value| == Width(chunks) && forall i: nat :: CallAt(r.value, i) == CallOf(Placed(chunks), i))
    decreases |chunks|
  {
    if chunks != [] {
      var init, last := chunks[..|chunks| - 1], chunks[|chunks| - 1];
      AccumulatedIff(init, limit);
      var before := AddChunks([], init, limit);
      if before.Ok? {
        PlacedAt(before.value, init, last, limit, 0);
        forall i: nat
          ensures AddChunks([], chunks, limit).Ok? ==> CallAt(AddChunks([], chunks, limit).value, i) == CallOf(Placed(chunks), i)
        {
          PlacedAt(before.value, init, last, limit, i);
          PlacedSnoc(chunks, i);
        }
      }
    }
  }

  // ----- what the preview reads -----

  /** The last piece of the name of index `i`. */
  function LastNameAt(chunks: seq<Chunk>, i: nat): string {
    if chunks == [] then ""
    else
      var last := chunks[|chunks| - 1];
      if last.index == Some(i) && OrEmpty(last.name) != "" then OrEmpty(last.name) else LastNameAt(chunks[..|chunks| - 1], i)
  }

  /** The arguments that arrive while the last piece of their call's name is the whole name of the finish. */
  function Heard(chunks: seq<Chunk>): string {
    if chunks == [] then ""
    else
      var last := chunks[|chunks| - 1];
      Heard(chunks[..|chunks| - 1])
      + (if last.index.Some? && LastNameAt(chunks, last.index.value) == FINISH then OrEmpty(last.arguments) else "")
  }

  /** The preview knows, per index, the last piece of the name. */
  ghost predicate KnowsNames(f: Finder, chunks: seq<Chunk>) {
    forall i: nat ::
      NameOf(f.calls, Decimal(i)) == if LastNameAt(chunks, i) == "" then None else Some(LastNameAt(chunks, i))
  }

  lemma StepKnowsName(calls: seq<(string, string)>, x: Fragment, index: nat, i: nat)
    requires x.key == Decimal(index)
    ensures NameOf(if x.name.Some? then SetName(calls, x.key, x.name.value) else calls, Decimal(i)) ==
      if i == index && x.name.Some? then x.name else NameOf(calls, Decimal(i))
  {
    DecimalRoundTrip(i);
    DecimalRoundTrip(index);
    if x.name.Some? {
      NameAfterSet(calls, x.key, x.name.value, Decimal(i));
    }
  }

  lemma StepKnowsNames(f: Finder, chunks: seq<Chunk>)
    requires chunks != [] && chunks[|chunks| - 1].index.Some? && f.parser.Valid()
    requires KnowsNames(f, chunks[..|chunks| - 1])
    ensures KnowsNames(Step(f, ChunkFragment(chunks[|chunks| - 1])).finder, chunks)
  {
    var last := chunks[|chunks| - 1];
    var x := ChunkFragment(last);
    var f' := Step(f, x).finder;
    forall i: nat
      ensures NameOf(f'.calls, Decimal(i)) == if LastNameAt(chunks, i) == "" then None else Some(LastNameAt(chunks, i))
    {
      StepKnowsName(f.calls, x, last.index.value, i);
    }
  }

  lemma {:induction false} FragmentsSnoc(chunks: seq<Chunk>, last: Chunk)
    ensures ChunkFragments(chunks + [last]) ==
      ChunkFragments(chunks) + if last.index.Some? then [ChunkFragment(last)] else []
  {
    if chunks == [] {
      assert chunks + [last] == [last] && [last][1..] == [];
    } else {
      assert (chunks + [last])[1..] == chunks[1..] + [last];
      FragmentsSnoc(chunks[1..], last);
    }
  }

  ghost predicate Reads(r: Outcome, chunks: seq<Chunk>) {
    && KnowsNames(r.finder, chunks)
    && S.Outcome(r.finder.parser, r.text) == S.Run(S.INIT, Heard(chunks))
  }

  /** For any chunks at all: the preview parser is fed exactly what is heard. */
  lemma {:induction false} PreviewReads(chunks: seq<Chunk>)
    ensures Reads(Run(FRESH, ChunkFragments(chunks)), chunks)
    decreases |chunks|
  {
    if chunks != [] {
      var init, last := chunks[..|chunks| - 1], chunks[|chunks| - 1];
      PreviewReads(init);
      assert chunks == init + [last];
      FragmentsSnoc(init, last);
      if last.index.Some? {
        RunSnoc(FRESH, ChunkFragments(init), ChunkFragment(last));
        ReadLast(Run(FRESH, ChunkFragments(init)), chunks);
      } else {
        assert ChunkFragments(init) + [] == ChunkFragments(init) && Heard(init) + "" == Heard(init);
      }
    }
  }

  lemma ReadLast(before: Outcome, chunks: seq<Chunk>)
    requires chunks != [] && chunks[|chunks| - 1].index.Some? && before.finder.parser.Valid()
    requires Reads(before, chunks[..|chunks| - 1])
    ensures var after := Step(before.finder, ChunkFragment(chunks[|chunks| - 1]));
      Reads(Outcome(after.finder, before.text + after.text), chunks)
  {
    StepKnowsNames(before.finder, chunks);
    ReadStep(before, chunks);
  }

  lemma ReadStep(before: Outcome, chunks: seq<Chunk>)
    requires chunks != [] && chunks[|chunks| - 1].index.Some? && before.finder.parser.Valid()
    requires S.Outcome(before.finder.parser, before.text) == S.Run(S.INIT, Heard(chunks[..|chunks| - 1]))
    requires KnowsNames(Step(before.finder, ChunkFragment(chunks[|chunks| - 1])).finder, chunks)
    ensures var after := Step(before.finder, ChunkFragment(chunks[|chunks| - 1]));
      S.Outcome(after.finder.parser, before.text + after.text) == S.Run(S.INIT, Heard(chunks))
  {
    var init, last := chunks[..|chunks| - 1], chunks[|chunks| - 1];
    var i, a := last.index.value, OrEmpty(last.arguments);
    assert before.text + "" == before.text;
    assert Heard(init) + "" == Heard(init);
    if LastNameAt(chunks, i) == FINISH {
      S.RunConcat(S.INIT, Heard(init), a);
    }
  }

  /** No arguments of another call than `j` are heard. */
  predicate OnlyHeard(chunks: seq<Chunk>, j: nat) {
    chunks == [] ||
    var last := chunks[|chunks| - 1];
    && OnlyHeard(chunks[..|chunks| - 1], j)
    && (last.index.Some? && last.index != Some(j) && OrEmpty(last.arguments) != "" ==>
          LastNameAt(chunks, last.index.value) != FINISH)
  }

  /** Whenever arguments of call `j` arrive, the last piece of its name is the whole name of the finish. */
  predicate NamedWhole(chunks: seq<Chunk>, j: nat) {
    chunks == [] ||
    var last := chunks[|chunks| - 1];
    && NamedWhole(chunks[..|chunks| - 1], j)
    && (last.index == Some(j) && OrEmpty(last.arguments) != "" ==> LastNameAt(chunks, j) == FINISH)
  }

  lemma LongerParts(a: string, b: string, c: string, d: string)
    requires |a| <= |c| && |b| <= |d|
    ensures |a + b| <= |c + d|
    ensures a + b == c + d <==> a == c && b == d
  {
    if a + b == c + d {
      assert a == (a + b)[..|a|] && c == (c + d)[..|c|];
      assert b == (a + b)[|a|..] && d == (c + d)[|c|..];
    }
  }

  /** The arguments of call `j` are heard in full exactly when its name is whole whenever some of them arrive. */
  lemma {:induction false} HeardIsAllIff(chunks: seq<Chunk>, j: nat)
    requires OnlyHeard(chunks, j)
    ensures |Heard(chunks)| <= |ArgumentsAt(chunks, j)|
    ensures Heard(chunks) == ArgumentsAt(chunks, j) <==> NamedWhole(chunks, j)
    decreases |chunks|
  {
    if chunks != [] {
      var init, last := chunks[..|chunks| - 1], chunks[|chunks| - 1];
      HeardIsAllIff(init, j);
      LongerParts(Heard(init),
        if last.index.Some? && LastNameAt(chunks, last.index.value) == FINISH then OrEmpty(last.arguments) else "",
        ArgumentsAt(init, j), if last.index == Some(j) then OrEmpty(last.arguments) else "");
    }
  }

  // ----- names that arrive whole -----

  /** Each name arrives whole and once. */
  predicate WholeNames(chunks: seq<Chunk>) {
    chunks == [] ||
    var init, last := chunks[..|chunks| - 1], chunks[|chunks| - 1];
    WholeNames(init) && last.index.Some? && (OrEmpty(last.name) != "" ==> NameAt(init, last.index.value) == "")
  }

  /** The name of call `j` arrives no later than its first arguments. */
  predicate NameFirst(chunks: seq<Chunk>, j: nat) {
    chunks == [] ||
    var last := chunks[|chunks| - 1];
    && NameFirst(chunks[..|chunks| - 1], j)
    && (last.index == Some(j) && OrEmpty(last.arguments) != "" ==> NameAt(chunks, j) != "")
  }

  /** The arguments of call `j` that arrive with or after its name. */
  function Fed(chunks: seq<Chunk>, j: nat): string {
    if chunks == [] then ""
    else
      var last := chunks[|chunks| - 1];
      Fed(chunks[..|chunks| - 1], j)
      + (if last.index == Some(j) && NameAt(chunks, j) != "" then OrEmpty(last.arguments) else "")
  }

  /** No argument text is lost exactly when the name comes first. */
  lemma {:induction false} FedIsAllIff(chunks: seq<Chunk>, j: nat)
    ensures |Fed(chunks, j)| <= |ArgumentsAt(chunks, j)|
    ensures Fed(chunks, j) == ArgumentsAt(chunks, j) <==> NameFirst(chunks, j)
    decreases |chunks|
  {
    if chunks != [] {
      var init, last := chunks[..|chunks| - 1], chunks[|chunks| - 1];
      FedIsAllIff(init, j);
      var fed := if last.index == Some(j) && NameAt(chunks, j) != "" then OrEmpty(last.arguments) else "";
      var all := if last.index == Some(j) then OrEmpty(last.arguments) else "";
      if Fed(init, j) + fed == ArgumentsAt(init, j) + all {
        assert |Fed(init, j)| == |ArgumentsAt(init, j)| && |fed| == |all|;
        assert Fed(init, j) == (Fed(init, j) + fed)[..|Fed(init, j)|];
      }
    }
  }

  /** Call `j` is the only one that can be the finish. */
  ghost predicate OnlyFinish(chunks: seq<Chunk>, j: nat) {
    && (NameAt(chunks, j) == "" || NameAt(chunks, j) == FINISH)
    && forall i: nat :: NameAt(chunks, i) == FINISH ==> i == j
  }

  lemma OnlyFinishBefore(chunks: seq<Chunk>, j: nat)
    requires chunks != [] && WholeNames(chunks) && OnlyFinish(chunks, j)
    ensures OnlyFinish(chunks[..|chunks| - 1], j)
  {
    var init, last := chunks[..|chunks| - 1], chunks[|chunks| - 1];
    forall i: nat ensures NameAt(init, i) == "" || NameAt(init, i) == NameAt(chunks, i) {
      assert NameAt(init, i) + "" == NameAt(init, i);
    }
  }

  lemma {:induction false} WholeIsLast(chunks: seq<Chunk>, i: nat)
    requires WholeNames(chunks)
    ensures LastNameAt(chunks, i) == NameAt(chunks, i)
    decreases |chunks|
  {
    if chunks != [] {
      var init, last := chunks[..|chunks| - 1], chunks[|chunks| - 1];
      WholeIsLast(init, i);
      assert NameAt(init, i) + "" == NameAt(init, i);
      assert "" + OrEmpty(last.name) == OrEmpty(last.name);
    }
  }

  lemma {:induction false} HeardIsFed(chunks: seq<Chunk>, j: nat)
    requires WholeNames(chunks) && OnlyFinish(chunks, j)
    ensures Heard(chunks) == Fed(chunks, j)
    decreases |chunks|
  {
    if chunks != [] {
      var last := chunks[|chunks| - 1];
      OnlyFinishBefore(chunks, j);
      HeardIsFed(chunks[..|chunks| - 1], j);
      WholeIsLast(chunks, last.index.value);
    }
  }

  /** The preview parser is fed exactly the arguments that arrive with or after the name. */
  lemma PreviewFollows(chunks: seq<Chunk>, j: nat)
    requires WholeNames(chunks) && OnlyFinish(chunks, j)
    ensures var r := Run(FRESH, ChunkFragments(chunks));
      S.Outcome(r.finder.parser, r.text) == S.Run(S.INIT, Fed(chunks, j))
  {
    PreviewReads(chunks);
    HeardIsFed(chunks, j);
  }

  function LateName(arguments: string): seq<Chunk> {
    [Chunk(Some(0), None, None, Some(arguments)), Chunk(Some(0), None, Some(FINISH), None)]
  }

  lemma LateNameFed(arguments: string)
    ensures AllIndexed(LateName(arguments), 1) && Fed(LateName(arguments), 0) == ""
    ensures CallOf(LateName(arguments), 0) == Call("", FINISH, arguments)
    ensures WholeNames(LateName(arguments)) && OnlyFinish(LateName(arguments), 0)
  {
    var chunks := LateName(arguments);
    var one := chunks[..1];
    assert one == [chunks[0]] && one[..0] == [];
    assert forall i: nat :: NameAt(one[..0], i) == "" && NameAt(one, i) == "";
    assert forall i: nat :: NameAt(chunks, i) == NameAt(one, i) + (if i == 0 then FINISH else "");
    assert ArgumentsAt(one[..0], 0) == "" && ArgumentsAt(one, 0) == "" + arguments && ArgumentsAt(chunks, 0) == arguments + "";
    assert IdAt(one[..0], 0) == "" && IdAt(one, 0) == "" && IdAt(chunks, 0) == "";
    assert WholeNames(one[..0]) && WholeNames(one);
    assert Fed(one[..0], 0) == "" && Fed(one, 0) == "";
  }

  /** A name that arrives behind its arguments: the call is complete, the preview says nothing of it. */
  lemma LateNameLosesAll(arguments: string, limit: nat)
    requires limit > 0
    ensures var calls := AddChunks([], LateName(arguments), limit);
      calls.Ok? && CallAt(calls.value, 0) == Call("", FINISH, arguments)
    ensures Run(FRESH, ChunkFragments(LateName(arguments))).text == ""
  {
    LateNameFed(arguments);
    CallsHoldFragments(LateName(arguments), limit);
    PreviewFollows(LateName(arguments), 0);
  }

  /** A name in two pieces, and then the arguments. */
  function SplitName(first: string, second: string, arguments: string): seq<Chunk> {
    [Chunk(Some(0), None, Some(first), None), Chunk(Some(0), None, Some(second), None), Chunk(Some(0), None, None, Some(arguments))]
  }

  lemma SplitCall(first: string, second: string, arguments: string)
    ensures CallOf(SplitName(first, second, arguments), 0) == Call("", first + second, arguments)
  {
    var chunks := SplitName(first, second, arguments);
    var one, two := chunks[..1], chunks[..2];
    assert two[..1] == one && one[..0] == [];
    CallOfSnoc(chunks, 0);
    CallOfSnoc(two, 0);
    CallOfSnoc(one, 0);
    assert CallOf([], 0) == NO_CALL;
    assert "" + first == first && "" + arguments == arguments;
    assert first + second + "" == first + second;
  }

  lemma SplitHeard(first: string, second: string, arguments: string)
    requires second != "" && second != FINISH
    ensures Heard(SplitName(first, second, arguments)) == ""
  {
    var chunks := SplitName(first, second, arguments);
    var one, two := chunks[..1], chunks[..2];
    assert two[..1] == one && one[..0] == [];
    assert Heard(one) == "";
    assert LastNameAt(two, 0) == second && Heard(two) == "";
    assert LastNameAt(chunks, 0) == second;
  }

  /** The calls put the pieces of the name together, the preview keeps the last one and hears nothing. */
  lemma SplitNameLosesAll(k: nat, arguments: string, limit: nat)
    requires 0 < k < |FINISH| && limit > 0
    ensures var calls := AddChunks([], SplitName(FINISH[..k], FINISH[k..], arguments), limit);
      calls.Ok? && CallAt(calls.value, 0) == Call("", FINISH, arguments)
    ensures Run(FRESH, ChunkFragments(SplitName(FINISH[..k], FINISH[k..], arguments))).text == ""
  {
    var chunks := SplitName(FINISH[..k], FINISH[k..], arguments);
    assert FINISH[..k] + FINISH[k..] == FINISH;
    CallsHoldFragments(chunks, limit);
    SplitCall(FINISH[..k], FINISH[k..], arguments);
    SplitHeard(FINISH[..k], FINISH[k..], arguments);
    PreviewReads(chunks);
  }

  /** All chunks of a stream of chat events, in order. */
  function AllChunks(events: seq<seq<Chunk>>): seq<Chunk> {
    if events == [] then [] else events[0] + AllChunks(events[1..])
  }

  lemma {:induction false} FragmentsConcat(a: seq<Chunk>, b: seq<Chunk>)
    ensures ChunkFragments(a + b) == ChunkFragments(a) + ChunkFragments(b)
  {
    if a == [] {
      assert a + b == b;
    } else {
      var first := if a[0].index.Some? then [ChunkFragment(a[0])] else [];
      assert (a + b)[1..] == a[1..] + b;
      FragmentsConcat(a[1..], b);
      assert first + (ChunkFragments(a[1..]) + ChunkFragments(b)) == (first + ChunkFragments(a[1..])) + ChunkFragments(b);
    }
  }

  /**
    Main result: from any interleaving of indexed chunks, however they are put into events, the previewed text is what
    the argument parser extracts from what is heard. If nothing else is heard these are the arguments of the authoritative
    call `j` exactly when its name is whole whenever some of them arrive; with whole names, when the name comes first.
   */
  method PreviewAll(events: seq<seq<Chunk>>, limit: nat, j: nat) returns (emitted: string)
    requires AllIndexed(AllChunks(events), limit)
    ensures emitted == S.Run(S.INIT, Heard(AllChunks(events))).text
    ensures var all, calls := AllChunks(events), AddChunks([], AllChunks(events), limit);
      && calls.Ok?
      && (OnlyHeard(all, j) ==> (Heard(all) == CallAt(calls.value, j).arguments <==> NamedWhole(all, j)))
      && (WholeNames(all) && OnlyFinish(all, j) ==>
            Heard(all) == Fed(all, j) && (Fed(all, j) == CallAt(calls.value, j).arguments <==> NameFirst(all, j)))
  {
    var stream := new NativeFinishSummaryStream();
    emitted := "";
    assert events[..0] == [];
    for n := 0 to |events|
      invariant fresh(stream) && fresh(stream.parser) && fresh(stream.parser.unicode)
      invariant stream.View().parser.Valid()
      invariant Outcome(stream.View(), emitted) == Run(FRESH, ChunkFragments(AllChunks(events[..n])))
    {
      AllChunksSnoc(events, n);
      FragmentsConcat(AllChunks(events[..n]), events[n]);
      RunConcat(FRESH, ChunkFragments(AllChunks(events[..n])), ChunkFragments(events[n]));
      var piece := stream.PushEvent(ChatDelta(events[n]));
      emitted := emitted + piece;
    }
    assert events[..|events|] == events;
    var all := AllChunks(events);
    PreviewReads(all);
    CallsHoldFragments(all, limit);
    FedIsAllIff(all, j);
    if OnlyHeard(all, j) {
      HeardIsAllIff(all, j);
    }
    if WholeNames(all) && OnlyFinish(all, j) {
      HeardIsFed(all, j);
    }
  }

  lemma {:induction false} AllChunksSnoc(events: seq<seq<Chunk>>, n: nat)
    requires n < |events|
    ensures AllChunks(events[..n + 1]) == AllChunks(events[..n]) + events[n]
    decreases n
  {
    if n == 0 {
      assert events[..1] == [events[0]] && [events[0]][1..] == [];
    } else {
      assert events[..n + 1][1..] == events[1..][..n] && events[..n][1..] == events[1..][..n - 1];
      AllChunksSnoc(events[1..], n - 1);
    }
  }

  /** So when those arguments are a JSON object whose summary has a meaning, the preview is that meaning. */
  lemma PreviewIsSummary(chunks: seq<Chunk>, j: nat, before: string, inside: string, ms: seq<D.Member>, rest: string, k: nat)
    requires WholeNames(chunks) && OnlyFinish(chunks, j) && NameFirst(chunks, j)
    requires ArgumentsAt(chunks, j) == D.ObjectText(before, inside, ms, rest)
    requires JsonBlank(before) && JsonBlank(inside) && D.AllMembers(ms)
    requires D.FirstSummary(ms, k) && J.AllValid(ms[k].value.pieces) && J.Meaning(ms[k].value.pieces).Some?
    ensures Run(FRESH, ChunkFragments(chunks)).text == J.Meaning(ms[k].value.pieces).value
  {
    PreviewFollows(chunks, j);
    FedIsAllIff(chunks, j);
    D.SummaryRoundTrip(before, inside, ms, rest, k);
  }
}
