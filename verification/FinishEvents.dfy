/** The finish summary, by events. */
module FinishEvents {
  // Over the events of any provider (core/agent/src/model_stream.rs).

  import opened Wrappers
  import opened Text
  import opened FinishSummary
  import S = SummaryArguments
  import D = SummaryDocuments
  import J = JsonText

  // ----- what is said by the events -----

  /** The last name that the chunks of a Chat event give to a call. */
  function ChunkNames(chunks: seq<Chunk>, key: string): Option<string> {
    if chunks == [] then None
    else
      var last := chunks[|chunks| - 1];
      if last.index.Some? && Decimal(last.index.value) == key && last.name.Some? && last.name.value != "" then last.name
      else ChunkNames(chunks[..|chunks| - 1], key)
  }

  /** The name that an event gives to a call: an item is announced once, with its whole name, if it is a function call. */
  function NamedBy(e: Event, key: string): Option<string> {
    match e
    case ChatDelta(chunks) => ChunkNames(chunks, key)
    case ItemAdded(isFunctionCall, id, name) => if isFunctionCall && id == Some(key) then name else None
    case _ => None
  }

  function LastNamed(es: seq<Event>, key: string): Option<string> {
    if es == [] then None
    else
      var named := NamedBy(es[|es| - 1], key);
      if named.Some? then named else LastNamed(es[..|es| - 1], key)
  }

  /** The arguments in the chunks of a Chat event behind `es` that belong to a call named `task_finished` by then. */
  function HeardChunks(es: seq<Event>, chunks: seq<Chunk>): string {
    if chunks == [] then ""
    else
      var last := chunks[|chunks| - 1];
      HeardChunks(es, chunks[..|chunks| - 1])
      + if last.index.None? || last.arguments.None? then ""
        else
          var key := Decimal(last.index.value);
          var named := ChunkNames(chunks, key);
          if (if named.Some? then named else LastNamed(es, key)) == Some("task_finished") then last.arguments.value else ""
  }

  /** What the event behind `es` lets the preview hear. */
  function HeardFrom(es: seq<Event>, e: Event): string {
    match e
    case ChatDelta(chunks) => HeardChunks(es, chunks)
    case ArgumentsDelta(itemId, delta) =>
      if itemId.Some? && delta.Some? && LastNamed(es, itemId.value) == Some("task_finished") then delta.value else ""
    case _ => ""
  }

  function HeardEvents(es: seq<Event>): string {
    if es == [] then "" else HeardEvents(es[..|es| - 1]) + HeardFrom(es[..|es| - 1], es[|es| - 1])
  }

  // ----- the same, said by fragments -----

  function FragmentNames(xs: seq<Fragment>, key: string): Option<string> {
    if xs == [] then None
    else
      var last := xs[|xs| - 1];
      if last.key == key && last.name.Some? then last.name else FragmentNames(xs[..|xs| - 1], key)
  }

  function HeardFragments(xs: seq<Fragment>): string {
    if xs == [] then ""
    else
      var last := xs[|xs| - 1];
      HeardFragments(xs[..|xs| - 1]) + if FragmentNames(xs, last.key) == Some("task_finished") then last.arguments else ""
  }

  ghost predicate Knows(f: Finder, xs: seq<Fragment>) {
    forall key :: NameOf(f.calls, key) == FragmentNames(xs, key)
  }

  lemma StepNames(f: Finder, xs: seq<Fragment>, x: Fragment)
    requires f.parser.Valid() && Knows(f, xs)
    ensures Knows(Step(f, x).finder, xs + [x])
  {
    assert (xs + [x])[..|xs|] == xs;
    forall key ensures NameOf(Step(f, x).finder.calls, key) == FragmentNames(xs + [x], key) {
      if x.name.Some? {
        NameAfterSet(f.calls, x.key, x.name.value, key);
      }
    }
  }

  lemma StepHears(before: Outcome, xs: seq<Fragment>, x: Fragment)
    requires before.finder.parser.Valid() && Knows(before.finder, xs)
    requires S.Outcome(before.finder.parser, before.text) == S.Run(S.INIT, HeardFragments(xs))
    ensures var after := Step(before.finder, x);
      S.Outcome(after.finder.parser, before.text + after.text) == S.Run(S.INIT, HeardFragments(xs + [x]))
  {
    assert (xs + [x])[..|xs|] == xs;
    StepNames(before.finder, xs, x);
    assert NameOf(Step(before.finder, x).finder.calls, x.key) == FragmentNames(xs + [x], x.key);
    assert before.text + "" == before.text && HeardFragments(xs) + "" == HeardFragments(xs);
    S.RunConcat(S.INIT, HeardFragments(xs), x.arguments);
  }

  lemma {:induction false} FragmentsHeard(xs: seq<Fragment>)
    ensures var r := Run(FRESH, xs);
      Knows(r.finder, xs) && S.Outcome(r.finder.parser, r.text) == S.Run(S.INIT, HeardFragments(xs))
    decreases |xs|
  {
    if xs != [] {
      var init, last := xs[..|xs| - 1], xs[|xs| - 1];
      FragmentsHeard(init);
      assert xs == init + [last];
      RunSnoc(FRESH, init, last);
      StepNames(Run(FRESH, init).finder, init, last);
      StepHears(Run(FRESH, init), init, last);
    }
  }

  // ----- both agree -----

  function AllFragments(es: seq<Event>): seq<Fragment> {
    if es == [] then [] else AllFragments(es[..|es| - 1]) + EventFragments(es[|es| - 1])
  }

  lemma FragmentStep(xs: seq<Fragment>, x: Fragment, key: string)
    ensures FragmentNames(xs + [x], key) == if x.key == key && x.name.Some? then x.name else FragmentNames(xs, key)
    ensures HeardFragments(xs + [x]) ==
      HeardFragments(xs) + if FragmentNames(xs + [x], x.key) == Some("task_finished") then x.arguments else ""
  {
    assert (xs + [x])[..|xs|] == xs;
  }

  /** The fragments of the chunks of a Chat event behind those of earlier events. */
  lemma {:induction false} ChunksAgree(es: seq<Event>, xs: seq<Fragment>, chunks: seq<Chunk>, key: string)
    requires forall k :: FragmentNames(xs, k) == LastNamed(es, k)
    ensures var named := ChunkNames(chunks, key);
      FragmentNames(xs + ChunkFragments(chunks), key) == if named.Some? then named else LastNamed(es, key)
    ensures HeardFragments(xs + ChunkFragments(chunks)) == HeardFragments(xs) + HeardChunks(es, chunks)
    decreases |chunks|
  {
    if chunks == [] {
      assert xs + [] == xs && HeardFragments(xs) + "" == HeardFragments(xs);
    } else {
      var init, last := chunks[..|chunks| - 1], chunks[|chunks| - 1];
      var before := xs + ChunkFragments(init);
      assert chunks == init + [last];
      FragmentsSnoc(init, last);
      ChunksAgree(es, xs, init, key);
      if last.index.None? {
        assert ChunkFragments(init) + [] == ChunkFragments(init);
        assert HeardChunks(es, init) + "" == HeardChunks(es, init);
      } else {
        var x := ChunkFragment(last);
        ChunksAgree(es, xs, init, x.key);
        FragmentStep(before, x, key);
        FragmentStep(before, x, x.key);
        assert xs + ChunkFragments(chunks) == before + [x];
        LastChunkHeard(es, chunks);
        Associate(HeardFragments(xs), HeardChunks(es, init), LastHeard(es, chunks));
      }
    }
  }

  /** What the last chunk lets the preview hear. */
  function LastHeard(es: seq<Event>, chunks: seq<Chunk>): string
    requires chunks != [] && chunks[|chunks| - 1].index.Some?
  {
    var last := chunks[|chunks| - 1];
    var key := Decimal(last.index.value);
    var named := ChunkNames(chunks, key);
    if (if named.Some? then named else LastNamed(es, key)) == Some("task_finished") then OrEmpty(last.arguments) else ""
  }

  lemma LastChunkHeard(es: seq<Event>, chunks: seq<Chunk>)
    requires chunks != [] && chunks[|chunks| - 1].index.Some?
    ensures HeardChunks(es, chunks) == HeardChunks(es, chunks[..|chunks| - 1]) + LastHeard(es, chunks)
  {
  }

  lemma Associate(a: string, b: string, c: string)
    ensures (a + b) + c == a + (b + c)
  {
  }

  lemma EventAgrees(es: seq<Event>, xs: seq<Fragment>, e: Event, key: string)
    requires forall k :: FragmentNames(xs, k) == LastNamed(es, k)
    ensures FragmentNames(xs + EventFragments(e), key) == LastNamed(es + [e], key)
    ensures HeardFragments(xs + EventFragments(e)) == HeardFragments(xs) + HeardFrom(es, e)
  {
    assert (es + [e])[..|es|] == es;
    assert xs + [] == xs && HeardFragments(xs) + "" == HeardFragments(xs);
    match e {
      case ChatDelta(chunks) => ChunksAgree(es, xs, chunks, key);
      case ItemAdded(isFunctionCall, id, name) =>
        if isFunctionCall && id.Some? && name.Some? {
          FragmentStep(xs, Fragment(id.value, name, ""), key);
        }
      case ArgumentsDelta(itemId, delta) =>
        if itemId.Some? && delta.Some? {
          FragmentStep(xs, Fragment(itemId.value, None, delta.value), key);
          FragmentStep(xs, Fragment(itemId.value, None, delta.value), itemId.value);
        }
      case OtherEvent =>
    }
  }

  ghost predicate Agree(es: seq<Event>, xs: seq<Fragment>) {
    && (forall key :: FragmentNames(xs, key) == LastNamed(es, key))
    && HeardFragments(xs) == HeardEvents(es)
  }

  lemma AgreeStep(es: seq<Event>, xs: seq<Fragment>, e: Event)
    requires Agree(es, xs)
    ensures Agree(es + [e], xs + EventFragments(e))
  {
    EventAgrees(es, xs, e, "");
    HeardStep(es, e, "");
    forall key ensures FragmentNames(xs + EventFragments(e), key) == LastNamed(es + [e], key) {
      EventAgrees(es, xs, e, key);
    }
  }

  lemma {:induction false} EventsAgree(es: seq<Event>)
    ensures Agree(es, AllFragments(es))
    decreases |es|
  {
    if es != [] {
      var init, last := es[..|es| - 1], es[|es| - 1];
      EventsAgree(init);
      AgreeStep(init, AllFragments(init), last);
      assert es == init + [last];
    }
  }

  lemma HeardStep(es: seq<Event>, e: Event, key: string)
    ensures HeardEvents(es + [e]) == HeardEvents(es) + HeardFrom(es, e)
    ensures LastNamed(es + [e], key) == if NamedBy(e, key).Some? then NamedBy(e, key) else LastNamed(es, key)
  {
    assert (es + [e])[..|es|] == es;
  }

  // ----- main results -----

  /**
    Main result: from any sequence of events, of Chat or of Responses or of both, the preview emits what the argument parser
    extracts from the arguments that are heard: those of calls last named `task_finished`, in order.
   */
  method PreviewEvents(events: seq<Event>) returns (emitted: string)
    ensures emitted == S.Run(S.INIT, HeardEvents(events)).text
  {
    var stream := new NativeFinishSummaryStream();
    emitted := "";
    assert events[..0] == [];
    for n := 0 to |events|
      invariant fresh(stream) && fresh(stream.parser) && fresh(stream.parser.unicode)
      invariant stream.View().parser.Valid()
      invariant Outcome(stream.View(), emitted) == Run(FRESH, AllFragments(events[..n]))
    {
      assert events[..n + 1][..n] == events[..n];
      RunConcat(FRESH, AllFragments(events[..n]), EventFragments(events[n]));
      var piece := stream.PushEvent(events[n]);
      emitted := emitted + piece;
    }
    assert events[..|events|] == events;
    EventsAgree(events);
    FragmentsHeard(AllFragments(events));
  }

  /** The deltas of one item, in order. */
  function Deltas(id: string, texts: seq<string>): seq<Event> {
    if texts == [] then [] else Deltas(id, texts[..|texts| - 1]) + [ArgumentsDelta(Some(id), Some(texts[|texts| - 1]))]
  }

  /** A Responses stream: an item is announced, and its arguments follow. */
  function Item(id: string, name: string, texts: seq<string>): seq<Event> {
    [ItemAdded(true, Some(id), Some(name))] + Deltas(id, texts)
  }

  lemma ItemGrows(before: seq<Event>, id: string, name: string, texts: seq<string>)
    requires texts != []
    ensures before + Item(id, name, texts) ==
      (before + Item(id, name, texts[..|texts| - 1])) + [ArgumentsDelta(Some(id), Some(texts[|texts| - 1]))]
  {
  }

  lemma DeltaHeard(es: seq<Event>, id: string, name: string, text: string)
    requires LastNamed(es, id) == Some(name)
    ensures var more := es + [ArgumentsDelta(Some(id), Some(text))];
      && LastNamed(more, id) == Some(name)
      && HeardEvents(more) == HeardEvents(es) + if name == "task_finished" then text else ""
  {
    HeardStep(es, ArgumentsDelta(Some(id), Some(text)), id);
  }

  lemma JoinInit(texts: seq<string>)
    requires texts != []
    ensures Join(texts) == Join(texts[..|texts| - 1]) + texts[|texts| - 1]
  {
    assert texts == texts[..|texts| - 1] + [texts[|texts| - 1]];
    JoinSnoc(texts[..|texts| - 1], texts[|texts| - 1]);
  }

  /** Behind whatever came before, of an item named `task_finished` all arguments are heard, and of any other item none. */
  lemma {:induction false} ItemHeard(before: seq<Event>, id: string, name: string, texts: seq<string>)
    ensures HeardEvents(before + Item(id, name, texts)) ==
      HeardEvents(before) + if name == "task_finished" then Join(texts) else ""
    ensures LastNamed(before + Item(id, name, texts), id) == Some(name)
    decreases |texts|
  {
    if texts == [] {
      assert before + Item(id, name, []) == before + [ItemAdded(true, Some(id), Some(name))];
      HeardStep(before, ItemAdded(true, Some(id), Some(name)), id);
    } else {
      var init, last := texts[..|texts| - 1], texts[|texts| - 1];
      ItemHeard(before, id, name, init);
      ItemGrows(before, id, name, texts);
      DeltaHeard(before + Item(id, name, init), id, name, last);
      JoinInit(texts);
      Associate(HeardEvents(before), Join(init), last);
      assert HeardEvents(before) + "" + "" == HeardEvents(before) + "";
    }
  }

  /** So when the arguments of the finish are a JSON object whose summary has a meaning, the preview is that meaning. */
  lemma ItemIsSummary(id: string, texts: seq<string>, before: string, inside: string, ms: seq<D.Member>, rest: string, k: nat)
    requires Join(texts) == D.ObjectText(before, inside, ms, rest)
    requires JsonBlank(before) && JsonBlank(inside) && D.AllMembers(ms)
    requires D.FirstSummary(ms, k) && J.AllValid(ms[k].value.pieces) && J.Meaning(ms[k].value.pieces).Some?
    ensures S.Run(S.INIT, HeardEvents(Item(id, "task_finished", texts))).text == J.Meaning(ms[k].value.pieces).value
  {
    ItemHeard([], id, "task_finished", texts);
    assert [] + Item(id, "task_finished", texts) == Item(id, "task_finished", texts);
    assert "" + Join(texts) == Join(texts);
    D.SummaryRoundTrip(before, inside, ms, rest, k);
  }
}
