/** The XML filter does not see chunk boundaries. */
module XmlChunks {
  import opened Wrappers
  import opened Text
  import opened XmlStream

  lemma {:induction false} FindStable(p: string, q: string, c: char)
    requires Find(p, c).Some?
    ensures Find(p + q, c) == Find(p, c)
  {
    if p[0] != c {
      FindStable(p[1..], q, c);
      assert (p + q)[1..] == p[1..] + q;
    }
  }

  lemma PrefixStable(k: string, p: string, q: string)
    ensures k <= p ==> k <= p + q
    ensures !(k <= p) && !(p <= k) ==> !(k <= p + q) && !(p + q <= k)
  {
    if p + q <= k {
      assert p == (p + q)[..|p|] == k[..|p|];
    }
    if k <= p + q && |k| <= |p| {
      assert k == (p + q)[..|k|] == p[..|k|];
    }
    if k <= p + q && |k| > |p| {
      assert p == (p + q)[..|p|] == k[..|p|];
    }
  }

  lemma CdataStable(x: Xml, q: string)
    requires x.pending != "" && x.cdata && Decide(x) != Wait
    ensures Decide(More(x, q)) == Decide(x)
  {
    assert (x.pending + q)[0] == x.pending[0];
    PrefixStable(CDATA_CLOSE, x.pending, q);
  }

  lemma OpenStable(x: Xml, q: string)
    requires !x.cdata && CDATA_OPEN <= x.pending && Decide(x) != Wait
    ensures Decide(More(x, q)) == Decide(x)
  {
    assert (x.pending + q)[0] == x.pending[0] == CDATA_OPEN[0];
    PrefixStable(CDATA_OPEN, x.pending, q);
    assert |x.pending + q| >= |x.pending|;
  }

  lemma TagStable(x: Xml, q: string)
    requires x.pending != "" && !x.cdata && x.pending[0] == '<' && Decide(x) != Wait && !(CDATA_OPEN <= x.pending)
    ensures Decide(More(x, q)) == Decide(x)
  {
    var p := x.pending;
    var end := Find(p, '>').value;
    PrefixStable(CDATA_OPEN, p, q);
    FindStable(p, q, '>');
    assert (p + q)[0] == p[0];
    assert (p + q)[1..end] == p[1..end];
  }

  lemma ReferenceStable(x: Xml, q: string)
    requires x.pending != "" && !x.cdata && x.pending[0] == '&' && Target(x.stack) && Decide(x) != Wait
    ensures Decide(More(x, q)) == Decide(x)
  {
    var p := x.pending;
    var end := Find(p, ';').value;
    FindStable(p, q, ';');
    assert (p + q)[0] == p[0];
    assert (p + q)[..end + 1] == p[..end + 1];
  }

  /** Text that arrives later never changes a decision; it can only end a wait. */
  lemma DecideStable(x: Xml, q: string)
    requires x.pending != "" && Decide(x) != Wait
    ensures Decide(More(x, q)) == Decide(x)
  {
    var p := x.pending;
    if x.cdata {
      CdataStable(x, q);
    } else if p[0] == '<' {
      if CDATA_OPEN <= p {
        OpenStable(x, q);
      } else {
        TagStable(x, q);
      }
    } else if Target(x.stack) && p[0] == '&' {
      ReferenceStable(x, q);
    } else {
      assert (p + q)[0] == p[0];
    }
  }

  /** Draining in two goes. */
  lemma {:induction false} DrainMore(x: Xml, q: string)
    ensures var r := Drain(x);
      Drain(More(x, q)) == if r.error.Some? then r else Emit(r.text, Drain(More(r.xml, q)))
    decreases |x.pending|
  {
    if x.pending == "" || Decide(x).Wait? {
      assert "" + Drain(More(x, q)).text == Drain(More(x, q)).text;
    } else {
      var d := Decide(x);
      DecideStable(x, q);
      if d.Advance? {
        var y := After(x, d);
        assert (x.pending + q)[d.width..] == y.pending + q;
        DrainMore(y, q);
        EmitTwice(d.text, Drain(y).text, Drain(More(Drain(y).xml, q)));
      }
    }
  }

  /** What draining leaves held back stays held back until more text arrives. */
  predicate Settled(x: Xml) {
    Drain(x) == Drained(x, "", None)
  }

  lemma {:induction false} DrainSettles(x: Xml)
    ensures Drain(x).error.None? ==> Settled(Drain(x).xml)
    decreases |x.pending|
  {
    if x.pending != "" && Decide(x).Advance? {
      DrainSettles(After(x, Decide(x)));
    }
  }

  /** Holds of a fresh object and after every push. */
  predicate Sound(s: Stream) {
    !s.failed ==> s.totalBytes <= MAX_EVENT_BYTES && Settled(s.xml)
  }

  lemma PushKeepsSound(s: Stream, text: string)
    requires Sound(s)
    ensures Sound(PushSpec(s, text).stream)
  {
    DrainSettles(More(s.xml, text));
  }

  datatype AllPushed = AllPushed(stream: Stream, text: string, errors: seq<XmlError>)

  function Errors(e: Option<XmlError>): seq<XmlError> {
    if e.Some? then [e.value] else []
  }

  /** One push after the other: everything emitted, and the errors of the pushes that return one. */
  function PushAll(s: Stream, chunks: seq<string>): AllPushed
    decreases |chunks|
  {
    if chunks == [] then AllPushed(s, "", [])
    else
      var first := PushSpec(s, chunks[0]);
      var rest := PushAll(first.stream, chunks[1..]);
      AllPushed(rest.stream, first.text + rest.text, Errors(first.error) + rest.errors)
  }

  /**
    Agreement with a single push of `text`. Beyond the byte limit only the failure is the same, because a single
    push then rejects the text before reading any of it.
   */
  predicate Agree(all: AllPushed, s: Stream, text: string) {
    var one := PushSpec(s, text);
    && all.stream.failed == one.stream.failed
    && |all.errors| == |Errors(one.error)|
    && (s.totalBytes + Utf8Len(text) <= MAX_EVENT_BYTES ==>
          && all.text == one.text
          && all.errors == Errors(one.error)
          && all.stream.xml == one.stream.xml
          && (!one.stream.failed ==> all.stream == one.stream))
  }

  lemma PushTwice(s: Stream, a: string, b: string)
    requires Sound(s)
    ensures var first := PushSpec(s, a);
      var second := PushSpec(first.stream, b);
      Agree(AllPushed(second.stream, first.text + second.text, Errors(first.error) + Errors(second.error)), s, a + b)
  {
    Utf8LenConcat(a, b);
    if !s.failed && s.totalBytes + Utf8Len(a) + Utf8Len(b) <= MAX_EVENT_BYTES {
      DrainTwice(s.xml, a, b);
    }
    var first := PushSpec(s, a);
    assert first.text + "" == first.text;
  }

  lemma DrainTwice(x: Xml, a: string, b: string)
    ensures var r := Drain(More(x, a));
      Drain(More(x, a + b)) == if r.error.Some? then r else Emit(r.text, Drain(More(r.xml, b)))
  {
    MoreTwice(x, a, b);
    DrainMore(More(x, a), b);
  }

  lemma MoreTwice(x: Xml, a: string, b: string)
    ensures More(More(x, a), b) == More(x, a + b)
  {
    assert (x.pending + a) + b == x.pending + (a + b);
  }

  lemma {:induction false} ChunksAgree(s: Stream, chunks: seq<string>)
    requires Sound(s)
    ensures Agree(PushAll(s, chunks), s, Join(chunks))
    decreases |chunks|
  {
    if chunks == [] {
      assert s.xml.pending + "" == s.xml.pending;
    } else {
      var first := PushSpec(s, chunks[0]);
      PushKeepsSound(s, chunks[0]);
      ChunksAgree(first.stream, chunks[1..]);
      PushTwice(s, chunks[0], Join(chunks[1..]));
      Utf8LenConcat(chunks[0], Join(chunks[1..]));
    }
  }

  /**
    Main result: for every chunking of every text, a fresh filter fails exactly when a single push fails, with one
    push returning the error; and up to the byte limit it emits the same text, reports the same error and is left
    with the same stack, CDATA flag and held-back text.
   */
  lemma FreshChunksAgree(chunks: seq<string>)
    ensures Agree(PushAll(FRESH, chunks), FRESH, Join(chunks))
  {
    ChunksAgree(FRESH, chunks);
  }

  /** Feeding a filter object chunk by chunk. */
  method Feed(chunks: seq<string>) returns (emitted: string, errors: seq<XmlError>)
    ensures Utf8Len(Join(chunks)) <= MAX_EVENT_BYTES ==>
      emitted == PushSpec(FRESH, Join(chunks)).text && errors == Errors(PushSpec(FRESH, Join(chunks)).error)
    ensures |errors| == |Errors(PushSpec(FRESH, Join(chunks)).error)|
  {
    var stream := new XmlPublicTextStream();
    emitted, errors := "", [];
    for i := 0 to |chunks|
      invariant fresh(stream)
      invariant Joined(emitted, errors, PushAll(stream.View(), chunks[i..])) == PushAll(FRESH, chunks)
    {
      ghost var later := PushAll(stream.View(), chunks[i..]);
      assert chunks[i..][1..] == chunks[i + 1..];
      var piece, error := stream.Push(chunks[i]);
      JoinedTwice(emitted, errors, piece, Errors(error), PushAll(stream.View(), chunks[i + 1..]));
      emitted, errors := emitted + piece, errors + Errors(error);
    }
    assert chunks[|chunks|..] == [];
    FreshChunksAgree(chunks);
  }

  function Joined(text: string, errors: seq<XmlError>, r: AllPushed): AllPushed {
    AllPushed(r.stream, text + r.text, errors + r.errors)
  }

  lemma JoinedTwice(a: string, e: seq<XmlError>, b: string, f: seq<XmlError>, r: AllPushed)
    ensures Joined(a, e, Joined(b, f, r)) == Joined(a + b, e + f, r)
  {
    assert a + (b + r.text) == (a + b) + r.text;
    assert e + (f + r.errors) == (e + f) + r.errors;
  }
}
