/** The whole event stream. */
module SseReference {
  // The decoder against a whole-stream reading of the format (WHATWG HTML sections 9.2.5 and 9.2.6, for the data field):
  // split into lines, group the lines into events at blank lines, join the data fields of each event.

  import opened Wrappers
  import opened Text
  import opened SseStream

  type Line = Bytes

  // ----- the reference -----

  function FirstBreak(s: Bytes): (r: Option<nat>)
    ensures r.Some? ==> r.value < |s| && s[r.value] in {13, 10} && NoBreak(s[..r.value])
    ensures r.None? ==> NoBreak(s)
  {
    if s == [] then None
    else if s[0] in {13, 10} then Some(0)
    else
      var r := FirstBreak(s[1..]);
      if r.None? then None else Some(r.value + 1)
  }

  predicate NoBreak(s: Bytes) {
    forall i :: 0 <= i < |s| ==> s[i] !in {13, 10}
  }

  /** A line ends with CR LF, with LF or with CR. */
  function BreakWidth(s: Bytes, i: nat): (n: nat)
    requires i < |s|
    ensures 1 <= n <= |s| - i
  {
    if s[i] == 13 && i + 1 < |s| && s[i + 1] == 10 then 2 else 1
  }

  /** The terminated lines of a stream and the unterminated one at its end. */
  datatype Split = Split(lines: seq<Line>, rest: Line)

  function Lines(s: Bytes): Split
    decreases |s|
  {
    match FirstBreak(s)
    case None => Split([], s)
    case Some(i) =>
      var later := Lines(s[i + BreakWidth(s, i)..]);
      Split([s[..i]] + later.lines, later.rest)
  }

  /** The lines grouped by the blank lines between them; the last group is still open. */
  datatype Groups = Groups(closed: seq<seq<Line>>, open: seq<Line>)

  function Group(lines: seq<Line>): Groups {
    if lines == [] then Groups([], [])
    else
      var later := Group(lines[1..]);
      if lines[0] == [] then Groups([[]] + later.closed, later.open)
      else if later.closed == [] then Groups([], [lines[0]] + later.open)
      else Groups([[lines[0]] + later.closed[0]] + later.closed[1..], later.open)
  }

  /** The bytes of `data:`. */
  const DATA: Bytes := [0x64, 0x61, 0x74, 0x61, 0x3A]

  /** What one line adds to the data of its event: the value of a data field without one leading space, and a line feed. */
  function LineData(line: Line): Bytes {
    if !(DATA <= line) then []
    else if |line| > 5 && line[5] == 0x20 then line[6..] + [0x0A]
    else line[5..] + [0x0A]
  }

  /** The text is the marker of the end with nothing but whitespace around it. */
  predicate IsDone(text: string) {
    exists i: nat, j: nat :: i <= |text| && j <= |text| && IsCore(text, i, j) && text[i..j] == "[DONE]"
  }

  /** What the data of an event is. */
  function PayloadOf(p: Parsers, data: Bytes): Payload {
    var text := p.utf8(data);
    if text.None? then Malformed(InvalidUtf8)
    else if IsDone(text.value) then Terminator
    else if p.json(text.value) then Json
    else Malformed(InvalidEvent)
  }

  /** The data of an event. */
  function Data(lines: seq<Line>): Bytes {
    if lines == [] then [] else LineData(lines[0]) + Data(lines[1..])
  }

  /** A line that, together with the data before it, exceeds the bound. */
  predicate Overflows(lines: seq<Line>, before: Bytes) {
    lines != [] &&
    (|lines[0]| + |before| > 4 * 1024 * 1024 || Overflows(lines[1..], before + LineData(lines[0])))
  }

  datatype Reading = Reading(events: seq<Bytes>, errors: seq<SseError>)

  /** Events are read until the terminator or the first error; an event without data is passed over. */
  function Read(p: Parsers, closed: seq<seq<Line>>, open: seq<Line>): Reading {
    if closed == [] then Reading([], if Overflows(open, []) then [EventTooLarge] else [])
    else if Overflows(closed[0], []) then Reading([], [EventTooLarge])
    else
      var data := Data(closed[0]);
      if data == [] then Read(p, closed[1..], open)
      else
        match PayloadOf(p, data)
        case Terminator => Reading([], [])
        case Malformed(error) => Reading([], [error])
        case Json =>
          var later := Read(p, closed[1..], open);
          Reading([data] + later.events, later.errors)
  }

  function Reference(p: Parsers, stream: Bytes): Reading {
    var split := Lines(stream);
    var groups := Group(split.lines);
    Read(p, groups.closed, groups.open + [split.rest])
  }

  // ----- line by line, between the two -----

  /** Reading with `data` already collected for the current event. */
  function ReadLines(p: Parsers, lines: seq<Line>, rest: Line, data: Bytes): Reading
    decreases |lines|
  {
    if lines == [] then Reading([], if |rest| + |data| > MAX_SSE_EVENT_BYTES then [EventTooLarge] else [])
    else if |lines[0]| + |data| > MAX_SSE_EVENT_BYTES then Reading([], [EventTooLarge])
    else if lines[0] != [] then ReadLines(p, lines[1..], rest, data + LineData(lines[0]))
    else if data == [] then ReadLines(p, lines[1..], rest, [])
    else
      match PayloadOf(p, data)
      case Terminator => Reading([], [])
      case Malformed(error) => Reading([], [error])
      case Json =>
        var later := ReadLines(p, lines[1..], rest, []);
        Reading([data] + later.events, later.errors)
  }

  lemma PayloadAgrees(p: Parsers, data: Bytes)
    ensures Classify(p, data) == PayloadOf(p, data)
  {
    if p.utf8(data).Some? {
      TrimIff(p.utf8(data).value, "[DONE]");
    }
  }

  lemma LineDataAgrees(line: Line)
    ensures DATA == DATA_FIELD
    ensures LineData(line) == if DATA_FIELD <= line then FieldValue(line) + [LF] else []
  {
    if DATA <= line && |line| > 5 && line[5] == 0x20 {
      assert line[5..][1..] == line[6..];
    }
  }

  /** The one space behind the colon of a data field is optional. */
  lemma OptionalSpace(value: Bytes)
    requires value == [] || value[0] != 0x20
    ensures FieldValue(DATA + value) == value && FieldValue(DATA + [0x20] + value) == value
    ensures LineData(DATA + value) == LineData(DATA + [0x20] + value) == value + [0x0A]
  {
    var a, b := DATA + value, DATA + [0x20] + value;
    assert a[5..] == value && b[5..] == [0x20] + value && b[5..][1..] == value && b[6..] == value;
  }

  // ----- the decoder reads line by line -----

  function ReadingOf(r: Outcome): Reading {
    Reading(r.events, r.errors)
  }

  lemma {:induction false} RunStopped(p: Parsers, m: Machine, s: Bytes)
    requires m.stopped
    ensures Run(p, m, s) == Quiet(m)
  {
  }

  /** The bytes of a line collect until they exceed the bound. */
  lemma {:induction false} RunPlain(p: Parsers, m: Machine, s: Bytes)
    requires !m.stopped && !m.pendingCr && NoBreak(s) && HeldBytes(m) <= MAX_SSE_EVENT_BYTES
    ensures var r := Run(p, m, s);
      if |s| + HeldBytes(m) > MAX_SSE_EVENT_BYTES then ReadingOf(r) == Reading([], [EventTooLarge]) && r.machine.stopped
      else r == Quiet(m.(line := m.line + s))
    decreases |s|
  {
    if s == [] {
      assert m.line + [] == m.line;
    } else {
      var r := Step(p, m, s[0]);
      if HeldBytes(m) >= MAX_SSE_EVENT_BYTES {
        RunStopped(p, r.machine, s[1..]);
        BehindQuiet(r.machine, r);
      } else {
        var m1 := m.(line := m.line + [s[0]]);
        RunPlain(p, m1, s[1..]);
        BehindQuiet(m1, Run(p, m1, s[1..]));
        assert m1.line + s[1..] == m.line + s;
      }
    }
  }

  /** The break that ends a line, in any of its three forms. */
  lemma RunBreak(p: Parsers, m: Machine, s: Bytes)
    requires !m.stopped && !m.pendingCr && s != [] && s[0] in {CR, LF}
    ensures var r := FinishLine(p, m);
      var later := Run(p, r.machine, s[BreakWidth(s, 0)..]);
      ReadingOf(Run(p, m, s)) == Reading(r.events + later.events, r.errors + later.errors)
  {
    var r := FinishLine(p, m);
    var r1 := Step(p, m, s[0]);
    assert m.(pendingCr := false) == m;
    if r.machine.stopped {
      RunStopped(p, r.machine, s[BreakWidth(s, 0)..]);
      RunStopped(p, r1.machine, s[1..]);
    } else if s[0] == LF {
      assert r1 == r;
    } else if |s| > 1 && s[1] == LF {
      var t := s[1..];
      assert t[1..] == s[2..];
      assert Step(p, r1.machine, LF) == Quiet(r.machine);
      BehindQuiet(r.machine, Run(p, r.machine, s[2..]));
    } else {
      assert r1.machine.(pendingCr := false) == r.machine;
    }
  }

  lemma FinishLineReads(p: Parsers, m: Machine)
    requires !m.stopped && !m.pendingCr && HeldBytes(m) <= MAX_SSE_EVENT_BYTES
    ensures var r := FinishLine(p, m);
      && r.machine.line == [] && !r.machine.pendingCr && HeldBytes(r.machine) <= MAX_SSE_EVENT_BYTES
      && (!r.machine.stopped && m.line != [] ==> r.machine.data == m.data + LineData(m.line))
      && (!r.machine.stopped && m.line == [] ==> r.machine.data == [])
  {
    LineDataAgrees(m.line);
    PayloadAgrees(p, m.data);
    if m.line != [] && DATA_FIELD <= m.line {
      assert m.data + FieldValue(m.line) + [LF] == m.data + LineData(m.line);
    }
    assert m.data + [] == m.data;
  }

  lemma LineTooLong(p: Parsers, m: Machine, line: Line, tail: Bytes)
    requires !m.stopped && !m.pendingCr && m.line == [] && |m.data| <= MAX_SSE_EVENT_BYTES
    requires NoBreak(line) && |line| + |m.data| > MAX_SSE_EVENT_BYTES
    ensures ReadingOf(Run(p, m, line + tail)) == Reading([], [EventTooLarge])
  {
    RunPlain(p, m, line);
    RunConcat(p, m, line, tail);
    assert [] + line == line;
    RunStopped(p, Run(p, m, line).machine, tail);
  }

  lemma LineFits(p: Parsers, m: Machine, line: Line, tail: Bytes)
    requires !m.stopped && !m.pendingCr && m.line == [] && |m.data| <= MAX_SSE_EVENT_BYTES
    requires NoBreak(line) && |line| + |m.data| <= MAX_SSE_EVENT_BYTES
    ensures ReadingOf(Run(p, m, line + tail)) == ReadingOf(Run(p, m.(line := line), tail))
  {
    RunPlain(p, m, line);
    RunConcat(p, m, line, tail);
    assert [] + line == line;
    BehindQuiet(m.(line := line), Run(p, m.(line := line), tail));
  }

  lemma {:induction false} RunReadsLines(p: Parsers, m: Machine, s: Bytes)
    requires !m.stopped && !m.pendingCr && m.line == [] && |m.data| <= MAX_SSE_EVENT_BYTES
    ensures ReadingOf(Run(p, m, s)) == ReadLines(p, Lines(s).lines, Lines(s).rest, m.data)
    decreases |s|, 0
  {
    var first := FirstBreak(s);
    if first.None? {
      RunPlain(p, m, s);
    } else {
      var i := first.value;
      var line, tail := s[..i], s[i..];
      var rest := s[i + BreakWidth(s, i)..];
      assert line + tail == s;
      if |line| + |m.data| > MAX_SSE_EVENT_BYTES {
        LineTooLong(p, m, line, tail);
      } else {
        LineFits(p, m, line, tail);
        RunLine(p, m.(line := line), tail, rest);
      }
    }
  }

  /** A complete line and everything behind it. */
  lemma {:induction false} RunLine(p: Parsers, m: Machine, tail: Bytes, rest: Bytes)
    requires !m.stopped && !m.pendingCr && HeldBytes(m) <= MAX_SSE_EVENT_BYTES
    requires tail != [] && tail[0] in {CR, LF} && rest == tail[BreakWidth(tail, 0)..]
    ensures ReadingOf(Run(p, m, tail)) == ReadLines(p, [m.line] + Lines(rest).lines, Lines(rest).rest, m.data)
    decreases |rest|, 1
  {
    var r := FinishLine(p, m);
    PayloadAgrees(p, m.data);
    RunBreak(p, m, tail);
    FinishLineReads(p, m);
    assert ([m.line] + Lines(rest).lines)[1..] == Lines(rest).lines;
    if r.machine.stopped {
      RunStopped(p, r.machine, rest);
    } else {
      RunReadsLines(p, r.machine, rest);
      BehindQuiet(r.machine, Run(p, r.machine, rest));
    }
  }

  // ----- reading line by line is reading group by group -----

  /** Reading a group that is partly collected: its remaining lines come first. */
  function ReadFrom(p: Parsers, closed: seq<seq<Line>>, open: seq<Line>, data: Bytes): Reading {
    if closed == [] then Reading([], if Overflows(open, data) then [EventTooLarge] else [])
    else if Overflows(closed[0], data) then Reading([], [EventTooLarge])
    else
      var all := data + Data(closed[0]);
      if all == [] then Read(p, closed[1..], open)
      else
        match PayloadOf(p, all)
        case Terminator => Reading([], [])
        case Malformed(error) => Reading([], [error])
        case Json =>
          var later := Read(p, closed[1..], open);
          Reading([all] + later.events, later.errors)
  }

  lemma ReadFromStart(p: Parsers, closed: seq<seq<Line>>, open: seq<Line>)
    ensures ReadFrom(p, closed, open, []) == Read(p, closed, open)
  {
    if closed != [] {
      assert [] + Data(closed[0]) == Data(closed[0]);
    }
  }

  lemma OverflowsOpen(lines: seq<Line>, line: Line, data: Bytes)
    ensures Overflows([line] + lines, data) ==
      (|line| + |data| > MAX_SSE_EVENT_BYTES || Overflows(lines, data + LineData(line)))
  {
    assert ([line] + lines)[1..] == lines;
  }

  lemma {:induction false} ReadLinesReadsGroups(p: Parsers, lines: seq<Line>, rest: Line, data: Bytes)
    requires |data| <= MAX_SSE_EVENT_BYTES
    ensures ReadLines(p, lines, rest, data) == ReadFrom(p, Group(lines).closed, Group(lines).open + [rest], data)
    decreases |lines|
  {
    if lines == [] {
      assert [] + [rest] == [rest];
      OverflowsOpen([], rest, data);
      assert [rest] + [] == [rest];
    } else {
      var line, g := lines[0], Group(lines[1..]);
      var open := g.open + [rest];
      if line == [] {
        assert ([[]] + g.closed)[1..] == g.closed;
        assert data + [] == data;
        ReadLinesReadsGroups(p, lines[1..], rest, []);
        ReadFromStart(p, g.closed, open);
      } else if |line| + |data| <= MAX_SSE_EVENT_BYTES {
        ReadLinesReadsGroups(p, lines[1..], rest, data + LineData(line));
        ReadFromLine(p, line, g, rest, data);
      } else {
        ReadFromLine(p, line, g, rest, data);
      }
    }
  }

  lemma ReadFromLine(p: Parsers, line: Line, g: Groups, rest: Line, data: Bytes)
    ensures var h := if g.closed == [] then Groups([], [line] + g.open)
                     else Groups([[line] + g.closed[0]] + g.closed[1..], g.open);
      ReadFrom(p, h.closed, h.open + [rest], data) ==
        if |line| + |data| > MAX_SSE_EVENT_BYTES then Reading([], [EventTooLarge])
        else ReadFrom(p, g.closed, g.open + [rest], data + LineData(line))
  {
    if g.closed == [] {
      assert ([line] + g.open) + [rest] == [line] + (g.open + [rest]);
      OverflowsOpen(g.open + [rest], line, data);
    } else {
      var first := g.closed[0];
      OverflowsOpen(first, line, data);
      assert ([[line] + first] + g.closed[1..])[1..] == g.closed[1..];
      assert ([line] + first)[1..] == first;
      assert data + (LineData(line) + Data(first)) == (data + LineData(line)) + Data(first);
    }
  }

  // ----- main results -----

  /** A single push of a whole stream gives the reading of the reference. */
  lemma DecodesReference(p: Parsers, stream: Bytes)
    ensures ReadingOf(Run(p, FRESH, stream)) == Reference(p, stream)
  {
    var split := Lines(stream);
    RunReadsLines(p, FRESH, stream);
    ReadLinesReadsGroups(p, split.lines, split.rest, []);
    ReadFromStart(p, Group(split.lines).closed, Group(split.lines).open + [split.rest]);
  }

  function Concat(chunks: seq<Bytes>): Bytes {
    if chunks == [] then [] else chunks[0] + Concat(chunks[1..])
  }

  lemma {:induction false} ConcatSnoc(chunks: seq<Bytes>, last: Bytes)
    ensures Concat(chunks + [last]) == Concat(chunks) + last
  {
    if chunks == [] {
      assert [] + [last] == [last] && [last][1..] == [] && last + [] == last;
    } else {
      assert (chunks + [last])[1..] == chunks[1..] + [last];
      ConcatSnoc(chunks[1..], last);
    }
  }

  /** And so does every chunking of it, pushed into a decoder object one chunk after the other. */
  method Decode(p: Parsers, chunks: seq<Bytes>) returns (events: seq<Bytes>, errors: seq<SseError>)
    ensures Reading(events, errors) == Reference(p, Concat(chunks))
  {
    var stream := new OpenAiContentStream(p);
    events, errors := [], [];
    for i := 0 to |chunks|
      invariant fresh(stream) && stream.parsers == p
      invariant Outcome(stream.View(), events, errors) == Run(p, FRESH, Concat(chunks[..i]))
    {
      RunConcat(p, FRESH, Concat(chunks[..i]), chunks[i]);
      assert chunks[..i + 1] == chunks[..i] + [chunks[i]];
      ConcatSnoc(chunks[..i], chunks[i]);
      var emitted, error := stream.PushEvents(chunks[i]);
      events := events + emitted;
      errors := errors + if error.Some? then [error.value] else [];
    }
    assert chunks[..|chunks|] == chunks;
    DecodesReference(p, Concat(chunks));
  }
}
