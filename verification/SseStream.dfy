/**
  `OpenAiContentStream` (core/agent/src/model_stream.rs): the byte-at-a-time decoder of a server-sent event stream,
  with its 4 MiB bound on the bytes it holds.
 */
module SseStream {
  import opened Wrappers
  import opened Text

  type Byte = b: int | 0 <= b < 256
  type Bytes = seq<Byte>

  const MAX_SSE_EVENT_BYTES: nat := 4 * 1024 * 1024
  const CR: Byte := 13
  const LF: Byte := 10
  const SPACE: Byte := 32
  const DATA_FIELD: Bytes := [100, 97, 116, 97, 58]  // data:

  datatype SseError = EventTooLarge | InvalidUtf8 | InvalidEvent

  /** UTF-8 decoding and JSON parsing are not part of this model: they are given from outside. */
  datatype Parsers = Parsers(utf8: Bytes -> Option<string>, json: string -> bool)

  datatype Payload = Terminator | Malformed(error: SseError) | Json

  /** What the collected data of one event is. */
  function Classify(p: Parsers, data: Bytes): Payload {
    match p.utf8(data)
    case None => Malformed(InvalidUtf8)
    case Some(text) => if Trim(text) == "[DONE]" then Terminator else if p.json(text) then Json else Malformed(InvalidEvent)
  }

  datatype Machine = Machine(
    line: Bytes, data: Bytes, pendingCr: bool, stopped: bool, eventCount: nat, failureSizes: Option<(nat, nat)>)

  const FRESH := Machine([], [], false, false, 0, None)

  /** A step or run: the data of the events it emits and the errors it returns. */
  datatype Outcome = Outcome(machine: Machine, events: seq<Bytes>, errors: seq<SseError>)

  function Quiet(m: Machine): Outcome {
    Outcome(m, [], [])
  }

  function Fail(m: Machine, error: SseError): Outcome {
    Outcome(m.(line := [], data := [], stopped := true, failureSizes := Some((|m.line|, |m.data|))), [], [error])
  }

  /** The value of a data field, without the one space that may follow the colon. */
  function FieldValue(line: Bytes): Bytes
    requires DATA_FIELD <= line
  {
    var value := line[5..];
    if value != [] && value[0] == SPACE then value[1..] else value
  }

  function FinishLine(p: Parsers, m: Machine): Outcome {
    if m.line == [] then
      if m.data == [] then Quiet(m)
      else
        match Classify(p, m.data)
        case Terminator => Quiet(m.(data := [], stopped := true))
        case Malformed(error) => Fail(m, error)
        case Json => Outcome(m.(data := [], eventCount := m.eventCount + 1), [m.data], [])
    else if DATA_FIELD <= m.line then Quiet(m.(line := [], data := m.data + FieldValue(m.line) + [LF]))
    else Quiet(m.(line := []))
  }

  function Step(p: Parsers, m: Machine, byte: Byte): Outcome {
    if m.pendingCr && byte == LF then Quiet(m.(pendingCr := false))
    else
      var m := m.(pendingCr := false);
      if byte == CR || byte == LF then
        var r := FinishLine(p, m);
        if r.errors != [] then r else r.(machine := r.machine.(pendingCr := byte == CR))
      else if |m.line| + |m.data| >= MAX_SSE_EVENT_BYTES then Fail(m, EventTooLarge)
      else Quiet(m.(line := m.line + [byte]))
  }

  function Behind(r: Outcome, later: Outcome): Outcome {
    Outcome(later.machine, r.events + later.events, r.errors + later.errors)
  }

  /** One push: nothing is read any more once the stream has stopped. */
  function Run(p: Parsers, m: Machine, bytes: Bytes): Outcome
    decreases |bytes|
  {
    if bytes == [] || m.stopped then Quiet(m)
    else
      var r := Step(p, m, bytes[0]);
      Behind(r, Run(p, r.machine, bytes[1..]))
  }

  lemma BehindTwice(a: Outcome, b: Outcome, c: Outcome)
    ensures Behind(Behind(a, b), c) == Behind(a, Behind(b, c))
  {
    assert (a.events + b.events) + c.events == a.events + (b.events + c.events);
    assert (a.errors + b.errors) + c.errors == a.errors + (b.errors + c.errors);
  }

  lemma BehindQuiet(m: Machine, r: Outcome)
    ensures Behind(Quiet(m), r) == r && Behind(r, Quiet(r.machine)) == r
  {
    assert [] + r.events == r.events && [] + r.errors == r.errors;
    assert r.events + [] == r.events && r.errors + [] == r.errors;
  }

  /** The state left by one push is all the next push depends on. */
  lemma {:induction false} RunConcat(p: Parsers, m: Machine, a: Bytes, b: Bytes)
    ensures Run(p, m, a + b) == Behind(Run(p, m, a), Run(p, Run(p, m, a).machine, b))
    decreases |a|
  {
    if m.stopped {
      BehindQuiet(m, Run(p, m, b));
    } else if a == [] {
      assert a + b == b;
      BehindQuiet(m, Run(p, m, b));
    } else {
      var r := Step(p, m, a[0]);
      assert (a + b)[1..] == a[1..] + b;
      RunConcat(p, r.machine, a[1..], b);
      var later := Run(p, r.machine, a[1..]);
      BehindTwice(r, later, Run(p, later.machine, b));
    }
  }

  /** The bytes held for the current event. */
  function HeldBytes(m: Machine): nat {
    |m.line| + |m.data|
  }

  /**
    The bound holds after every byte of every run, the event counter counts the emitted events, and at most one push
    of a stream ever returns an error: the one that stops it.
   */
  lemma {:induction false} RunBound(p: Parsers, m: Machine, bytes: Bytes)
    requires HeldBytes(m) <= MAX_SSE_EVENT_BYTES
    ensures var r := Run(p, m, bytes);
      && HeldBytes(r.machine) <= MAX_SSE_EVENT_BYTES
      && r.machine.eventCount == m.eventCount + |r.events|
      && |r.errors| <= 1 && (r.errors != [] ==> r.machine.stopped)
    decreases |bytes|
  {
    if bytes != [] && !m.stopped {
      RunBound(p, Step(p, m, bytes[0]).machine, bytes[1..]);
    }
  }

  // ----- the object -----

  class OpenAiContentStream {
    const parsers: Parsers
    var line: Bytes
    var data: Bytes
    var pendingCr: bool
    var stopped: bool
    var eventCount: nat
    var failureSizes: Option<(nat, nat)>

    ghost function View(): Machine
      reads this
    {
      Machine(line, data, pendingCr, stopped, eventCount, failureSizes)
    }

    constructor (parsers: Parsers)
      ensures View() == FRESH && this.parsers == parsers
    {
      this.parsers := parsers;
      line, data, pendingCr, stopped, eventCount, failureSizes := [], [], false, false, 0, None;
    }

    method PushEvents(bytes: Bytes) returns (events: seq<Bytes>, error: Option<SseError>)
      modifies this
      ensures Outcome(View(), events, if error.Some? then [error.value] else []) == old(Run(parsers, View(), bytes))
    {
      events, error := [], None;
      if stopped {
        return;
      }
      ghost var goal := Run(parsers, View(), bytes);
      for i := 0 to |bytes|
        invariant !stopped && error == None
        invariant Behind(Outcome(View(), events, []), Run(parsers, View(), bytes[i..])) == goal
      {
        ghost var before, now := Outcome(View(), events, []), View();
        assert bytes[i..][1..] == bytes[i + 1..];
        var emitted;
        emitted, error := PushByte(bytes[i]);
        events := events + emitted;
        BehindTwice(before, Step(parsers, now, bytes[i]), Run(parsers, View(), bytes[i + 1..]));
        assert before.errors == [];
        if stopped {
          BehindQuiet(View(), Outcome(View(), events, if error.Some? then [error.value] else []));
          return;
        }
      }
      BehindQuiet(View(), Outcome(View(), events, []));
    }

    method PushByte(byte: Byte) returns (emitted: seq<Bytes>, error: Option<SseError>)
      requires !stopped
      modifies this
      ensures Outcome(View(), emitted, if error.Some? then [error.value] else []) == old(Step(parsers, View(), byte))
      ensures error.Some? ==> stopped
    {
      emitted, error := [], None;
      if pendingCr {
        pendingCr := false;
        if byte == LF {
          return;
        }
      }
      if byte == CR || byte == LF {
        var sizes := (|line|, |data|);
        emitted, error := CloseLine();
        if error.Some? {
          failureSizes := Some(sizes);
          stopped := true;
          line, data := [], [];
          return;
        }
        pendingCr := byte == CR;
      } else {
        if |line| + |data| >= MAX_SSE_EVENT_BYTES {
          failureSizes := Some((|line|, |data|));
          stopped := true;
          line, data := [], [];
          return [], Some(EventTooLarge);
        }
        line := line + [byte];
      }
    }

    /** `finish_line`; on an error the caller clears what is held and stops the stream. */
    method CloseLine() returns (emitted: seq<Bytes>, error: Option<SseError>)
      modifies this`line, this`data, this`stopped, this`eventCount
      ensures var r := old(FinishLine(parsers, View()));
        if error.Some? then r == Fail(old(View()), error.value) && emitted == [] && eventCount == old(eventCount)
        else Outcome(View(), emitted, []) == r
    {
      emitted, error := [], None;
      var current := line;
      line := [];
      if current == [] {
        if data == [] {
          return;
        }
        var payload := data;
        data := [];
        var text := parsers.utf8(payload);
        if text.None? {
          return [], Some(InvalidUtf8);
        }
        if Trim(text.value) == "[DONE]" {
          stopped := true;
          return;
        }
        if !parsers.json(text.value) {
          return [], Some(InvalidEvent);
        }
        eventCount := eventCount + 1;
        emitted := [payload];
      } else if DATA_FIELD <= current {
        data := data + FieldValue(current);
        data := data + [LF];
      }
    }
  }
}
