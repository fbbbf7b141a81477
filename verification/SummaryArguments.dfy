/**
  `SummaryArgumentParser` (core/agent/src/model_stream.rs): the character-at-a-time extractor of the top-level
  "summary" string from streamed tool-call arguments.
 */
module SummaryArguments {
  import opened Wrappers
  import opened Text
  import opened JsonText

  const REPLACEMENT: char := 0xFFFD as char

  datatype Phase =
    | ObjectStart | KeyStart | InKey | AfterKey | ValueStart | InValue
    | InSkipString | SkipEscaped | Escaped | Unicode | Done | Failed

  /** The parser's fields, as a value. */
  datatype Machine = Machine(
    phase: Phase, key: string, keyIsSummary: bool,
    unicode: seq<nat>, unicodeIndex: nat, pendingHigh: Option<nat>)
  {
    ghost predicate Valid() {
      && |unicode| == 4
      && (forall i :: 0 <= i < 4 ==> unicode[i] < 16)
      && (phase == Unicode ==> unicodeIndex < 4)
      && (pendingHigh.Some? ==> 0xD800 <= pendingHigh.value <= 0xDBFF)
    }
  }

  const INIT := Machine(ObjectStart, "", false, [0, 0, 0, 0], 0, None)

  /** A state change together with the text it emits. */
  datatype Outcome = Outcome(machine: Machine, text: string)

  function EmittedChar(m: Machine, c: char): Outcome {
    Outcome(m.(pendingHigh := None), (if m.pendingHigh.Some? then [REPLACEMENT] else "") + [c])
  }

  function OptionalText(c: Option<char>): string {
    if c.Some? then [c.value] else ""
  }

  function EmittedUnit(m: Machine, v: nat): Outcome
    requires m.Valid()
  {
    match m.pendingHigh
    case Some(high) =>
      if 0xDC00 <= v <= 0xDFFF then Outcome(m.(pendingHigh := None), [Combine(high, v)])
      else if 0xD800 <= v <= 0xDBFF then Outcome(m.(pendingHigh := Some(v)), [REPLACEMENT])
      else Outcome(m.(pendingHigh := None), [REPLACEMENT] + OptionalText(CharOf(v)))
    case None =>
      if 0xD800 <= v <= 0xDBFF then Outcome(m.(pendingHigh := Some(v)), "")
      else Outcome(m, OptionalText(CharOf(v)))
  }

  function Quiet(m: Machine, phase: Phase): Outcome {
    Outcome(m.(phase := phase), "")
  }

  /** One character of input. */
  function Step(m: Machine, ch: char): (r: Outcome)
    requires m.Valid()
    ensures r.machine.Valid()
  {
    match m.phase
    case ObjectStart => Quiet(m, if ch == '{' then KeyStart else if IsWhitespace(ch) then ObjectStart else Failed)
    case KeyStart =>
      if ch == '"' then Quiet(m.(key := ""), InKey) else Quiet(m, if IsWhitespace(ch) then KeyStart else Failed)
    case InKey =>
      if ch == '"' then Quiet(m.(keyIsSummary := m.key == "summary"), AfterKey)
      else if ch == '\\' then Quiet(m, Failed)
      else Quiet(m.(key := m.key + [ch]), InKey)
    case AfterKey =>
      Quiet(m, if ch == ':' then ValueStart else if ch == ',' then KeyStart
               else if IsWhitespace(ch) then AfterKey else Failed)
    case ValueStart =>
      Quiet(m, if ch == '"' then (if m.keyIsSummary then InValue else InSkipString)
               else if IsWhitespace(ch) then ValueStart else Failed)
    case InValue =>
      if ch == '"' then Quiet(m, Done) else if ch == '\\' then Quiet(m, Escaped) else EmittedChar(m, ch)
    case InSkipString => Quiet(m, if ch == '"' then AfterKey else if ch == '\\' then SkipEscaped else InSkipString)
    case SkipEscaped => Quiet(m, InSkipString)
    case Escaped =>
      if ch == 'u' then Quiet(m.(unicodeIndex := 0), Unicode)
      else if ShortMeaning(ch).Some? then EmittedChar(m.(phase := InValue), ShortMeaning(ch).value)
      else Quiet(m, Failed)
    case Unicode =>
      if HexDigit(ch).None? then Quiet(m, Failed)
      else
        var m' := m.(unicode := m.unicode[m.unicodeIndex := HexDigit(ch).value], unicodeIndex := m.unicodeIndex + 1);
        if m'.unicodeIndex < 4 then Outcome(m', "") else EmittedUnit(m'.(phase := InValue), Nibbles(m'.unicode))
    case Done => Outcome(m, "")
    case Failed => Outcome(m, "")
  }

  /** A whole piece of text. */
  function Run(m: Machine, text: string): (r: Outcome)
    requires m.Valid()
    ensures r.machine.Valid()
    decreases |text|
  {
    if text == "" then Outcome(m, "")
    else
      var first := Step(m, text[0]);
      var rest := Run(first.machine, text[1..]);
      Outcome(rest.machine, first.text + rest.text)
  }

  lemma {:induction false} RunConcat(m: Machine, a: string, b: string)
    requires m.Valid()
    ensures Run(m, a + b) ==
      Outcome(Run(Run(m, a).machine, b).machine, Run(m, a).text + Run(Run(m, a).machine, b).text)
    decreases |a|
  {
    if a == "" {
      assert a + b == b;
    } else {
      var first := Step(m, a[0]);
      assert (a + b)[1..] == a[1..] + b;
      RunConcat(first.machine, a[1..], b);
      var later := Run(first.machine, a[1..]);
      assert first.text + (later.text + Run(later.machine, b).text) == (first.text + later.text) + Run(later.machine, b).text;
    }
  }

  lemma RunSnoc(m: Machine, text: string, i: nat)
    requires m.Valid() && i < |text|
    ensures var before := Run(m, text[..i]);
      var last := Step(before.machine, text[i]);
      Run(m, text[..i + 1]) == Outcome(last.machine, before.text + last.text)
  {
    assert text[..i + 1] == text[..i] + [text[i]];
    RunConcat(m, text[..i], [text[i]]);
    assert [text[i]][1..] == "";
  }

  /** The parser object. `Push` returns what the source hands to its `emit` callback. */
  class SummaryArgumentParser {
    var phase: Phase
    var key: string
    var keyIsSummary: bool
    const unicode: array<nat>
    var unicodeIndex: nat
    var pendingHigh: Option<nat>

    ghost function View(): Machine
      reads this, unicode
    {
      Machine(phase, key, keyIsSummary, unicode[..], unicodeIndex, pendingHigh)
    }

    constructor ()
      ensures View() == INIT && fresh(unicode)
    {
      phase, key, keyIsSummary, unicodeIndex, pendingHigh := ObjectStart, "", false, 0, None;
      unicode := new nat[4](_ => 0);
    }

    method Push(text: string) returns (emitted: string)
      requires View().Valid()
      modifies this, unicode
      ensures Outcome(View(), emitted) == old(Run(View(), text))
    {
      emitted := "";
      ghost var start := View();
      for i := 0 to |text|
        invariant View().Valid()
        invariant Outcome(View(), emitted) == Run(start, text[..i])
      {
        RunSnoc(start, text, i);
        var piece := PushChar(text[i]);
        emitted := emitted + piece;
      }
      assert text[..|text|] == text;
    }

    method PushChar(ch: char) returns (emitted: string)
      requires View().Valid()
      modifies this, unicode
      ensures Outcome(View(), emitted) == old(Step(View(), ch))
    {
      emitted := "";
      match phase {
        case ObjectStart =>
          if ch == '{' { phase := KeyStart; } else if !IsWhitespace(ch) { phase := Failed; }
        case KeyStart =>
          if ch == '"' { key := ""; phase := InKey; } else if !IsWhitespace(ch) { phase := Failed; }
        case InKey =>
          if ch == '"' {
            keyIsSummary := key == "summary";
            phase := AfterKey;
          } else if ch == '\\' {
            phase := Failed;
          } else {
            key := key + [ch];
          }
        case AfterKey =>
          if ch == ':' { phase := ValueStart; }
          else if ch == ',' { phase := KeyStart; }
          else if !IsWhitespace(ch) { phase := Failed; }
        case ValueStart =>
          if ch == '"' && keyIsSummary { phase := InValue; }
          else if ch == '"' { phase := InSkipString; }
          else if !IsWhitespace(ch) { phase := Failed; }
        case InValue =>
          if ch == '"' { phase := Done; }
          else if ch == '\\' { phase := Escaped; }
          else { emitted := EmitChar(ch); }
        case InSkipString =>
          if ch == '"' { phase := AfterKey; } else if ch == '\\' { phase := SkipEscaped; }
        case SkipEscaped =>
          phase := InSkipString;
        case Escaped =>
          emitted := PushEscaped(ch);
        case Unicode =>
          emitted := PushDigit(ch);
        case Done =>
        case Failed =>
      }
    }

    method PushEscaped(ch: char) returns (emitted: string)
      requires View().Valid() && phase == Escaped
      modifies this, unicode
      ensures Outcome(View(), emitted) == old(Step(View(), ch))
    {
      emitted := "";
      match ch {
        case '"' => emitted := EmitChar(ch); phase := InValue;
        case '\\' => emitted := EmitChar(ch); phase := InValue;
        case '/' => emitted := EmitChar(ch); phase := InValue;
        case 'b' => emitted := EmitChar(8 as char); phase := InValue;
        case 'f' => emitted := EmitChar(12 as char); phase := InValue;
        case 'n' => emitted := EmitChar('\n'); phase := InValue;
        case 'r' => emitted := EmitChar('\r'); phase := InValue;
        case 't' => emitted := EmitChar('\t'); phase := InValue;
        case 'u' => unicodeIndex := 0; phase := Unicode;
        case _ => phase := Failed;
      }
    }

    method PushDigit(ch: char) returns (emitted: string)
      requires View().Valid() && phase == Unicode
      modifies this, unicode
      ensures Outcome(View(), emitted) == old(Step(View(), ch))
    {
      emitted := "";
      var digit := HexDigit(ch);
      if digit.None? {
        phase := Failed;
        return;
      }
      unicode[unicodeIndex] := digit.value;
      unicodeIndex := unicodeIndex + 1;
      if unicodeIndex < 4 {
        return;
      }
      phase := InValue;
      emitted := EmitCodeUnit(Nibbles(unicode[..]));
    }

    method EmitCodeUnit(value: nat) returns (emitted: string)
      requires View().Valid()
      modifies this`pendingHigh
      ensures Outcome(View(), emitted) == old(EmittedUnit(View(), value))
    {
      var high := pendingHigh;
      pendingHigh := None;
      if high.Some? && 0xDC00 <= value <= 0xDFFF {
        emitted := [Combine(high.value, value)];
      } else if high.Some? && 0xD800 <= value <= 0xDBFF {
        emitted := [REPLACEMENT];
        pendingHigh := Some(value);
      } else if high.Some? {
        emitted := [REPLACEMENT] + OptionalText(CharOf(value));
      } else if 0xD800 <= value <= 0xDBFF {
        emitted := "";
        pendingHigh := Some(value);
      } else {
        emitted := OptionalText(CharOf(value));
      }
    }

    method EmitChar(c: char) returns (emitted: string)
      modifies this`pendingHigh
      ensures Outcome(View(), emitted) == old(EmittedChar(View(), c))
    {
      emitted := if pendingHigh.Some? then [REPLACEMENT] else "";
      pendingHigh := None;
      emitted := emitted + [c];
    }
  }
}
