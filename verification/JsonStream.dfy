/**
  `JsonPublicTextStream` (core/agent/src/model_stream.rs): a lexical filter that emits the decoded `free_talk` and
  `final_answer` strings of a JSON object while it is still arriving.
 */
module JsonStream {
  import opened Wrappers
  import opened Text
  import opened JsonText

  datatype JsonError = ExpectedObject | TrailingJson | BadString | TooLarge

  /** The fields that lexing depends on; the byte count and the failure flag are kept apart. */
  datatype Machine = Machine(
    depth: nat, inString: bool, escaped: bool, token: string, key: string,
    keyExpected: bool, valueExpected: bool, publicValue: bool, started: bool)

  const INIT := Machine(0, false, false, "", "", false, false, false, false)

  /** Where reading stops, what it emitted, and the error if it stopped on one. */
  datatype Outcome = Outcome(machine: Machine, text: string, error: Option<JsonError>)

  predicate IsPublicKey(key: string) {
    key == "free_talk" || key == "final_answer"
  }

  function Quiet(m: Machine): Outcome {
    Outcome(m, "", None)
  }

  /** A quote that ends a string. A string that does not decode leaves the key flag and the token as they are. */
  function EndString(m: Machine): Outcome {
    var m' := m.(inString := false);
    var value := DecodeString(m.token);
    if m.keyExpected && m.depth == 1 then
      if value.None? then Outcome(m', "", Some(BadString))
      else Quiet(m'.(key := value.value, keyExpected := false, token := "", publicValue := false))
    else if m.publicValue then
      if value.None? then Outcome(m', "", Some(BadString))
      else Outcome(m'.(token := "", publicValue := false), value.value, None)
    else Quiet(m'.(token := "", publicValue := false))
  }

  /** Any other character of a string. */
  function InString(m: Machine, ch: char): Outcome {
    var escaped := ch == '\\' && !m.escaped;
    if !m.keyExpected && !m.publicValue then Quiet(m.(escaped := escaped))
    else if Utf8Len(m.token) + Utf8Width(ch) > MAX_EVENT_BYTES then Outcome(m.(token := ""), "", Some(TooLarge))
    else
      var token := m.token + [ch];
      if m.publicValue && DecodeString(token).Some? then
        Outcome(m.(token := "", escaped := escaped), DecodeString(token).value, None)
      else Quiet(m.(token := token, escaped := escaped))
  }

  /** A character between strings. */
  function Outside(m: Machine, ch: char): Machine {
    match ch
    case '"' =>
      m.(inString := true, escaped := false, token := "",
         publicValue := m.depth == 1 && m.valueExpected && IsPublicKey(m.key), valueExpected := false)
    case '{' => m.(depth := m.depth + 1, keyExpected := m.depth == 0, valueExpected := false)
    case '[' => m.(depth := m.depth + 1, keyExpected := false, valueExpected := false)
    case '}' => m.(depth := if m.depth == 0 then 0 else m.depth - 1, valueExpected := false)
    case ']' => m.(depth := if m.depth == 0 then 0 else m.depth - 1, valueExpected := false)
    case ':' => if m.depth == 1 then m.(valueExpected := true) else m
    case ',' => if m.depth == 1 then m.(keyExpected := true, valueExpected := false, key := "") else m
    case _ => m
  }

  function Lex(m: Machine, ch: char): Outcome {
    if m.inString then
      if ch == '"' && !m.escaped then EndString(m) else InString(m, ch)
    else Quiet(Outside(m, ch))
  }

  function Step(m: Machine, ch: char): Outcome {
    if !m.started then
      if IsAsciiWhitespace(ch) then Quiet(m)
      else if ch != '{' then Outcome(m, "", Some(ExpectedObject))
      else Lex(m.(started := true), ch)
    else if m.depth == 0 then
      if IsAsciiWhitespace(ch) then Quiet(m) else Outcome(m, "", Some(TrailingJson))
    else Lex(m, ch)
  }

  function Prefix(text: string, r: Outcome): Outcome {
    r.(text := text + r.text)
  }

  /** One push: an error drops the rest of its text. */
  function Run(m: Machine, text: string): Outcome
    decreases |text|
  {
    if text == "" then Quiet(m)
    else
      var first := Step(m, text[0]);
      if first.error.Some? then first else Prefix(first.text, Run(first.machine, text[1..]))
  }

  lemma PrefixTwice(a: string, b: string, r: Outcome)
    ensures Prefix(a, Prefix(b, r)) == Prefix(a + b, r)
  {
    assert a + (b + r.text) == (a + b) + r.text;
  }

  lemma {:induction false} RunConcat(m: Machine, a: string, b: string)
    ensures var r := Run(m, a);
      Run(m, a + b) == if r.error.Some? then r else Prefix(r.text, Run(r.machine, b))
    decreases |a|
  {
    if a == "" {
      assert a + b == b;
      assert "" + Run(m, b).text == Run(m, b).text;
    } else {
      var first := Step(m, a[0]);
      assert (a + b)[1..] == a[1..] + b;
      if first.error.None? {
        RunConcat(first.machine, a[1..], b);
        var later := Run(first.machine, a[1..]);
        PrefixTwice(first.text, later.text, Run(later.machine, b));
      }
    }
  }

  // ----- the object -----

  datatype Stream = Stream(machine: Machine, failed: bool, totalBytes: nat)

  const FRESH := Stream(INIT, false, 0)

  datatype Pushed = Pushed(stream: Stream, text: string, error: Option<JsonError>)

  /** An undecodable string is the one error that does not end the stream. */
  predicate Ends(error: Option<JsonError>) {
    error.Some? && error.value != BadString
  }

  function PushSpec(s: Stream, text: string): Pushed {
    if s.failed then Pushed(s, "", None)
    else
      var total := s.totalBytes + Utf8Len(text);
      if total > MAX_EVENT_BYTES then Pushed(Stream(s.machine.(token := ""), true, total), "", Some(TooLarge))
      else
        var r := Run(s.machine, text);
        Pushed(Stream(r.machine, Ends(r.error), total), r.text, r.error)
  }

  class JsonPublicTextStream {
    var depth: nat
    var inString: bool
    var escaped: bool
    var token: string
    var key: string
    var keyExpected: bool
    var valueExpected: bool
    var publicValue: bool
    var failed: bool
    var started: bool
    var totalBytes: nat

    ghost function Lexer(): Machine
      reads this
    {
      Machine(depth, inString, escaped, token, key, keyExpected, valueExpected, publicValue, started)
    }

    ghost function View(): Stream
      reads this
    {
      Stream(Lexer(), failed, totalBytes)
    }

    constructor ()
      ensures View() == FRESH
    {
      depth, inString, escaped, token, key := 0, false, false, "", "";
      keyExpected, valueExpected, publicValue, failed, started, totalBytes := false, false, false, false, false, 0;
    }

    method Push(text: string) returns (emitted: string, error: Option<JsonError>)
      modifies this
      ensures Pushed(View(), emitted, error) == old(PushSpec(View(), text))
    {
      emitted, error := "", None;
      if failed {
        return;
      }
      totalBytes := totalBytes + Utf8Len(text);
      if totalBytes > MAX_EVENT_BYTES {
        failed := true;
        token := "";
        return "", Some(TooLarge);
      }
      ghost var total := totalBytes;
      ghost var goal := Run(Lexer(), text);
      for i := 0 to |text|
        invariant error == None && !failed && totalBytes == total
        invariant Prefix(emitted, Run(Lexer(), text[i..])) == goal
      {
        ghost var said := emitted;
        assert text[i..][1..] == text[i + 1..];
        var piece;
        piece, error := PushChar(text[i]);
        emitted := emitted + piece;
        if error.Some? {
          return;
        }
        PrefixTwice(said, piece, Run(Lexer(), text[i + 1..]));
      }
      assert emitted + "" == emitted;
    }

    method PushChar(ch: char) returns (emitted: string, error: Option<JsonError>)
      modifies this
      ensures Outcome(Lexer(), emitted, error) == old(Step(Lexer(), ch))
      ensures failed == (old(failed) || Ends(error)) && totalBytes == old(totalBytes)
    {
      emitted, error := "", None;
      if !started {
        if IsAsciiWhitespace(ch) {
          return;
        }
        if ch != '{' {
          failed := true;
          return "", Some(ExpectedObject);
        }
        started := true;
      } else if depth == 0 {
        if IsAsciiWhitespace(ch) {
          return;
        }
        failed := true;
        return "", Some(TrailingJson);
      }
      if inString {
        if ch == '"' && !escaped {
          emitted, error := FinishString();
        } else {
          emitted, error := AddToString(ch);
        }
      } else {
        Structure(ch);
      }
    }

    method FinishString() returns (emitted: string, error: Option<JsonError>)
      modifies this
      ensures Outcome(Lexer(), emitted, error) == old(EndString(Lexer()))
      ensures failed == old(failed) && totalBytes == old(totalBytes) && !Ends(error)
    {
      emitted, error := "", None;
      inString := false;
      if keyExpected && depth == 1 {
        var name := DecodeString(token);
        if name.None? {
          return "", Some(BadString);
        }
        key := name.value;
        keyExpected := false;
      } else if publicValue {
        var value := DecodeString(token);
        if value.None? {
          return "", Some(BadString);
        }
        emitted := value.value;
      }
      token := "";
      publicValue := false;
    }

    method AddToString(ch: char) returns (emitted: string, error: Option<JsonError>)
      modifies this
      ensures Outcome(Lexer(), emitted, error) == old(InString(Lexer(), ch))
      ensures failed == (old(failed) || Ends(error)) && totalBytes == old(totalBytes)
    {
      emitted, error := "", None;
      if keyExpected || publicValue {
        if Utf8Len(token) + Utf8Width(ch) > MAX_EVENT_BYTES {
          failed := true;
          token := "";
          return "", Some(TooLarge);
        }
        token := token + [ch];
        if publicValue {
          var value := DecodeString(token);
          if value.Some? {
            emitted := value.value;
            token := "";
          }
        }
      }
      escaped := ch == '\\' && !escaped;
    }

    method Structure(ch: char)
      modifies this
      ensures Lexer() == old(Outside(Lexer(), ch))
      ensures failed == old(failed) && totalBytes == old(totalBytes)
    {
      match ch {
        case '"' =>
          inString := true;
          escaped := false;
          token := "";
          publicValue := depth == 1 && valueExpected && IsPublicKey(key);
          valueExpected := false;
        case '{' =>
          depth := depth + 1;
          keyExpected := depth == 1;
          valueExpected := false;
        case '[' =>
          depth := depth + 1;
          keyExpected := false;
          valueExpected := false;
        case '}' =>
          depth := if depth == 0 then 0 else depth - 1;
          valueExpected := false;
        case ']' =>
          depth := if depth == 0 then 0 else depth - 1;
          valueExpected := false;
        case ':' =>
          if depth == 1 { valueExpected := true; }
        case ',' =>
          if depth == 1 {
            keyExpected := true;
            valueExpected := false;
            key := "";
          }
        case _ =>
      }
    }
  }

  // ----- chunk boundaries -----

  datatype AllPushed = AllPushed(stream: Stream, text: string, errors: seq<JsonError>)

  function Errors(e: Option<JsonError>): seq<JsonError> {
    if e.Some? then [e.value] else []
  }

  function PushAll(s: Stream, chunks: seq<string>): AllPushed
    decreases |chunks|
  {
    if chunks == [] then AllPushed(s, "", [])
    else
      var first := PushSpec(s, chunks[0]);
      var rest := PushAll(first.stream, chunks[1..]);
      AllPushed(rest.stream, first.text + rest.text, Errors(first.error) + rest.errors)
  }

  lemma {:induction false} PushAllFailed(s: Stream, chunks: seq<string>)
    requires s.failed
    ensures PushAll(s, chunks) == AllPushed(s, "", [])
    decreases |chunks|
  {
    if chunks != [] {
      PushAllFailed(s, chunks[1..]);
    }
  }

  /**
    Up to the byte limit, and unless a single push of the text stops at an undecodable string, every chunking emits
    the same text with the same error.
   */
  lemma {:induction false} ChunksAgree(s: Stream, chunks: seq<string>)
    requires !s.failed && s.totalBytes + Utf8Len(Join(chunks)) <= MAX_EVENT_BYTES
    requires Run(s.machine, Join(chunks)).error != Some(BadString)
    ensures var one, all := PushSpec(s, Join(chunks)), PushAll(s, chunks);
      && all.text == one.text && all.errors == Errors(one.error)
      && all.stream.machine == one.stream.machine && all.stream.failed == one.stream.failed
    decreases |chunks|
  {
    if chunks != [] {
      var a, b := chunks[0], Join(chunks[1..]);
      RunConcat(s.machine, a, b);
      Utf8LenConcat(a, b);
      var first := PushSpec(s, a);
      if first.stream.failed {
        PushAllFailed(first.stream, chunks[1..]);
        assert first.text + "" == first.text;
        assert Errors(first.error) + [] == Errors(first.error);
      } else {
        ChunksAgree(first.stream, chunks[1..]);
      }
    }
  }
}
