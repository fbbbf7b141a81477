/**
  `XmlPublicTextStream` (core/agent/src/model_stream.rs): an XML filter that holds back whatever it cannot decide yet
  and emits the text directly inside `assistant/free_talk` and `assistant/final_answer`.
 */
module XmlStream {
  import opened Wrappers
  import opened Text

  const CDATA_OPEN: string := "<![CDATA["
  const CDATA_CLOSE: string := "]]>"
  const MAX_DEPTH: nat := 64

  datatype XmlError = MismatchedTag | ExpectedRoot | DepthExceeded | TooLarge

  // ----- the string operations of the standard library that tags go through -----

  /** The index of the first occurrence of a character. */
  function Find(s: string, c: char): (r: Option<nat>)
    ensures r.Some? ==> r.value < |s| && s[r.value] == c && forall i :: 0 <= i < r.value ==> s[i] != c
    ensures r.None? ==> forall i :: 0 <= i < |s| ==> s[i] != c
  {
    if s == "" then None
    else if s[0] == c then Some(0)
    else
      var r := Find(s[1..], c);
      if r.None? then None else Some(r.value + 1)
  }

  function TrimSlashes(s: string): string {
    if s != "" && s[|s| - 1] == '/' then TrimSlashes(s[..|s| - 1]) else s
  }

  function UntilWhitespace(s: string): string {
    if s == "" || IsWhitespace(s[0]) then "" else [s[0]] + UntilWhitespace(s[1..])
  }

  /** `split_whitespace().next().unwrap_or("")` */
  function FirstWord(s: string): string {
    UntilWhitespace(TrimStart(s))
  }

  // ----- decisions -----

  datatype Xml = Xml(pending: string, stack: seq<string>, cdata: bool)

  /** Whether text is public at this place. */
  predicate Target(stack: seq<string>) {
    |stack| == 2 && stack[0] == "assistant" && (stack[1] == "free_talk" || stack[1] == "final_answer")
  }

  function Public(stack: seq<string>, text: string): string {
    if Target(stack) then text else ""
  }

  function Entity(e: string): string {
    match e
    case "&lt;" => "<"
    case "&gt;" => ">"
    case "&quot;" => "\""
    case "&apos;" => "'"
    case "&amp;" => "&"
    case _ => e
  }

  datatype Decision =
    | Wait
    | Fail(error: XmlError, remaining: seq<string>)
    | Advance(width: nat, text: string, stack: seq<string>, cdata: bool)

  /** What a complete tag does; `raw` is the trimmed text between its angle brackets. */
  function DecideTag(stack: seq<string>, raw: string, width: nat): Decision {
    if "/" <= raw then
      if stack == [] then Fail(MismatchedTag, [])
      else
        var top := |stack| - 1;
        if stack[top] != AsciiLower(Trim(raw[1..])) then Fail(MismatchedTag, stack[..top])
        else Advance(width, "", stack[..top], false)
    else
      var name := AsciiLower(FirstWord(TrimSlashes(raw)));
      if name == "" || (stack == [] && name != "assistant") then Fail(ExpectedRoot, stack)
      else if raw[|raw| - 1] == '/' then Advance(width, "", stack, false)
      else if |stack| >= MAX_DEPTH then Fail(DepthExceeded, stack)
      else Advance(width, "", stack + [name], false)
  }

  /** The next thing to do with the held-back text. */
  function Decide(x: Xml): (d: Decision)
    requires x.pending != ""
    ensures d.Advance? ==> 0 < d.width <= |x.pending|
  {
    var p := x.pending;
    if x.cdata then
      if CDATA_CLOSE <= p then Advance(3, "", x.stack, false)
      else if p <= CDATA_CLOSE then Wait
      else Advance(1, Public(x.stack, [p[0]]), x.stack, true)
    else if p[0] == '<' then
      if p <= CDATA_OPEN then Wait
      else if CDATA_OPEN <= p then Advance(9, "", x.stack, true)
      else
        match Find(p, '>')
        case None => Wait
        case Some(end) => DecideTag(x.stack, Trim(p[1..end]), end + 1)
    else if Target(x.stack) && p[0] == '&' then
      match Find(p, ';')
      case None => Wait
      case Some(end) => Advance(end + 1, Entity(p[..end + 1]), x.stack, false)
    else if x.stack == [] && !IsWhitespace(p[0]) then Fail(ExpectedRoot, [])
    else Advance(1, Public(x.stack, [p[0]]), x.stack, false)
  }

  /** The result of draining: the text emitted and where it stops, with an error if it stops on one. */
  datatype Drained = Drained(xml: Xml, text: string, error: Option<XmlError>)

  function After(x: Xml, d: Decision): Xml
    requires d.Advance? && d.width <= |x.pending|
  {
    Xml(x.pending[d.width..], d.stack, d.cdata)
  }

  function Emit(text: string, r: Drained): Drained {
    r.(text := text + r.text)
  }

  function Drain(x: Xml): Drained
    decreases |x.pending|
  {
    if x.pending == "" then Drained(x, "", None)
    else
      match Decide(x)
      case Wait => Drained(x, "", None)
      case Fail(error, remaining) => Drained(Xml("", remaining, x.cdata), "", Some(error))
      case Advance(width, text, stack, cdata) => Emit(text, Drain(After(x, Decide(x))))
  }

  // ----- the object -----

  datatype Stream = Stream(xml: Xml, failed: bool, totalBytes: nat)

  const FRESH := Stream(Xml("", [], false), false, 0)

  /** More text behind what is held back. */
  function More(x: Xml, q: string): Xml {
    x.(pending := x.pending + q)
  }

  datatype Pushed = Pushed(stream: Stream, text: string, error: Option<XmlError>)

  function PushSpec(s: Stream, text: string): Pushed {
    if s.failed then Pushed(s, "", None)
    else
      var total := s.totalBytes + Utf8Len(text);
      if total > MAX_EVENT_BYTES then Pushed(Stream(s.xml, true, total), "", Some(TooLarge))
      else
        var r := Drain(More(s.xml, text));
        Pushed(Stream(r.xml, r.error.Some?, total), r.text, r.error)
  }

  class XmlPublicTextStream {
    var pending: string
    var stack: seq<string>
    var cdata: bool
    var failed: bool
    var totalBytes: nat

    ghost function Held(): Xml
      reads this
    {
      Xml(pending, stack, cdata)
    }

    ghost function View(): Stream
      reads this
    {
      Stream(Held(), failed, totalBytes)
    }

    constructor ()
      ensures View() == FRESH
    {
      pending, stack, cdata, failed, totalBytes := "", [], false, false, 0;
    }

    method Push(text: string) returns (emitted: string, error: Option<XmlError>)
      modifies this
      ensures Pushed(View(), emitted, error) == old(PushSpec(View(), text))
    {
      if failed {
        return "", None;
      }
      totalBytes := totalBytes + Utf8Len(text);
      if totalBytes > MAX_EVENT_BYTES {
        failed := true;
        return "", Some(TooLarge);
      }
      pending := pending + text;
      emitted, error := DrainPending();
      if error.Some? {
        failed := true;
        pending := "";
      }
    }

    method DrainPending() returns (emitted: string, error: Option<XmlError>)
      modifies this`pending, this`stack, this`cdata
      ensures var r := old(Drain(Held()));
        && emitted == r.text && error == r.error
        && (if error.None? then Held() == r.xml else Held().(pending := "") == r.xml)
    {
      emitted, error := "", None;
      ghost var goal := Drain(Held());
      while pending != ""
        invariant Emit(emitted, Drain(Held())) == goal && error == None
        decreases |pending|
      {
        ghost var now, said := Held(), emitted;
        var advanced, piece;
        advanced, piece, error := TakeNext();
        if !advanced {
          assert said + "" == said;
          return;
        }
        emitted := emitted + piece;
        EmitTwice(said, piece, Drain(Held()));
      }
      assert emitted + "" == emitted;
    }

    /** One round of the drain loop; it stops the loop when the decision has to wait or the input is wrong. */
    method TakeNext() returns (advanced: bool, emitted: string, error: Option<XmlError>)
      requires pending != ""
      modifies this`pending, this`stack, this`cdata
      ensures var d := old(Decide(Held()));
        match d
        case Wait => !advanced && error == None && Held() == old(Held())
        case Fail(e, remaining) => !advanced && error == Some(e) && stack == remaining && cdata == old(cdata)
        case Advance(_, text, _, _) => advanced && error == None && emitted == text && Held() == old(After(Held(), d))
    {
      advanced, emitted, error := true, "", None;
      if cdata {
        if CDATA_CLOSE <= pending {
          pending := pending[3..];
          cdata := false;
        } else if pending <= CDATA_CLOSE {
          advanced := false;
        } else {
          emitted := Public(stack, [pending[0]]);
          pending := pending[1..];
        }
      } else if pending[0] == '<' {
        advanced, error := TakeMarkup();
      } else if Target(stack) && pending[0] == '&' {
        var end := Find(pending, ';');
        if end.None? {
          advanced := false;
        } else {
          emitted := Entity(pending[..end.value + 1]);
          pending := pending[end.value + 1..];
        }
      } else if stack == [] && !IsWhitespace(pending[0]) {
        advanced, error := false, Some(ExpectedRoot);
      } else {
        emitted := Public(stack, [pending[0]]);
        pending := pending[1..];
      }
    }

    method TakeMarkup() returns (advanced: bool, error: Option<XmlError>)
      requires pending != "" && pending[0] == '<' && !cdata
      modifies this`pending, this`stack, this`cdata
      ensures var d := old(Decide(Held()));
        match d
        case Wait => !advanced && error == None && Held() == old(Held())
        case Fail(e, remaining) => !advanced && error == Some(e) && stack == remaining && cdata == old(cdata)
        case Advance(_, text, _, _) => advanced && error == None && text == "" && Held() == old(After(Held(), d))
    {
      advanced, error := true, None;
      if pending <= CDATA_OPEN {
        advanced := false;
      } else if CDATA_OPEN <= pending {
        pending := pending[9..];
        cdata := true;
      } else {
        var end := Find(pending, '>');
        if end.None? {
          return false, None;
        }
        error := ReadTag(Trim(pending[1..end.value]));
        if error.Some? {
          return false, error;
        }
        pending := pending[end.value + 1..];
      }
    }

    method ReadTag(raw: string) returns (error: Option<XmlError>)
      modifies this`stack
      ensures forall width :: var d := DecideTag(old(stack), raw, width);
        if d.Fail? then error == Some(d.error) && stack == d.remaining else error == None && stack == d.stack
    {
      if "/" <= raw {
        if stack == [] {
          return Some(MismatchedTag);
        }
        var top := stack[|stack| - 1];
        stack := stack[..|stack| - 1];
        if top != AsciiLower(Trim(raw[1..])) {
          return Some(MismatchedTag);
        }
      } else {
        var name := AsciiLower(FirstWord(TrimSlashes(raw)));
        if name == "" || (stack == [] && name != "assistant") {
          return Some(ExpectedRoot);
        }
        if raw[|raw| - 1] != '/' {
          if |stack| >= MAX_DEPTH {
            return Some(DepthExceeded);
          }
          stack := stack + [name];
        }
      }
      return None;
    }
  }

  lemma EmitTwice(a: string, b: string, r: Drained)
    ensures Emit(a, Emit(b, r)) == Emit(a + b, r)
  {
    assert a + (b + r.text) == (a + b) + r.text;
  }
}
