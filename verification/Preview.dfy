/**
  `ResponsePreviewState` and `TurnResponsePreview` (core/agent/src/model_stream.rs): the provisional text of a
  response, kept through attempts that stream, settle, fail or are taken back.
 */
module Preview {
  import opened Wrappers
  import opened Text

  datatype Status = Streaming | Intermediate | Final

  datatype ResponsePreview = ResponsePreview(attempt: nat, revision: nat, text: string, status: Status)

  datatype PreviewError = TextTooLarge

  // ----- the response state, as a value -----

  datatype State = State(attempt: nat, revision: nat, accepting: bool, visible: Option<ResponsePreview>)
  {
    predicate Shows(a: nat) {
      visible.Some? && visible.value.attempt == a
    }
  }

  const INITIAL := State(0, 0, false, None)

  datatype Op =
    | Begin
    | ReplaceCurrent(attempt: nat)
    | ReplacePrior(attempt: nat)
    | Append(attempt: nat, text: string)
    | Settle(attempt: nat, final: bool)
    | Retract(attempt: nat)
    | Cancel

  function Hidden(s: State): State {
    s.(visible := None, revision := s.revision + 1)
  }

  function Retracted(s: State, attempt: nat): State {
    if attempt != s.attempt then s
    else if s.Shows(attempt) then Hidden(s.(accepting := false))
    else s.(accepting := false)
  }

  function Existing(s: State, attempt: nat): string {
    if s.Shows(attempt) then s.visible.value.text else ""
  }

  predicate Ignored(s: State, attempt: nat, text: string) {
    !s.accepting || attempt != s.attempt || text == ""
  }

  predicate TooLarge(s: State, attempt: nat, text: string) {
    !Ignored(s, attempt, text) && Utf8Len(Existing(s, attempt)) + Utf8Len(text) > MAX_EVENT_BYTES
  }

  function Appended(s: State, attempt: nat, text: string): State {
    if Ignored(s, attempt, text) then s
    else if TooLarge(s, attempt, text) then Retracted(s, attempt)
    else s.(revision := s.revision + 1,
            visible := Some(ResponsePreview(attempt, s.revision + 1, Existing(s, attempt) + text, Streaming)))
  }

  function Settled(s: State, attempt: nat, final: bool): State {
    if !s.accepting || attempt != s.attempt then s
    else if s.Shows(attempt) then
      var p := s.visible.value;
      s.(accepting := false, revision := s.revision + 1,
         visible := Some(p.(revision := s.revision + 1, status := if final then Final else Intermediate)))
    else s.(accepting := false)
  }

  function Next(s: State, op: Op): State {
    match op
    case Begin => s.(attempt := s.attempt + 1, accepting := true)
    case ReplaceCurrent(a) => if a == s.attempt && s.Shows(a) && s.visible.value.text != "" then Hidden(s) else s
    case ReplacePrior(a) => if a == s.attempt && s.accepting && s.visible.Some? && !s.Shows(a) then Hidden(s) else s
    case Append(a, text) => Appended(s, a, text)
    case Settle(a, final) => Settled(s, a, final)
    case Retract(a) => Retracted(s, a)
    case Cancel => Hidden(s.(accepting := false))
  }

  function Run(s: State, ops: seq<Op>): State
    decreases |ops|
  {
    if ops == [] then s else Run(Next(s, ops[0]), ops[1..])
  }

  // ----- what every run of the response state keeps -----

  predicate Sound(s: State) {
    match s.visible
    case None => true
    case Some(p) =>
      && p.text != "" && Utf8Len(p.text) <= MAX_EVENT_BYTES
      && p.attempt <= s.attempt && p.revision <= s.revision
      && (p.attempt == s.attempt && p.status != Streaming ==> !s.accepting)
  }

  lemma NextSound(s: State, op: Op)
    requires Sound(s)
    ensures Sound(Next(s, op))
  {
    if op.Append? && !Ignored(s, op.attempt, op.text) {
      Utf8LenConcat(Existing(s, op.attempt), op.text);
    }
  }

  lemma {:induction false} RunSound(s: State, ops: seq<Op>)
    requires Sound(s)
    ensures var t := Run(s, ops);
      && Sound(t) && t.attempt >= s.attempt && t.revision >= s.revision
      && (t.visible != s.visible ==> t.revision > s.revision)
    decreases |ops|
  {
    if ops != [] {
      NextSound(s, ops[0]);
      RunSound(Next(s, ops[0]), ops[1..]);
    }
  }

  /** A settled preview `p` has been shown: from here on it stays as it is, is hidden, or gives way to a later attempt. */
  predicate Past(p: ResponsePreview, s: State) {
    && p.attempt <= s.attempt && (p.attempt == s.attempt ==> !s.accepting)
    && (s.visible == Some(p) || s.visible == None || s.visible.value.attempt > p.attempt)
  }

  lemma {:induction false} RunKeepsPast(p: ResponsePreview, s: State, ops: seq<Op>)
    requires p.status != Streaming && Past(p, s)
    ensures Past(p, Run(s, ops))
    decreases |ops|
  {
    if ops != [] {
      RunKeepsPast(p, Next(s, ops[0]), ops[1..]);
    }
  }

  /**
    Once a preview has settled, its text and status never change in any later run: whatever is visible then is that
    same preview, nothing, or the text of a later attempt.
   */
  lemma SettledIsStable(s: State, ops: seq<Op>)
    requires Sound(s) && s.visible.Some? && s.visible.value.status != Streaming
    ensures var t := Run(s, ops);
      t.visible == s.visible || t.visible == None || t.visible.value.attempt > s.visible.value.attempt
  {
    RunKeepsPast(s.visible.value, s, ops);
  }

  // ----- the response state, as an object -----

  class ResponsePreviewState {
    var attempt: nat
    var revision: nat
    var accepting: bool
    var visible: Option<ResponsePreview>

    ghost function View(): State
      reads this
    {
      State(attempt, revision, accepting, visible)
    }

    constructor ()
      ensures View() == INITIAL
    {
      attempt, revision, accepting, visible := 0, 0, false, None;
    }

    method Begin() returns (started: nat)
      modifies this
      ensures View() == Next(old(View()), Op.Begin) && started == attempt
    {
      attempt := attempt + 1;
      accepting := true;
      started := attempt;
    }

    method ReplaceCurrent(a: nat)
      modifies this
      ensures View() == Next(old(View()), Op.ReplaceCurrent(a))
    {
      if a != attempt {
        return;
      }
      if visible.Some? && visible.value.attempt == a && visible.value.text != "" {
        revision := revision + 1;
        visible := None;
      }
    }

    method ReplacePrior(a: nat)
      modifies this
      ensures View() == Next(old(View()), Op.ReplacePrior(a))
    {
      if a == attempt && accepting && visible.Some? && visible.value.attempt != a {
        visible := None;
        revision := revision + 1;
      }
    }

    method Append(a: nat, text: string) returns (result: Result<bool, PreviewError>)
      modifies this
      ensures View() == Next(old(View()), Op.Append(a, text))
      ensures result == old(if TooLarge(View(), a, text) then Err(TextTooLarge) else Ok(!Ignored(View(), a, text)))
    {
      if !accepting || a != attempt || text == "" {
        return Ok(false);
      }
      var existing := if visible.Some? && visible.value.attempt == a then Utf8Len(visible.value.text) else 0;
      if existing + Utf8Len(text) > MAX_EVENT_BYTES {
        var _ := Retract(a);
        return Err(TextTooLarge);
      }
      revision := revision + 1;
      var preview := if visible.Some? then visible.value else ResponsePreview(a, 0, "", Streaming);
      if preview.attempt != a {
        preview := preview.(attempt := a, text := "");
      }
      visible := Some(preview.(text := preview.text + text, revision := revision, status := Streaming));
      return Ok(true);
    }

    method Settle(a: nat, final: bool) returns (settled: bool)
      modifies this
      ensures View() == Next(old(View()), Op.Settle(a, final))
      ensures settled == old(accepting && a == attempt && View().Shows(a))
    {
      if !accepting || a != attempt {
        return false;
      }
      accepting := false;
      if visible.None? || visible.value.attempt != a {
        return false;
      }
      revision := revision + 1;
      visible := Some(visible.value.(revision := revision, status := if final then Final else Intermediate));
      return true;
    }

    method Retract(a: nat) returns (hidden: bool)
      modifies this
      ensures View() == Next(old(View()), Op.Retract(a))
      ensures hidden == old(a == attempt && View().Shows(a))
    {
      if a != attempt {
        return false;
      }
      accepting := false;
      if visible.Some? && visible.value.attempt == a {
        revision := revision + 1;
        visible := None;
        return true;
      }
      return false;
    }

    method Cancel()
      modifies this
      ensures View() == Next(old(View()), Op.Cancel)
    {
      accepting := false;
      revision := revision + 1;
      visible := None;
    }
  }
}
