/** What a turn has on display. */
module TurnShows {
  // Attempt by attempt (core/agent/src/model_stream.rs).

  import opened Wrappers
  import opened Text
  import P = Preview
  import T = TurnPreview

  const INITIAL := T.INITIAL

  /** Attempt `k` is over and nothing of it is on display. */
  predicate Gone(t: T.Turn, k: nat) {
    t.attempt == t.response.attempt >= k && (t.attempt == k ==> t.failed) && !t.response.Shows(k)
  }

  lemma NextKeepsGone(t: T.Turn, op: T.Op, k: nat)
    requires Gone(t, k)
    ensures Gone(T.Next(t, op), k)
  {
  }

  lemma {:induction false} RunKeepsGone(t: T.Turn, ops: seq<T.Op>, k: nat)
    requires Gone(t, k)
    ensures Gone(T.Run(t, ops), k)
    decreases |ops|
  {
    if ops != [] {
      NextKeepsGone(t, ops[0], k);
      RunKeepsGone(T.Next(t, ops[0]), ops[1..], k);
    }
  }

  /** The text of the current attempt that is on display. */
  function Shown(t: T.Turn): string {
    if t.response.Shows(t.attempt) then t.response.visible.value.text else ""
  }

  /** Text that would take an attempt beyond 1 MiB, a progress note that gives way to a summary not counted. */
  predicate Overflows(t: T.Turn, target: T.Target, text: string) {
    var replaced := target == T.FinishSummary && !t.finishCandidate;
    && !t.failed && t.response.accepting && text != ""
    && (if replaced then 0 else Utf8Len(Shown(t))) + Utf8Len(text) > 1024 * 1024
  }

  /** A retraction, a response that is rejected, or text beyond 1 MiB. */
  predicate TakesBack(t: T.Turn, op: T.Op) {
    match op
    case Retract => true
    case Validated(accepted, _) => !accepted && !t.failed
    case Append(target, text) => Overflows(t, target, text)
    case _ => false
  }

  lemma TakenBackIsGone(t: T.Turn, op: T.Op)
    requires t.attempt == t.response.attempt && TakesBack(t, op)
    ensures Gone(T.Next(t, op), t.attempt)
  {
    assert Utf8Len("") == 0;
  }

  /** In every run: what was taken back is never on display again. */
  lemma TakenBackStaysHidden(ops: seq<T.Op>, op: T.Op, later: seq<T.Op>)
    ensures var t := T.Run(INITIAL, ops);
      TakesBack(t, op) ==> !T.Run(T.Next(t, op), later).response.Shows(t.attempt)
  {
    var t := T.Run(INITIAL, ops);
    T.RunKnowsAttempt(INITIAL, ops);
    if TakesBack(t, op) {
      TakenBackIsGone(t, op);
      RunKeepsGone(T.Next(t, op), later, t.attempt);
    }
  }

  /** A cancelled response shows nothing until the next attempt begins, whatever else happens. */
  lemma {:induction false} CancelledShowsNothing(s: P.State, ops: seq<P.Op>)
    requires forall i :: 0 <= i < |ops| ==> ops[i] != P.Op.Begin
    ensures P.Run(P.Next(s, P.Op.Cancel), ops).visible == None
  {
    SilentStays(P.Next(s, P.Op.Cancel), ops);
  }

  lemma {:induction false} SilentStays(s: P.State, ops: seq<P.Op>)
    requires s.visible == None && !s.accepting && forall i :: 0 <= i < |ops| ==> ops[i] != P.Op.Begin
    ensures P.Run(s, ops).visible == None
    decreases |ops|
  {
    if ops != [] {
      assert ops[0] != P.Op.Begin;
      SilentStays(P.Next(s, ops[0]), ops[1..]);
    }
  }

  /** Steps that name another attempt than the current one change nothing. */
  lemma OtherAttemptsChangeNothing(s: P.State, op: P.Op)
    requires op != P.Op.Begin && op != P.Op.Cancel && op.attempt != s.attempt
    ensures P.Next(s, op) == s
  {
  }

  /** An attempt that is over takes no more text, whether it showed any or not. */
  lemma OverTakesNoMore(s: P.State, op: P.Op, text: string)
    requires op == P.Retract(s.attempt) || op == P.Op.Cancel || (op.Settle? && op.attempt == s.attempt)
    ensures P.Next(P.Next(s, op), P.Append(s.attempt, text)) == P.Next(s, op)
  {
  }

  /** The revision counts the changes of what is on display; only a cancellation counts without one. */
  lemma RevisionCounts(s: P.State, op: P.Op)
    requires P.Sound(s)
    ensures var n := P.Next(s, op);
      n.revision == s.revision + (if n.visible != s.visible || op == P.Op.Cancel then 1 else 0)
  {
  }

  /** A pending finish is resolved once. */
  lemma FinishResolvesOnce(t: T.Turn, first: bool, second: bool)
    ensures var s := T.Next(t, T.ResolveFinish(first)); T.Next(s, T.ResolveFinish(second)) == s
  {
  }

  // ----- an attempt from its beginning -----

  /** A beginning attempt leaves on display what is there, and a note of an interruption with it. */
  lemma BeginKeepsDisplay(t: T.Turn)
    ensures var b := T.Next(t, T.Op.Begin);
      && b.response.visible == t.response.visible && b.interruption == t.interruption
      && b.attempt == b.response.attempt == t.response.attempt + 1 && b.response.accepting
      && !b.failed && b.awaitingFirstText && !b.finishCandidate
  {
  }

  /** Its first text takes the place of both. */
  lemma FirstTextReplaces(t: T.Turn, target: T.Target, text: string)
    requires P.Sound(t.response) && text != "" && Utf8Len(text) <= 1024 * 1024
    ensures var s := T.Next(T.Next(t, T.Op.Begin), T.Append(target, text));
      && s.response.Shows(s.attempt) && s.response.visible.value.text == text
      && s.response.visible.value.status == P.Streaming && s.interruption == None
      && s.attempt == s.response.attempt == t.response.attempt + 1 && s.response.accepting
      && !s.failed && !s.awaitingFirstText && s.finishCandidate == (target == T.FinishSummary)
  {
    assert "" + text == text && Utf8Len("") == 0;
  }

  lemma FirstTextClears(t: T.Turn, target: T.Target, text: string)
    requires P.Sound(t.response) && text != ""
    ensures var b := T.Next(t, T.Op.Begin);
      var ready := T.Prepared(b, target, text).response;
      ready.visible == None && ready.accepting && ready.attempt == b.attempt
  {
  }

  /** Too large a first text: nothing is left on display, not even of an earlier attempt. */
  lemma FirstTextTooLarge(t: T.Turn, target: T.Target, text: string)
    requires P.Sound(t.response) && Utf8Len(text) > 1024 * 1024
    ensures var s := T.Next(T.Next(t, T.Op.Begin), T.Append(target, text));
      s.response.visible == None && s.failed
  {
    assert text != "";
    FirstTextClears(t, target, text);
    RetractedShowsNothing(T.Next(t, T.Op.Begin), target, text);
  }

  lemma RetractedShowsNothing(b: T.Turn, target: T.Target, text: string)
    requires text != "" && Utf8Len(text) > 1024 * 1024 && !b.failed
    requires var ready := T.Prepared(b, target, text).response;
      ready.visible == None && ready.accepting && ready.attempt == b.attempt
    ensures T.Appended(b, target, text).response.visible == None && T.Appended(b, target, text).failed
  {
    assert P.TooLarge(T.Prepared(b, target, text).response, b.attempt, text);
  }

  /** An attempt that streams its text in any pieces and is accepted shows exactly that text, settled. */
  lemma AttemptSettles(t: T.Turn, first: string, texts: seq<string>, final: bool)
    requires P.Sound(t.response) && first != "" && Utf8Len(first + Join(texts)) <= 1024 * 1024
    ensures var s := T.Run(T.Next(T.Next(t, T.Op.Begin), T.Append(T.Response, first)), T.Pieces(T.Response, texts));
      var done := T.Next(s, T.Validated(true, final));
      && s.response.visible.Some? && s.response.visible.value.status == P.Streaming
      && done.response.Shows(t.response.attempt + 1)
      && done.response.visible.value.text == first + Join(texts)
      && done.response.visible.value.status == (if final then P.Final else P.Intermediate)
      && !done.response.accepting
  {
    var one := T.Next(T.Next(t, T.Op.Begin), T.Append(T.Response, first));
    Utf8LenConcat(first, Join(texts));
    FirstTextReplaces(t, T.Response, first);
    T.StreamMore(one, T.Response, texts, first);
    T.RunKeepsAttempt(one, T.Response, texts);
    StaysStreaming(one, T.Response, texts);
  }

  lemma {:induction false} StaysStreaming(t: T.Turn, target: T.Target, texts: seq<string>)
    requires t.response.visible.Some? ==> t.response.visible.value.status == P.Streaming
    ensures var s := T.Run(t, T.Pieces(target, texts)).response; s.visible.Some? ==> s.visible.value.status == P.Streaming
    decreases |texts|
  {
    if texts != [] {
      assert T.Pieces(target, texts)[1..] == T.Pieces(target, texts[1..]);
      StaysStreaming(T.Next(t, T.Append(target, texts[0])), target, texts[1..]);
    }
  }

  // ----- interruptions -----

  /** Steps of an attempt: all but the beginning of the next and a retraction. */
  predicate WithinAttempt(ops: seq<T.Op>) {
    forall i :: 0 <= i < |ops| ==> ops[i].Append? || ops[i].Validated? || ops[i].ResolveFinish? || ops[i].Publish?
  }

  lemma {:induction false} FailedIsFrozen(t: T.Turn, ops: seq<T.Op>)
    requires t.failed && WithinAttempt(ops)
    ensures T.Run(t, ops).response == t.response && T.Run(t, ops).interruption == t.interruption
    decreases |ops|
  {
    if ops != [] {
      assert ops[0].Append? || ops[0].Validated? || ops[0].ResolveFinish? || ops[0].Publish?;
      FailedIsFrozen(T.Next(t, ops[0]), ops[1..]);
    }
  }

  /** An interruption leaves on display what is there, says why, and lets nothing more of the attempt in. */
  lemma InterruptionFreezes(t: T.Turn, reason: string, ops: seq<T.Op>)
    requires WithinAttempt(ops)
    ensures var s := T.Run(T.Next(t, T.Interrupt(reason)), ops);
      s.response == t.response && s.interruption == Some(reason)
  {
    FailedIsFrozen(T.Next(t, T.Interrupt(reason)), ops);
  }

  /** A retraction also takes the note of an interruption back. */
  lemma RetractionClears(t: T.Turn)
    ensures T.Next(t, T.Op.Retract).interruption == None
  {
  }

  // ----- the confirmed text -----

  /** A turn reports a text as confirmed exactly when the attempt holds and that text is on display as final. */
  lemma ConfirmedIff(t: T.Turn, text: string)
    ensures T.FinishConfirmedFinal(t, text) <==>
      !t.failed && exists k: nat, r: nat :: t.response.visible == Some(P.ResponsePreview(k, r, text, P.Final))
  {
    if T.FinishConfirmedFinal(t, text) {
      var p := t.response.visible.value;
      assert t.response.visible == Some(P.ResponsePreview(p.attempt, p.revision, text, P.Final));
    }
  }
}
