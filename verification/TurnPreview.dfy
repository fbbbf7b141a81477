/** The preview of one turn. */
module TurnPreview {
  // `TurnResponsePreview` (core/agent/src/model_stream.rs) over the attempts of a turn.

  import opened Wrappers
  import opened Text
  import P = Preview

  datatype Target = Response | FinishSummary

  datatype Turn = Turn(
    response: P.State, attempt: nat, revision: nat, failed: bool,
    interruption: Option<string>, awaitingFirstText: bool, finishCandidate: bool)

  const INITIAL := Turn(P.INITIAL, 0, 0, false, None, false, false)

  datatype Op =
    | Begin
    | Append(target: Target, text: string)
    | Validated(accepted: bool, final: bool)
    | ResolveFinish(final: bool)
    | Interrupt(reason: string)
    | Retract
    | Publish

  function Retracted(t: Turn): Turn {
    t.(failed := true, interruption := None, response := P.Next(t.response, P.Op.Retract(t.attempt)))
  }

  /** What the first summary text and the first visible text do before the text is appended. */
  function Prepared(t: Turn, target: Target, text: string): Turn {
    var t1 :=
      if target.FinishSummary? then
        t.(finishCandidate := true,
           response := if !t.finishCandidate && text != "" then P.Next(t.response, P.Op.ReplaceCurrent(t.attempt)) else t.response)
      else t;
    if t1.awaitingFirstText && text != "" then
      t1.(awaitingFirstText := false, interruption := None, response := P.Next(t1.response, P.Op.ReplacePrior(t.attempt)))
    else t1
  }

  function Appended(t: Turn, target: Target, text: string): Turn {
    if t.failed then t
    else
      var t1 := Prepared(t, target, text);
      var t2 := t1.(response := P.Next(t1.response, P.Op.Append(t.attempt, text)));
      if P.TooLarge(t1.response, t.attempt, text) then Retracted(t2) else t2
  }

  function Next(t: Turn, op: Op): Turn {
    match op
    case Begin =>
      t.(response := P.Next(t.response, P.Op.Begin), attempt := t.response.attempt + 1,
         awaitingFirstText := true, failed := false, finishCandidate := false)
    case Append(target, text) => Appended(t, target, text)
    case Validated(accepted, final) =>
      if t.failed then t
      else if !accepted then Retracted(t)
      else if t.finishCandidate && !final then t
      else t.(response := P.Next(t.response, P.Op.Settle(t.attempt, final)))
    case ResolveFinish(final) =>
      if !t.finishCandidate || t.failed then t.(finishCandidate := false)
      else t.(finishCandidate := false, response := P.Next(t.response, P.Op.Settle(t.attempt, final)))
    case Interrupt(reason) => t.(failed := true, interruption := Some(reason))
    case Retract => Retracted(t)
    case Publish => t.(revision := t.revision + 1)
  }

  function Run(t: Turn, ops: seq<Op>): Turn
    decreases |ops|
  {
    if ops == [] then t else Run(Next(t, ops[0]), ops[1..])
  }

  // ----- every turn step is a few response steps -----

  function AppendSteps(t: Turn, target: Target, text: string): seq<P.Op> {
    (if target.FinishSummary? && !t.finishCandidate && text != "" then [P.Op.ReplaceCurrent(t.attempt)] else [])
    + (if t.awaitingFirstText && text != "" then [P.Op.ReplacePrior(t.attempt)] else [])
    + [P.Op.Append(t.attempt, text)]
    + (if P.TooLarge(Prepared(t, target, text).response, t.attempt, text) then [P.Op.Retract(t.attempt)] else [])
  }

  function ResponseSteps(t: Turn, op: Op): seq<P.Op> {
    match op
    case Begin => [P.Op.Begin]
    case Append(target, text) => if t.failed then [] else AppendSteps(t, target, text)
    case Validated(accepted, final) =>
      if t.failed then [] else if !accepted then [P.Op.Retract(t.attempt)]
      else if t.finishCandidate && !final then [] else [P.Op.Settle(t.attempt, final)]
    case ResolveFinish(final) => if !t.finishCandidate || t.failed then [] else [P.Op.Settle(t.attempt, final)]
    case Interrupt(_) => []
    case Retract => [P.Op.Retract(t.attempt)]
    case Publish => []
  }

  lemma RunOne(s: P.State, op: P.Op)
    ensures P.Run(s, [op]) == P.Next(s, op)
  {
    assert [op][1..] == [];
  }

  lemma {:induction false} RunConcat(s: P.State, a: seq<P.Op>, b: seq<P.Op>)
    ensures P.Run(s, a + b) == P.Run(P.Run(s, a), b)
    decreases |a|
  {
    if a == [] {
      assert a + b == b;
    } else {
      assert (a + b)[1..] == a[1..] + b;
      RunConcat(P.Next(s, a[0]), a[1..], b);
    }
  }

  lemma AppendRuns(t: Turn, target: Target, text: string)
    requires !t.failed
    ensures Appended(t, target, text).response == P.Run(t.response, AppendSteps(t, target, text))
  {
    var a := if target.FinishSummary? && !t.finishCandidate && text != "" then [P.Op.ReplaceCurrent(t.attempt)] else [];
    var b := if t.awaitingFirstText && text != "" then [P.Op.ReplacePrior(t.attempt)] else [];
    var t1 := Prepared(t, target, text);
    var c := [P.Op.Append(t.attempt, text)];
    var d := if P.TooLarge(t1.response, t.attempt, text) then [P.Op.Retract(t.attempt)] else [];
    RunOne(t.response, P.Op.ReplaceCurrent(t.attempt));
    RunOne(P.Run(t.response, a), P.Op.ReplacePrior(t.attempt));
    RunConcat(t.response, a, b);
    assert P.Run(t.response, a + b) == t1.response;
    RunOne(t1.response, P.Op.Append(t.attempt, text));
    RunConcat(t.response, a + b, c);
    var s := P.Next(t1.response, P.Op.Append(t.attempt, text));
    RunOne(s, P.Op.Retract(t.attempt));
    RunConcat(t.response, a + b + c, d);
  }

  lemma NextRuns(t: Turn, op: Op)
    ensures Next(t, op).response == P.Run(t.response, ResponseSteps(t, op))
  {
    match op {
      case Append(target, text) => if !t.failed { AppendRuns(t, target, text); }
      case Begin => RunOne(t.response, P.Op.Begin);
      case Validated(_, final) =>
        RunOne(t.response, P.Op.Retract(t.attempt));
        RunOne(t.response, P.Op.Settle(t.attempt, final));
      case ResolveFinish(final) => RunOne(t.response, P.Op.Settle(t.attempt, final));
      case Interrupt(_) =>
      case Retract => RunOne(t.response, P.Op.Retract(t.attempt));
      case Publish =>
    }
  }

  /** So whatever holds over all runs of the response state holds over all runs of a turn. */
  lemma {:induction false} RunRuns(t: Turn, ops: seq<Op>) returns (steps: seq<P.Op>)
    ensures Run(t, ops).response == P.Run(t.response, steps)
    decreases |ops|
  {
    steps := [];
    if ops != [] {
      NextRuns(t, ops[0]);
      var later := RunRuns(Next(t, ops[0]), ops[1..]);
      RunConcat(t.response, ResponseSteps(t, ops[0]), later);
      steps := ResponseSteps(t, ops[0]) + later;
    }
  }

  /**
    Over every run of a turn: visible text is never empty and at most 1 MiB, every change of it raises the revision,
    and a settled text and status never change until hidden or replaced by a later attempt.
   */
  lemma TurnRunKeeps(t: Turn, ops: seq<Op>)
    requires P.Sound(t.response)
    ensures var before, after := t.response, Run(t, ops).response;
      && P.Sound(after)
      && (after.visible != before.visible ==> after.revision > before.revision)
      && (before.visible.Some? && before.visible.value.status != P.Streaming ==>
            after.visible == before.visible || after.visible == None
            || after.visible.value.attempt > before.visible.value.attempt)
  {
    var steps := RunRuns(t, ops);
    P.RunSound(t.response, steps);
    if t.response.visible.Some? && t.response.visible.value.status != P.Streaming {
      P.SettledIsStable(t.response, steps);
    }
  }

  // ----- failed attempts -----

  predicate FinalOf(t: Turn, k: nat) {
    t.response.Shows(k) && t.response.visible.value.status == P.Final
  }

  /** Attempt `k` is over without having become final. */
  predicate Dead(t: Turn, k: nat) {
    t.attempt == t.response.attempt >= k && (t.attempt == k ==> t.failed) && !FinalOf(t, k)
  }

  lemma NextKeepsDead(t: Turn, op: Op, k: nat)
    requires Dead(t, k)
    ensures Dead(Next(t, op), k)
  {
  }

  lemma {:induction false} RunKeepsDead(t: Turn, ops: seq<Op>, k: nat)
    requires Dead(t, k)
    ensures Dead(Run(t, ops), k)
    decreases |ops|
  {
    if ops != [] {
      NextKeepsDead(t, ops[0], k);
      RunKeepsDead(Next(t, ops[0]), ops[1..], k);
    }
  }

  /**
    The steps that give an attempt up: an interruption, a retraction, a response the authoritative parser rejects,
    or text beyond the size limit.
   */
  predicate GivesUp(t: Turn, op: Op) {
    match op
    case Interrupt(_) => true
    case Retract => true
    case Validated(accepted, _) => !accepted
    case Append(target, text) => !t.failed && P.TooLarge(Prepared(t, target, text).response, t.attempt, text)
    case _ => false
  }

  /** An attempt given up before it was final never becomes final, whatever happens afterwards. */
  lemma GivenUpNeverFinal(t: Turn, op: Op, ops: seq<Op>)
    requires t.attempt == t.response.attempt && !FinalOf(t, t.attempt) && GivesUp(t, op)
    ensures !FinalOf(Run(Next(t, op), ops), t.attempt)
  {
    RunKeepsDead(Next(t, op), ops, t.attempt);
  }

  /** The only steps that make a preview final, and they leave its text as it was streamed. */
  lemma OnlyConfirmationMakesFinal(t: Turn, op: Op, k: nat)
    requires t.attempt == t.response.attempt && FinalOf(Next(t, op), k) && !FinalOf(t, k)
    ensures op == Validated(true, true) || op == ResolveFinish(true)
    ensures !t.failed && k == t.attempt && t.response.Shows(k)
    ensures Next(t, op).response.visible.value.text == t.response.visible.value.text
  {
  }

  // ----- every run -----

  lemma {:induction false} RunKnowsAttempt(t: Turn, ops: seq<Op>)
    requires t.attempt == t.response.attempt
    ensures Run(t, ops).attempt == Run(t, ops).response.attempt
    decreases |ops|
  {
    if ops != [] {
      RunKnowsAttempt(Next(t, ops[0]), ops[1..]);
    }
  }

  lemma {:induction false} RunSnoc(t: Turn, ops: seq<Op>, op: Op)
    ensures Run(t, ops + [op]) == Next(Run(t, ops), op)
    decreases |ops|
  {
    if ops == [] {
      assert ops + [op] == [op] && [op][1..] == [];
    } else {
      assert (ops + [op])[1..] == ops[1..] + [op];
      RunSnoc(Next(t, ops[0]), ops[1..], op);
    }
  }

  /** Wherever a run from the start has come to: what it gives up before it is final stays not final. */
  lemma NoRunRevives(ops: seq<Op>, op: Op, later: seq<Op>)
    ensures var t := Run(INITIAL, ops);
      !FinalOf(t, t.attempt) && GivesUp(t, op) ==> !FinalOf(Run(Next(t, op), later), t.attempt)
  {
    var t := Run(INITIAL, ops);
    RunKnowsAttempt(INITIAL, ops);
    if !FinalOf(t, t.attempt) && GivesUp(t, op) {
      GivenUpNeverFinal(t, op, later);
    }
  }

  /** Step `i` of a run confirms attempt `k` as final, with this text on display. */
  predicate Confirms(ops: seq<Op>, i: nat, k: nat, text: string)
    requires i < |ops|
  {
    var t := Run(INITIAL, ops[..i]);
    && (ops[i] == Validated(true, true) || ops[i] == ResolveFinish(true))
    && !t.failed && t.attempt == k && t.response.Shows(k) && t.response.visible.value.text == text
  }

  lemma StaysFinal(t: Turn, op: Op, k: nat)
    requires t.attempt == t.response.attempt && FinalOf(t, k) && FinalOf(Next(t, op), k)
    ensures Next(t, op).response.visible.value.text == t.response.visible.value.text
  {
  }

  /** A final preview seen in any run from the start was confirmed by one step of it, with exactly that text. */
  lemma {:induction false} FinalWasConfirmed(ops: seq<Op>, k: nat)
    requires FinalOf(Run(INITIAL, ops), k)
    ensures exists i :: 0 <= i < |ops| && Confirms(ops, i, k, Run(INITIAL, ops).response.visible.value.text)
    decreases |ops|
  {
    if ops == [] {
      assert false;
    } else {
      var init, op := ops[..|ops| - 1], ops[|ops| - 1];
      var t, text := Run(INITIAL, init), Run(INITIAL, ops).response.visible.value.text;
      assert ops == init + [op];
      RunSnoc(INITIAL, init, op);
      RunKnowsAttempt(INITIAL, init);
      if FinalOf(t, k) {
        StaysFinal(t, op, k);
        FinalWasConfirmed(init, k);
        var i :| 0 <= i < |init| && Confirms(init, i, k, text);
        assert init[..i] == ops[..i];
        assert Confirms(ops, i, k, text);
      } else {
        OnlyConfirmationMakesFinal(t, op, k);
        assert Confirms(ops, |init|, k, text);
      }
    }
  }

  // ----- the optimistic finish -----

  /** The streamed pieces of an answer, all to one target. */
  function Pieces(target: Target, texts: seq<string>): seq<Op> {
    if texts == [] then [] else [Append(target, texts[0])] + Pieces(target, texts[1..])
  }

  predicate Streams(t: Turn, text: string) {
    && !t.failed && t.attempt == t.response.attempt && t.response.accepting && !t.awaitingFirstText
    && t.response.Shows(t.attempt) && t.response.visible.value.text == text
  }

  lemma {:induction false} StreamMore(t: Turn, target: Target, texts: seq<string>, text: string)
    requires Streams(t, text) && (target.FinishSummary? ==> t.finishCandidate)
    requires Utf8Len(text) + Utf8Len(Join(texts)) <= MAX_EVENT_BYTES
    ensures var t' := Run(t, Pieces(target, texts));
      Streams(t', text + Join(texts)) && t'.finishCandidate == t.finishCandidate
    decreases |texts|
  {
    if texts == [] {
      assert text + "" == text;
    } else {
      var t1 := Next(t, Append(target, texts[0]));
      Utf8LenConcat(texts[0], Join(texts[1..]));
      Utf8LenConcat(text, texts[0]);
      assert text + (texts[0] + Join(texts[1..])) == (text + texts[0]) + Join(texts[1..]);
      assert texts[0] == "" ==> text + texts[0] == text;
      assert Pieces(target, texts)[1..] == Pieces(target, texts[1..]);
      StreamMore(t1, target, texts[1..], text + texts[0]);
    }
  }

  /** An attempt that can take its first summary text, with or without a progress note in front. */
  predicate Open(t: Turn) {
    && !t.failed && t.attempt == t.response.attempt && t.response.accepting && !t.finishCandidate
    && (!t.awaitingFirstText ==> t.response.visible == None || t.response.Shows(t.attempt))
    && (t.response.Shows(t.attempt) ==> t.response.visible.value.text != "")
  }

  /**
    A finish summary that is streamed in pieces stays provisional when the response is accepted as not final, and
    its resolution settles exactly the whole summary, without the progress note of the same attempt: final when the
    finish is confirmed, intermediate when it was intercepted.
   */
  lemma OptimisticFinish(t: Turn, first: string, texts: seq<string>, confirmed: bool)
    requires Open(t) && first != "" && Utf8Len(first + Join(texts)) <= MAX_EVENT_BYTES
    ensures var streamed := Run(Next(t, Append(FinishSummary, first)), Pieces(FinishSummary, texts));
      var accepted := Next(streamed, Validated(true, false));
      var resolved := Next(accepted, ResolveFinish(confirmed));
      && accepted == streamed && Streams(accepted, first + Join(texts))
      && resolved.response.Shows(t.attempt)
      && resolved.response.visible.value.text == first + Join(texts)
      && resolved.response.visible.value.status == (if confirmed then P.Final else P.Intermediate)
      && FinishConfirmedFinal(resolved, first + Join(texts)) == confirmed
  {
    var t1 := Next(t, Append(FinishSummary, first));
    Utf8LenConcat(first, Join(texts));
    AppendKeepsAttempt(t, FinishSummary, first);
    StreamMore(t1, FinishSummary, texts, first);
    RunKeepsAttempt(t1, FinishSummary, texts);
  }

  lemma AppendKeepsAttempt(t: Turn, target: Target, text: string)
    ensures Next(t, Append(target, text)).attempt == t.attempt
  {
  }

  lemma {:induction false} RunKeepsAttempt(t: Turn, target: Target, texts: seq<string>)
    ensures Run(t, Pieces(target, texts)).attempt == t.attempt
    decreases |texts|
  {
    if texts != [] {
      assert Pieces(target, texts)[1..] == Pieces(target, texts[1..]);
      RunKeepsAttempt(Next(t, Append(target, texts[0])), target, texts[1..]);
    }
  }

  predicate FinishConfirmedFinal(t: Turn, text: string) {
    && !t.failed && t.response.visible.Some?
    && t.response.visible.value.status == P.Final && t.response.visible.value.text == text
  }

  // ----- the turn preview, as an object -----

  class TurnResponsePreview {
    const response: P.ResponsePreviewState
    var attempt: nat
    var revision: nat
    var failed: bool
    var interruption: Option<string>
    var awaitingFirstText: bool
    var finishCandidate: bool

    ghost function View(): Turn
      reads this, response
    {
      Turn(response.View(), attempt, revision, failed, interruption, awaitingFirstText, finishCandidate)
    }

    constructor ()
      ensures View() == INITIAL && fresh(response)
    {
      response := new P.ResponsePreviewState();
      attempt, revision, failed, interruption, awaitingFirstText, finishCandidate := 0, 0, false, None, false, false;
    }

    method Begin()
      modifies this, response
      ensures View() == Next(old(View()), Op.Begin)
    {
      attempt := response.Begin();
      awaitingFirstText := true;
      failed := false;
      finishCandidate := false;
    }

    method Append(target: Target, text: string) returns (result: Result<bool, P.PreviewError>)
      modifies this, response
      ensures View() == Next(old(View()), Op.Append(target, text))
      ensures result == old(
        if failed then Ok(false)
        else
          var ready := Prepared(View(), target, text).response;
          if P.TooLarge(ready, attempt, text) then Err(P.TextTooLarge) else Ok(!P.Ignored(ready, attempt, text)))
    {
      if failed {
        return Ok(false);
      }
      if target == FinishSummary {
        if !finishCandidate && text != "" {
          response.ReplaceCurrent(attempt);
        }
        finishCandidate := true;
      }
      if awaitingFirstText && text != "" {
        awaitingFirstText := false;
        response.ReplacePrior(attempt);
        interruption := None;
      }
      result := response.Append(attempt, text);
      if result.Err? {
        Retract();
      }
    }

    method Validated(accepted: bool, final: bool)
      modifies this, response
      ensures View() == Next(old(View()), Op.Validated(accepted, final))
    {
      if failed {
        return;
      }
      if !accepted {
        Retract();
        return;
      }
      if finishCandidate && !final {
        return;
      }
      var _ := response.Settle(attempt, final);
    }

    method FinishPending() returns (pending: bool)
      ensures pending == (View().finishCandidate && !View().failed)
    {
      pending := finishCandidate && !failed;
    }

    method ResolveFinish(final: bool) returns (settled: bool)
      modifies this, response
      ensures View() == Next(old(View()), Op.ResolveFinish(final))
      ensures settled == old(finishCandidate && !failed && response.accepting && attempt == response.attempt
                             && response.View().Shows(attempt))
    {
      var pending := FinishPending();
      if !pending {
        finishCandidate := false;
        return false;
      }
      finishCandidate := false;
      settled := response.Settle(attempt, final);
    }

    method ConfirmedFinal(text: string) returns (confirmed: bool)
      ensures confirmed == FinishConfirmedFinal(View(), text)
    {
      confirmed := !failed && response.visible.Some?
        && response.visible.value.status == P.Final && response.visible.value.text == text;
    }

    method Interrupt(reason: string)
      modifies this
      ensures View() == Next(old(View()), Op.Interrupt(reason))
    {
      failed := true;
      interruption := Some(reason);
    }

    method Retract()
      modifies this, response
      ensures View() == Next(old(View()), Op.Retract)
    {
      failed := true;
      interruption := None;
      var _ := response.Retract(attempt);
    }

    /** The revision and state that `publish` hands to the user interface. */
    method Publish() returns (published: Turn)
      modifies this
      ensures View() == Next(old(View()), Op.Publish) && published == View()
    {
      revision := revision + 1;
      published := Turn(Snapshot(), attempt, revision, failed, interruption, awaitingFirstText, finishCandidate);
    }

    function Snapshot(): P.State
      reads response
    {
      P.State(response.attempt, response.revision, response.accepting, response.visible)
    }
  }
}
