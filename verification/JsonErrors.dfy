/** The texts that the JSON filter refuses, wherever they are split. */
module JsonErrors {
  import opened Wrappers
  import opened Text
  import opened JsonText
  import opened JsonStream
  import opened JsonDocuments

  predicate Space(c: char) {
    c == ' ' || c == '\t' || c == '\n' || c == '\U{0C}' || c == '\r'
  }

  predicate Spaces(s: string) {
    forall i :: 0 <= i < |s| ==> Space(s[i])
  }

  /** Before an object and behind it whitespace is skipped. */
  lemma {:induction false} SkipSpaces(m: Machine, s: string)
    requires (m.started ==> m.depth == 0) && Spaces(s)
    ensures Leads(m, s, "", m)
  {
    if s != "" {
      assert Space(s[0]);
      One(m, s[0], "", m);
      SkipSpaces(m, s[1..]);
      First(m, s, m, "", m);
    }
  }

  /** Every chunking stops with that error, behind the text emitted before it. */
  lemma ChunksStop(before: string, m: Machine, text: string, c: char, rest: string, error: JsonError, chunks: seq<string>)
    requires Leads(INIT, before, text, m) && Step(m, c) == Outcome(m, "", Some(error)) && error != BadString
    requires Join(chunks) == before + ([c] + rest) && Utf8Len(Join(chunks)) <= MAX_EVENT_BYTES
    ensures var all := PushAll(FRESH, chunks); all.text == text && all.errors == [error] && all.stream.failed
  {
    var tail := [c] + rest;
    RunConcat(INIT, before, tail);
    assert Run(m, tail) == Outcome(m, "", Some(error));
    assert text + "" == text;
    ChunksAgree(FRESH, chunks);
  }

  /** The first character that is not whitespace has to open an object. */
  lemma OtherStartFails(before: string, c: char, rest: string, chunks: seq<string>)
    requires Spaces(before) && !Space(c) && c != '{'
    requires Join(chunks) == before + ([c] + rest) && Utf8Len(Join(chunks)) <= 1024 * 1024
    ensures var all := PushAll(FRESH, chunks); all.text == "" && all.errors == [ExpectedObject] && all.stream.failed
  {
    SkipSpaces(INIT, before);
    ChunksStop(before, INIT, "", c, rest, ExpectedObject, chunks);
  }

  /** Behind the object only whitespace may follow; what stands in the object is emitted all the same. */
  lemma TrailingFails(doc: Json, after: string, c: char, rest: string, chunks: seq<string>)
    requires doc.core.Obj? && ValidJson(doc) && Decodable(doc.core.members) && Spaces(after) && !Space(c)
    requires Join(chunks) == JsonString(doc) + (after + ([c] + rest)) && Utf8Len(Join(chunks)) <= 1024 * 1024
    ensures var all := PushAll(FRESH, chunks);
      all.text == PublicText(doc.core.members) && all.errors == [TrailingJson] && all.stream.failed
  {
    Utf8LenConcat(JsonString(doc), after + ([c] + rest));
    var last := ReadRoot(doc);
    StopsBehind(JsonString(doc), PublicText(doc.core.members), last, after, c, rest, chunks);
  }

  lemma StopsBehind(s: string, text: string, last: Machine, after: string, c: char, rest: string, chunks: seq<string>)
    requires Leads(INIT, s, text, last) && last.started && last.depth == 0 && Spaces(after) && !Space(c)
    requires Join(chunks) == s + (after + ([c] + rest)) && Utf8Len(Join(chunks)) <= 1024 * 1024
    ensures var all := PushAll(FRESH, chunks); all.text == text && all.errors == [TrailingJson] && all.stream.failed
  {
    SkipSpaces(last, after);
    Chain(INIT, s, text, last, after, "", last);
    assert text + "" == text;
    assert s + (after + ([c] + rest)) == (s + after) + ([c] + rest);
    ChunksStop(s + after, last, text, c, rest, TrailingJson, chunks);
  }

  /** More than 1 MiB in all always ends in failure. */
  lemma {:induction false} TooLargeFails(s: Stream, chunks: seq<string>)
    requires s.failed || s.totalBytes <= 1024 * 1024 < s.totalBytes + Utf8Len(Join(chunks))
    ensures PushAll(s, chunks).stream.failed
    decreases |chunks|
  {
    if chunks != [] {
      Utf8LenConcat(chunks[0], Join(chunks[1..]));
      TooLargeFails(PushSpec(s, chunks[0]).stream, chunks[1..]);
    }
  }

  /** The push that goes beyond the limit emits nothing and says so. */
  lemma LastPushTooLarge(s: Stream, text: string)
    requires !s.failed
    ensures var p := PushSpec(s, text);
      s.totalBytes + Utf8Len(text) > 1024 * 1024 ==> p.text == "" && p.error == Some(TooLarge) && p.stream.failed
  {
  }

  /** Once failed, nothing is emitted or reported any more. */
  lemma FailedStaysSilent(s: Stream, chunks: seq<string>)
    requires s.failed
    ensures PushAll(s, chunks).text == "" && PushAll(s, chunks).errors == [] && PushAll(s, chunks).stream.failed
  {
    PushAllFailed(s, chunks);
  }
}
