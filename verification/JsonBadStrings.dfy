/** Strings that do not decode. */
module JsonBadStrings {
  // A string that does not decode ends a push of the JSON filter but not the stream, so the text behind it is read by the
  // pushes that start there. When exactly can nobody tell how the text was split?

  import opened Wrappers
  import opened Text
  import opened JsonText
  import opened JsonStream
  import opened JsonDocuments

  // ----- where a push stops -----

  /** The number of characters a push reads before it stops, the one it stops at included. */
  function ReadCount(m: Machine, text: string): (n: nat)
    ensures n <= |text|
    decreases |text|
  {
    if text == "" then 0
    else if Step(m, text[0]).error.Some? then 1
    else 1 + ReadCount(Step(m, text[0]).machine, text[1..])
  }

  /** The text behind the place where a single push stops. */
  function Unread(m: Machine, text: string): string {
    text[ReadCount(m, text)..]
  }

  lemma {:induction false} StopsThere(m: Machine, a: string, b: string)
    requires Run(m, a + b).error.Some?
    ensures ReadCount(m, a + b) <= |a| ==> Run(m, a) == Run(m, a + b)
    ensures ReadCount(m, a + b) > |a| ==>
      var r := Run(m, a);
      && r.error.None?
      && ReadCount(r.machine, b) == ReadCount(m, a + b) - |a|
      && Run(m, a + b) == Prefix(r.text, Run(r.machine, b))
    decreases |a|
  {
    if a == "" {
      assert a + b == b;
      assert "" + Run(m, b).text == Run(m, b).text;
      if b != "" {
        assert ReadCount(m, b) > 0;
      }
    } else {
      var first := Step(m, a[0]);
      assert (a + b)[0] == a[0] && (a + b)[1..] == a[1..] + b;
      if first.error.None? {
        StopsThere(first.machine, a[1..], b);
        var later := Run(first.machine, a[1..]);
        PrefixTwice(first.text, later.text, Run(later.machine, b));
      }
    }
  }

  // ----- the state behind an undecodable string -----

  /** Holds along every reading from the start that has met no error. */
  predicate Reached(m: Machine) {
    && (!m.started ==> m == INIT)
    && (m.keyExpected ==> m.key == "")
    && (m.inString ==> m.started && m.depth > 0 && !m.valueExpected)
    && (m.publicValue ==> m.inString && m.depth == 1 && IsPublicKey(m.key))
  }

  predicate BadKey(m: Machine) {
    m.started && m.depth == 1 && !m.inString && !m.escaped && !m.valueExpected && m.keyExpected && m.key == "" && !m.publicValue
  }

  predicate BadValue(m: Machine) {
    m.started && m.depth == 1 && !m.inString && !m.escaped && !m.valueExpected && !m.keyExpected && m.publicValue
  }

  lemma StepReached(m: Machine, ch: char)
    requires Reached(m)
    ensures Step(m, ch).error.None? ==> Reached(Step(m, ch).machine)
    ensures Step(m, ch).error == Some(BadString) ==> BadKey(Step(m, ch).machine) || BadValue(Step(m, ch).machine)
  {
  }

  lemma {:induction false} RunReached(m: Machine, text: string)
    requires Reached(m)
    ensures Run(m, text).error == Some(BadString) ==> BadKey(Run(m, text).machine) || BadValue(Run(m, text).machine)
    decreases |text|
  {
    if text != "" {
      StepReached(m, text[0]);
      if Step(m, text[0]).error.None? {
        RunReached(Step(m, text[0]).machine, text[1..]);
      }
    }
  }

  // ----- texts that say nothing there -----

  predicate IsStructure(c: char) {
    c == '"' || c == '{' || c == '}' || c == '[' || c == ']'
  }

  predicate NoStructure(s: string) {
    forall i :: 0 <= i < |s| ==> !IsStructure(s[i])
  }

  /** Every colon has a comma behind it. */
  predicate ColonsClosed(s: string) {
    forall i :: 0 <= i < |s| && s[i] == ':' ==> exists j :: i < j < |s| && s[j] == ','
  }

  predicate NoSeparator(s: string) {
    forall i :: 0 <= i < |s| ==> s[i] != ':' && s[i] != ','
  }

  /** Behind a bad key commas do nothing and colons nothing that a comma does not undo; behind a bad value both count. */
  predicate Inert(m: Machine, s: string) {
    NoStructure(s) && if m.keyExpected then ColonsClosed(s) else NoSeparator(s)
  }

  /** Nothing is emitted, reported or changed by reading any last part of the text. */
  predicate TailsQuiet(m: Machine, s: string) {
    forall k :: 0 <= k <= |s| ==> Run(m, s[k..]) == Quiet(m)
  }

  /** Whether a value is expected after the text, outside strings at depth one. */
  function Expecting(s: string, before: bool): bool {
    if s == "" then before else Expecting(s[1..], if s[0] == ':' then true else if s[0] == ',' then false else before)
  }

  lemma {:induction false} KeepsExpecting(s: string)
    ensures (forall j :: 0 <= j < |s| ==> s[j] != ',') ==> Expecting(s, true)
  {
    if s != "" {
      KeepsExpecting(s[1..]);
      assert forall j :: 0 <= j < |s[1..]| ==> s[1..][j] == s[j + 1];
    }
  }

  lemma {:induction false} ClosedIsNotExpecting(s: string, before: bool)
    requires ColonsClosed(s) && (before ==> exists j :: 0 <= j < |s| && s[j] == ',')
    ensures !Expecting(s, before)
  {
    if s != "" {
      var rest := s[1..];
      ClosedTail(s);
      if s[0] == ':' {
        var j :| 0 < j < |s| && s[j] == ',';
        assert rest[j - 1] == ',';
        ClosedIsNotExpecting(rest, true);
      } else if s[0] == ',' {
        ClosedIsNotExpecting(rest, false);
      } else {
        if before {
          var j :| 0 <= j < |s| && s[j] == ',';
          assert rest[j - 1] == ',';
        }
        ClosedIsNotExpecting(rest, before);
      }
    }
  }

  lemma ClosedTail(s: string)
    requires s != "" && ColonsClosed(s)
    ensures ColonsClosed(s[1..])
  {
    var rest := s[1..];
    forall i | 0 <= i < |rest| && rest[i] == ':' ensures exists j :: i < j < |rest| && rest[j] == ',' {
      assert s[i + 1] == ':';
      var j :| i + 1 < j < |s| && s[j] == ',';
      assert rest[j - 1] == ',';
    }
  }

  lemma {:induction false} ReadPastKey(m: Machine, s: string)
    requires m.started && m.depth == 1 && !m.inString && m.keyExpected && m.key == "" && NoStructure(s)
    ensures Run(m, s) == Quiet(m.(valueExpected := Expecting(s, m.valueExpected)))
    decreases |s|
  {
    if s != "" {
      assert !IsStructure(s[0]);
      ReadPastKey(Step(m, s[0]).machine, s[1..]);
    }
  }

  lemma {:induction false} ReadPastOthers(m: Machine, s: string)
    requires m.started && m.depth > 0 && !m.inString && NoStructure(s) && (m.depth == 1 ==> NoSeparator(s))
    ensures Run(m, s) == Quiet(m)
    decreases |s|
  {
    if s != "" {
      assert !IsStructure(s[0]);
      ReadPastOthers(m, s[1..]);
    }
  }

  lemma {:induction false} StaysInString(m: Machine, s: string)
    requires m.started && m.depth > 0 && m.inString && NoStructure(s)
    ensures Run(m, s).error.Some? || Run(m, s).machine.inString
    decreases |s|
  {
    if s != "" {
      assert !IsStructure(s[0]);
      if Step(m, s[0]).error.None? {
        StaysInString(Step(m, s[0]).machine, s[1..]);
      }
    }
  }

  lemma {:induction false} StaysOutside(m: Machine, s: string)
    requires m.started && m.depth == 0
    ensures Run(m, s).error.Some? || Run(m, s).machine == m
    decreases |s|
  {
    if s != "" && Step(m, s[0]).error.None? {
      StaysOutside(m, s[1..]);
    }
  }

  lemma InertIsQuiet(m: Machine, s: string)
    requires (BadKey(m) || BadValue(m)) && Inert(m, s)
    ensures Run(m, s) == Quiet(m)
  {
    if m.keyExpected {
      ReadPastKey(m, s);
      ClosedIsNotExpecting(s, false);
    } else {
      ReadPastOthers(m, s);
    }
  }

  lemma {:induction false} InertTails(m: Machine, s: string, k: nat)
    requires Inert(m, s) && k <= |s|
    ensures Inert(m, s[k..])
    decreases k
  {
    if k == 0 {
      assert s[k..] == s;
    } else {
      if m.keyExpected {
        ClosedTail(s);
      }
      InertTails(m, s[1..], k - 1);
      assert s[1..][k - 1..] == s[k..];
    }
  }

  /** The first character in front of a text that says nothing. */
  lemma QuietFirst(m: Machine, s: string)
    requires (BadKey(m) || BadValue(m)) && s != "" && Inert(m, s[1..])
    requires Run(m, s) == Quiet(m)
    ensures Inert(m, s)
  {
    var c, rest := s[0], s[1..];
    var m1 := Step(m, c).machine;
    assert Step(m, c) == Quiet(Outside(m, c));
    assert Run(m, s).machine == Run(m1, rest).machine && Run(m, s).error == Run(m1, rest).error;
    if c == '"' {
      StaysInString(m1, rest);
    } else if c == '}' || c == ']' {
      StaysOutside(m1, rest);
    } else if c == '{' || c == '[' {
      ReadPastOthers(m1, rest);
    } else if !m.keyExpected {
      ReadPastOthers(m1, rest);
      assert c != ':' && c != ',';
    } else {
      ReadPastKey(m1, rest);
      if c == ':' {
        KeepsExpecting(rest);
        var j :| 0 <= j < |rest| && rest[j] == ',';
        assert s[j + 1] == ',';
      }
      ClosedAgain(s);
    }
  }

  lemma ClosedAgain(s: string)
    requires s != "" && ColonsClosed(s[1..]) && (s[0] == ':' ==> exists j :: 0 < j < |s| && s[j] == ',')
    ensures ColonsClosed(s)
  {
    var rest := s[1..];
    forall i | 0 <= i < |s| && s[i] == ':' ensures exists j :: i < j < |s| && s[j] == ',' {
      if i > 0 {
        assert rest[i - 1] == ':';
        var j :| i - 1 < j < |rest| && rest[j] == ',';
        assert s[j + 1] == ',';
      }
    }
  }

  /** A text says nothing, from wherever it is read, exactly when it is inert. */
  lemma {:induction false} TailsQuietIff(m: Machine, s: string)
    requires BadKey(m) || BadValue(m)
    ensures TailsQuiet(m, s) <==> Inert(m, s)
  {
    if Inert(m, s) {
      forall k | 0 <= k <= |s| ensures Run(m, s[k..]) == Quiet(m) {
        InertTails(m, s, k);
        InertIsQuiet(m, s[k..]);
      }
    }
    if TailsQuiet(m, s) && s != "" {
      forall k | 0 <= k <= |s[1..]| ensures Run(m, s[1..][k..]) == Quiet(m) {
        assert s[1..][k..] == s[k + 1..];
      }
      TailsQuietIff(m, s[1..]);
      assert s[0..] == s;
      QuietFirst(m, s);
    }
  }

  // ----- chunkings that agree -----

  /** The chunks give the text, the errors and the last state of one push of their concatenation. */
  predicate Agrees(s: Stream, chunks: seq<string>) {
    var one, all := PushSpec(s, Join(chunks)), PushAll(s, chunks);
    && all.text == one.text && all.errors == Errors(one.error)
    && all.stream.machine == one.stream.machine && all.stream.failed == one.stream.failed
  }

  /** Nobody can tell how the text was split. */
  ghost predicate AllAgree(text: string) {
    forall chunks :: Join(chunks) == text ==> Agrees(FRESH, chunks)
  }

  /** The first push stops, and the others say nothing. */
  lemma StopThenQuiet(s: Stream, chunks: seq<string>)
    requires chunks != [] && !s.failed && s.totalBytes + Utf8Len(Join(chunks)) <= MAX_EVENT_BYTES
    requires Run(s.machine, chunks[0]) == Run(s.machine, Join(chunks)) && Run(s.machine, chunks[0]).error == Some(BadString)
    requires var m := Run(s.machine, chunks[0]).machine; Run(m, Join(chunks[1..])) == Quiet(m)
    ensures Agrees(s, chunks)
  {
    var first := PushSpec(s, chunks[0]);
    Utf8LenConcat(chunks[0], Join(chunks[1..]));
    ChunksAgree(first.stream, chunks[1..]);
    assert first.text + "" == first.text;
    assert Errors(first.error) + [] == Errors(first.error);
  }

  /** The first push does not stop, and the others agree behind it. */
  lemma GoOnAndAgree(s: Stream, chunks: seq<string>)
    requires chunks != [] && !s.failed && s.totalBytes + Utf8Len(Join(chunks)) <= MAX_EVENT_BYTES
    requires Run(s.machine, chunks[0]).error.None?
    requires Agrees(PushSpec(s, chunks[0]).stream, chunks[1..])
    ensures Agrees(s, chunks)
  {
    Utf8LenConcat(chunks[0], Join(chunks[1..]));
    RunConcat(s.machine, chunks[0], Join(chunks[1..]));
  }

  lemma {:induction false} QuietTailsAgree(s: Stream, chunks: seq<string>)
    requires !s.failed && s.totalBytes + Utf8Len(Join(chunks)) <= MAX_EVENT_BYTES
    requires Run(s.machine, Join(chunks)).error == Some(BadString)
    requires TailsQuiet(Run(s.machine, Join(chunks)).machine, Unread(s.machine, Join(chunks)))
    ensures Agrees(s, chunks)
    decreases |chunks|
  {
    if chunks != [] {
      var a, b := chunks[0], Join(chunks[1..]);
      var n := ReadCount(s.machine, a + b);
      StopsThere(s.machine, a, b);
      Utf8LenConcat(a, b);
      if n <= |a| {
        assert Unread(s.machine, a + b)[|a| - n..] == b;
        StopThenQuiet(s, chunks);
      } else {
        assert Unread(s.machine, a + b) == Unread(Run(s.machine, a).machine, b);
        QuietTailsAgree(PushSpec(s, a).stream, chunks[1..]);
        GoOnAndAgree(s, chunks);
      }
    }
  }

  lemma JoinTwo(a: string, b: string)
    ensures Join([a, b]) == a + b
  {
    assert [a, b][1..] == [b] && [b][1..] == [];
    assert Join([b]) == b + Join([]) == b;
  }

  lemma PushTwo(a: string, b: string)
    requires Utf8Len(a + b) <= MAX_EVENT_BYTES && (Run(INIT, a).error.None? || Run(INIT, a).error == Some(BadString))
    ensures var first := Run(INIT, a); var second := Run(first.machine, b); var all := PushAll(FRESH, [a, b]);
      && all.text == first.text + second.text
      && all.errors == Errors(first.error) + Errors(second.error)
      && all.stream.machine == second.machine
  {
    var s := PushSpec(FRESH, a).stream;
    var second := PushSpec(s, b);
    Utf8LenConcat(a, b);
    assert [a, b][1..] == [b] && [b][1..] == [];
    assert PushAll(second.stream, []) == AllPushed(second.stream, "", []);
    assert second.text + "" == second.text && Errors(second.error) + [] == Errors(second.error);
    assert PushAll(s, [b]) == AllPushed(second.stream, second.text, Errors(second.error));
  }

  /** Splitting the text `k` characters behind the place where one push stops. */
  lemma SplitBehind(text: string, k: nat)
    requires Utf8Len(text) <= MAX_EVENT_BYTES && Run(INIT, text).error == Some(BadString)
    requires k <= |Unread(INIT, text)|
    requires var n := ReadCount(INIT, text) + k; Agrees(FRESH, [text[..n], text[n..]])
    ensures var m := Run(INIT, text).machine; Run(m, Unread(INIT, text)[k..]) == Quiet(m)
  {
    var n := ReadCount(INIT, text) + k;
    var a, b := text[..n], text[n..];
    assert text == a + b;
    StopsThere(INIT, a, b);
    PushTwo(a, b);
    JoinTwo(a, b);
    assert Unread(INIT, text)[k..] == b;
    var m, said := Run(INIT, text).machine, Run(INIT, text).text;
    var second := Run(m, b);
    assert said + second.text == said && [BadString] + Errors(second.error) == [BadString];
    assert |second.text| == 0 && |Errors(second.error)| == 0;
  }

  /**
    Main result: the chunking of a text of at most 1 MiB never shows if and only if no string of it that has to decode
    fails to, or what stands behind the first that fails is inert there.
   */
  lemma AllAgreeIff(text: string)
    requires Utf8Len(text) <= MAX_EVENT_BYTES
    ensures var one := Run(INIT, text);
      AllAgree(text) <==> (one.error != Some(BadString) || Inert(one.machine, Unread(INIT, text)))
  {
    var one, unread := Run(INIT, text), Unread(INIT, text);
    if one.error != Some(BadString) {
      forall chunks | Join(chunks) == text ensures Agrees(FRESH, chunks) {
        ChunksAgree(FRESH, chunks);
      }
    } else {
      RunReached(INIT, text);
      TailsQuietIff(one.machine, unread);
      if Inert(one.machine, unread) {
        forall chunks | Join(chunks) == text ensures Agrees(FRESH, chunks) {
          QuietTailsAgree(FRESH, chunks);
        }
      }
      if AllAgree(text) {
        forall k | 0 <= k <= |unread| ensures Run(one.machine, unread[k..]) == Quiet(one.machine) {
          var n := ReadCount(INIT, text) + k;
          assert text == text[..n] + text[n..];
          JoinTwo(text[..n], text[n..]);
          SplitBehind(text, k);
        }
      }
    }
  }

  // ----- what is lost behind a bad key -----

  /** The inside of a string: its closing quote is the first bare one. */
  predicate IsInside(k: string) {
    NoBareQuote(k, false) && !Toggle(k, false)
  }

  function StartWith(k: string): string {
    "{\"" + k + "\""
  }

  function AfterKey(k: string): Machine {
    INIT.(started := true, depth := 1, keyExpected := true, token := k)
  }

  /** The filter stops at the end of a bad key, still expecting a key and still holding the bad one. */
  lemma ReadBadKey(k: string)
    requires IsInside(k) && DecodeString(k).None? && Utf8Len(k) <= MAX_EVENT_BYTES
    ensures Run(INIT, StartWith(k)) == Outcome(AfterKey(k), "", Some(BadString))
  {
    var m1 := INIT.(started := true, depth := 1, keyExpected := true);
    var m2, m3 := m1.(inString := true), m1.(inString := true, token := k);
    One(INIT, '{', "", m1);
    One(m1, '"', "", m2);
    CollectKey(m2, k);
    assert "" + k == k;
    Silent(m1, "\"", m2, k, "", m3);
    Silent(INIT, "{", m1, "\"" + k, "", m3);
    assert "\"" == ['"'] && ['"'][1..] == "";
    assert Run(m3, "\"") == Outcome(AfterKey(k), "", Some(BadString));
    assert StartWith(k) == ("{" + ("\"" + k)) + "\"";
    assert Run(INIT, "{" + ("\"" + k)) == Outcome(m3, "", None);
    RunConcat(INIT, "{" + ("\"" + k), "\"");
  }

  /** A later push is read as if the bad key had been a complete member. */
  lemma ReadFirstBlank(k: string, ms: seq<Member>)
    requires ms != [] && ValidMembers(ms) && Decodable(ms) && Utf8Len(MembersText(ms)) <= MAX_EVENT_BYTES
    ensures Run(AfterKey(k), MembersText(ms)).text == PublicText(ms) && Run(AfterKey(k), MembersText(ms)).error == None
  {
    var m, m0, t := AfterKey(k), AfterKey(k).(token := ""), MembersText(ms);
    var blank, rest := ms[0].beforeKey, t[|ms[0].beforeKey|..];
    assert t == blank + rest && rest[0] == '"';
    var last := ReadMembers(m0, ms);
    SkipBlank(m, blank);
    SkipBlank(m0, blank);
    RunConcat(m0, blank, rest);
    assert Step(m, rest[0]) == Step(m0, rest[0]);
    assert Leads(m, rest, PublicText(ms), last);
    Silent(m, blank, m, rest, PublicText(ms), last);
  }

  lemma ReadLater(k: string, ms: seq<Member>)
    requires ms != [] && ValidMembers(ms) && Decodable(ms) && Utf8Len("," + MembersText(ms)) <= MAX_EVENT_BYTES
    ensures var r := Run(AfterKey(k), "," + MembersText(ms)); r.text == PublicText(ms) && r.error == None
  {
    var m, t := AfterKey(k), MembersText(ms);
    Utf8LenConcat(",", t);
    ReadFirstBlank(k, ms);
    One(m, ',', "", m);
    Silent(m, ",", m, t, PublicText(ms), Run(m, t).machine);
  }

  /**
    Behind any bad first key: a single push loses all public text of the members that follow, while a push that starts
    there loses none of it.
   */
  lemma BadKeyHidesMembers(k: string, ms: seq<Member>)
    requires IsInside(k) && DecodeString(k).None?
    requires ms != [] && ValidMembers(ms) && Decodable(ms)
    requires Utf8Len(StartWith(k) + ("," + MembersText(ms))) <= MAX_EVENT_BYTES
    ensures PushAll(FRESH, [StartWith(k) + ("," + MembersText(ms))]).text == ""
    ensures PushAll(FRESH, [StartWith(k), "," + MembersText(ms)]).text == PublicText(ms)
  {
    var start, later := StartWith(k), "," + MembersText(ms);
    Utf8LenConcat(start, later);
    StartHolds(k);
    ReadBadKey(k);
    RunConcat(INIT, start, later);
    ReadLater(k, ms);
    PushTwo(start, later);
    assert "" + PublicText(ms) == PublicText(ms);
    assert [start + later][1..] == [];
    assert PushAll(FRESH, [start + later]).text == PushSpec(FRESH, start + later).text + "";
  }

  lemma StartHolds(k: string)
    ensures Utf8Len(k) <= Utf8Len(StartWith(k))
  {
    Utf8LenConcat("{\"", k);
    Utf8LenConcat("{\"" + k, "\"");
  }

  /** Such a key. */
  lemma SomeBadKey()
    ensures IsInside("\\q") && DecodeString("\\q").None?
  {
    assert "\\q"[1..] == "q" && "q"[1..] == "";
  }
}
