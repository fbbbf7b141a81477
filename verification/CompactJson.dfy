/**
  `compact_json_text` (core/agent/src/capability.rs) drops the whitespace between the tokens of a JSON text. Its own
  small string lexer agrees with that of the JSON filter, so compacting a text does not change what the filter emits.
 */
module CompactJson {
  import opened Wrappers
  import opened Text
  import opened JsonText
  import opened JsonStream
  import opened JsonDocuments

  /** Whether the reader is inside a string, and behind a backslash there. */
  datatype Reader = Reader(inString: bool, escaped: bool)

  const START := Reader(false, false)

  predicate Keeps(r: Reader, c: char) {
    r.inString || c == '"' || !IsWhitespace(c)
  }

  function Next(r: Reader, c: char): Reader {
    if !r.inString then (if c == '"' then r.(inString := true) else r)
    else if r.escaped then Reader(true, false)
    else Reader(c != '"', c == '\\')
  }

  /** What is kept of a text. */
  function Compact(s: string, r: Reader): string {
    if s == "" then "" else (if Keeps(r, s[0]) then [s[0]] else "") + Compact(s[1..], Next(r, s[0]))
  }

  method CompactText(raw: string) returns (output: string)
    ensures output == Compact(raw, START)
  {
    output := "";
    var inString, escaped := false, false;
    for i := 0 to |raw|
      invariant output + Compact(raw[i..], Reader(inString, escaped)) == Compact(raw, START)
    {
      var ch := raw[i];
      ghost var said, r := output, Reader(inString, escaped);
      assert raw[i..][1..] == raw[i + 1..];
      if inString {
        output := output + [ch];
        if escaped {
          escaped := false;
        } else if ch == '\\' {
          escaped := true;
        } else if ch == '"' {
          inString := false;
        }
      } else if ch == '"' {
        inString := true;
        output := output + [ch];
      } else if !IsWhitespace(ch) {
        output := output + [ch];
      }
      assert Reader(inString, escaped) == Next(r, ch);
      KeepOne(said, r, ch, Compact(raw[i + 1..], Next(r, ch)));
    }
    assert output + "" == output;
  }

  lemma KeepOne(said: string, r: Reader, c: char, later: string)
    ensures said + ((if Keeps(r, c) then [c] else "") + later) == (if Keeps(r, c) then said + [c] else said) + later
  {
    assert "" + later == later;
    assert said + ([c] + later) == (said + [c]) + later;
  }

  predicate Sane(m: Machine) {
    m.inString ==> m.started && m.depth > 0
  }

  /** The reader that follows the filter. */
  function Following(m: Machine): Reader {
    Reader(m.inString, m.inString && m.escaped)
  }

  /** Both lexers move the same way. */
  lemma SameMove(m: Machine, c: char)
    requires Sane(m) && Step(m, c).error.None?
    ensures Sane(Step(m, c).machine) && Following(Step(m, c).machine) == Next(Following(m), c)
  {
  }

  lemma DroppedChar(m: Machine, c: char)
    requires Sane(m) && !Keeps(Following(m), c) && Step(m, c).error.None?
    ensures Step(m, c) == Quiet(m)
  {
  }

  /** A text that the filter reads without an error reads the same when compacted, from any state. */
  lemma {:induction false} CompactReadsTheSame(m: Machine, s: string)
    requires Sane(m) && Run(m, s).error.None?
    ensures Run(m, Compact(s, Following(m))) == Run(m, s)
    decreases |s|
  {
    if s != "" {
      var m1 := Step(m, s[0]).machine;
      var t := Compact(s[1..], Following(m1));
      SameMove(m, s[0]);
      CompactReadsTheSame(m1, s[1..]);
      if Keeps(Following(m), s[0]) {
        assert ([s[0]] + t)[1..] == t;
      } else {
        DroppedChar(m, s[0]);
        assert "" + t == t;
        assert "" + Run(m, s[1..]).text == Run(m, s[1..]).text;
      }
    }
  }

  lemma {:induction false} CompactIsShorter(s: string, r: Reader)
    ensures Utf8Len(Compact(s, r)) <= Utf8Len(s)
  {
    if s != "" {
      var t := Compact(s[1..], Next(r, s[0]));
      CompactIsShorter(s[1..], Next(r, s[0]));
      assert "" + t == t;
      assert ([s[0]] + t)[1..] == t;
    }
  }

  /** Compacting a whole document first changes nothing, however the compacted text is split. */
  lemma CompactDocument(doc: Json, chunks: seq<string>)
    requires doc.core.Obj? && ValidJson(doc) && Decodable(doc.core.members)
    requires Utf8Len(JsonString(doc)) <= MAX_EVENT_BYTES
    requires Join(chunks) == Compact(JsonString(doc), START)
    ensures PushAll(FRESH, chunks).text == PublicText(doc.core.members) && PushAll(FRESH, chunks).errors == []
  {
    var last := ReadRoot(doc);
    CompactReadsTheSame(INIT, JsonString(doc));
    CompactIsShorter(JsonString(doc), START);
    ChunksAgree(FRESH, chunks);
  }
}
