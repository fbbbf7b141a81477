/** Replayed prompt-cache marks. */
module KvcReplay {
  // Marks over recorded requests (scripts/kvc_replay.py).

  import opened Wrappers

  const LOOKBACK_BLOCKS: nat := 20

  datatype Block = Block(role: string, text: string)

  /** The text of a request up to a block, and its length as the script counts it. */
  datatype Prefix = Prefix(key: string, chars: nat)

  function Part(b: Block): string {
    "\n<" + b.role + ">\n" + b.text
  }

  function Text(bs: seq<Block>): string {
    if bs == [] then "" else Text(bs[..|bs| - 1]) + Part(bs[|bs| - 1])
  }

  predicate ArePrefixesOf(prefixes: seq<Prefix>, bs: seq<Block>) {
    && |prefixes| == |bs|
    && forall k :: 0 <= k < |bs| ==> prefixes[k] == Prefix(Text(bs[..k + 1]), |Text(bs[..k + 1])|)
  }

  lemma OneMorePrefix(prefixes: seq<Prefix>, bs: seq<Block>, i: nat)
    requires i < |bs| && ArePrefixesOf(prefixes, bs[..i])
    ensures ArePrefixesOf(prefixes + [Prefix(Text(bs[..i + 1]), |Text(bs[..i + 1])|)], bs[..i + 1])
  {
    var longer := prefixes + [Prefix(Text(bs[..i + 1]), |Text(bs[..i + 1])|)];
    forall k | 0 <= k < i + 1 ensures longer[k] == Prefix(Text(bs[..i + 1][..k + 1]), |Text(bs[..i + 1][..k + 1])|) {
      assert bs[..i + 1][..k + 1] == bs[..k + 1];
      if k < i {
        assert bs[..i][..k + 1] == bs[..k + 1];
      }
    }
  }

  method PlanPrefixes(bs: seq<Block>) returns (prefixes: seq<Prefix>, totalChars: nat)
    ensures ArePrefixesOf(prefixes, bs)
    ensures totalChars == |Text(bs)|
  {
    var prefix := "";
    prefixes, totalChars := [], 0;
    for i := 0 to |bs|
      invariant prefix == Text(bs[..i]) && totalChars == |prefix|
      invariant ArePrefixesOf(prefixes, bs[..i])
    {
      assert bs[..i + 1][..i] == bs[..i];
      var part := Part(bs[i]);
      prefix := prefix + part;
      totalChars := totalChars + |part|;
      OneMorePrefix(prefixes, bs, i);
      prefixes := prefixes + [Prefix(prefix, totalChars)];
    }
    assert bs[..|bs|] == bs;
  }

  // ----- one request -----

  function First(idx: nat): nat {
    if idx < LOOKBACK_BLOCKS then 0 else idx - LOOKBACK_BLOCKS + 1
  }

  /** The length of the longest stored prefix that ends in blocks lo..hi-1. */
  function BestHit(prefixes: seq<Prefix>, lo: nat, hi: nat, store: set<string>): nat
    requires lo <= hi <= |prefixes|
  {
    if lo == hi then 0
    else if prefixes[hi - 1].key in store then prefixes[hi - 1].chars
    else BestHit(prefixes, lo, hi - 1, store)
  }

  function Larger(a: nat, b: nat): nat {
    if a >= b then a else b
  }

  /** What the marks below `n` read. */
  function ReadUpTo(prefixes: seq<Prefix>, marks: set<nat>, store: set<string>, n: nat): nat
    requires n <= |prefixes|
  {
    if n == 0 then 0
    else if n - 1 in marks then
      Larger(ReadUpTo(prefixes, marks, store, n - 1), BestHit(prefixes, First(n - 1), n, store))
    else ReadUpTo(prefixes, marks, store, n - 1)
  }

  function WriteEnd(prefixes: seq<Prefix>, marks: set<nat>, store: set<string>, n: nat): nat
    requires n <= |prefixes|
  {
    if n == 0 then 0
    else if n - 1 in marks && prefixes[n - 1].key !in store then
      Larger(WriteEnd(prefixes, marks, store, n - 1), prefixes[n - 1].chars)
    else WriteEnd(prefixes, marks, store, n - 1)
  }

  function Read(prefixes: seq<Prefix>, marks: set<nat>, store: set<string>): nat {
    ReadUpTo(prefixes, marks, store, |prefixes|)
  }

  function Created(prefixes: seq<Prefix>, marks: set<nat>, store: set<string>): nat {
    var written, read := WriteEnd(prefixes, marks, store, |prefixes|), Read(prefixes, marks, store);
    if written > read then written - read else 0
  }

  function Written(prefixes: seq<Prefix>, marks: set<nat>): set<string> {
    set k | k in marks && k < |prefixes| :: prefixes[k].key
  }

  method ReplayCacheMarks(prefixes: seq<Prefix>, marks: set<nat>, store: set<string>)
    returns (read: nat, created: nat, stored: set<string>)
    ensures read == Read(prefixes, marks, store)
    ensures created == Created(prefixes, marks, store)
    ensures stored == store + Written(prefixes, marks)
  {
    read, stored := 0, store;
    var writeEnd := 0;
    for idx := 0 to |prefixes|
      invariant read == ReadUpTo(prefixes, marks, store, idx)
      invariant writeEnd == WriteEnd(prefixes, marks, store, idx)
      invariant stored == store + set k | k in marks && k < idx :: prefixes[k].key
    {
      if idx in marks {
        var bestHit := Probe(prefixes, idx, store);
        read := Larger(read, bestHit);
        if prefixes[idx].key !in store {
          writeEnd := Larger(writeEnd, prefixes[idx].chars);
        }
        stored := stored + {prefixes[idx].key};
      }
    }
    created := if writeEnd > read then writeEnd - read else 0;
  }

  /** Looking back from a mark for a stored prefix. */
  method Probe(prefixes: seq<Prefix>, idx: nat, store: set<string>) returns (bestHit: nat)
    requires idx < |prefixes|
    ensures bestHit == BestHit(prefixes, First(idx), idx + 1, store)
  {
    var probe := idx + 1;
    while probe > First(idx)
      invariant First(idx) <= probe <= idx + 1
      invariant BestHit(prefixes, First(idx), idx + 1, store) == BestHit(prefixes, First(idx), probe, store)
    {
      probe := probe - 1;
      if prefixes[probe].key in store {
        return prefixes[probe].chars;
      }
    }
    bestHit := 0;
  }

  lemma {:induction false} BestHitStored(prefixes: seq<Prefix>, lo: nat, hi: nat, store: set<string>)
    requires lo <= hi <= |prefixes|
    ensures var hit := BestHit(prefixes, lo, hi, store);
      hit == 0 || exists k :: 0 <= k < |prefixes| && prefixes[k].key in store && prefixes[k].chars == hit
  {
    if lo < hi && prefixes[hi - 1].key !in store {
      BestHitStored(prefixes, lo, hi - 1, store);
    }
  }

  /** What a request reads is the length of one of its prefixes, and that prefix is in the store. */
  lemma {:induction false} ReadStored(prefixes: seq<Prefix>, marks: set<nat>, store: set<string>, n: nat)
    requires n <= |prefixes|
    ensures var read := ReadUpTo(prefixes, marks, store, n);
      read == 0 || exists k :: 0 <= k < |prefixes| && prefixes[k].key in store && prefixes[k].chars == read
  {
    if n > 0 {
      ReadStored(prefixes, marks, store, n - 1);
      BestHitStored(prefixes, First(n - 1), n, store);
    }
  }

  lemma {:induction false} WriteEndIsPrefix(prefixes: seq<Prefix>, marks: set<nat>, store: set<string>, n: nat)
    requires n <= |prefixes|
    ensures var end := WriteEnd(prefixes, marks, store, n); end == 0 || exists k :: 0 <= k < n && prefixes[k].chars == end
  {
    if n > 0 {
      WriteEndIsPrefix(prefixes, marks, store, n - 1);
    }
  }

  // ----- runs of requests -----

  datatype Request = Request(blocks: seq<Block>, marks: set<nat>)

  function Prefixes(bs: seq<Block>): (prefixes: seq<Prefix>)
    ensures ArePrefixesOf(prefixes, bs)
  {
    if bs == [] then []
    else
      var before := Prefixes(bs[..|bs| - 1]);
      OneMorePrefix(before, bs, |bs| - 1);
      assert bs[..|bs|] == bs;
      before + [Prefix(Text(bs), |Text(bs)|)]
  }

  /** The store after the requests, starting from an empty one. */
  function Store(requests: seq<Request>): set<string> {
    if requests == [] then {}
    else
      var last := requests[|requests| - 1];
      Store(requests[..|requests| - 1]) + Written(Prefixes(last.blocks), last.marks)
  }

  lemma {:induction false} TextPrefix(bs: seq<Block>, k: nat)
    requires k <= |bs|
    ensures |Text(bs[..k])| <= |Text(bs)| && Text(bs)[..|Text(bs[..k])|] == Text(bs[..k])
  {
    if k == |bs| {
      assert bs[..k] == bs;
    } else {
      var before := bs[..|bs| - 1];
      assert before[..k] == bs[..k];
      TextPrefix(before, k);
      assert Text(bs)[..|Text(bs[..k])|] == Text(before)[..|Text(bs[..k])|];
    }
  }

  /** Both texts start with the same `n` characters. */
  predicate Shares(a: Request, b: Request, n: nat) {
    && n <= |Text(a.blocks)| && n <= |Text(b.blocks)|
    && Text(a.blocks)[..n] == Text(b.blocks)[..n]
  }

  lemma WrittenIsPrefix(bs: seq<Block>, marks: set<nat>, key: string)
    requires key in Written(Prefixes(bs), marks)
    ensures |key| <= |Text(bs)| && Text(bs)[..|key|] == key
  {
    var k :| k in marks && k < |Prefixes(bs)| && Prefixes(bs)[k].key == key;
    TextPrefix(bs, k + 1);
  }

  lemma {:induction false} StoreComesFrom(requests: seq<Request>, key: string) returns (j: nat)
    requires key in Store(requests)
    ensures j < |requests|
    ensures |key| <= |Text(requests[j].blocks)| && Text(requests[j].blocks)[..|key|] == key
  {
    var n := |requests| - 1;
    if key in Written(Prefixes(requests[n].blocks), requests[n].marks) {
      WrittenIsPrefix(requests[n].blocks, requests[n].marks, key);
      j := n;
    } else {
      j := StoreComesFrom(requests[..n], key);
    }
  }

  /** Every request of a run reads the length of a text it really shares with an earlier request. */
  lemma ReadIsShared(requests: seq<Request>, i: nat)
    requires i < |requests|
    ensures var read := Read(Prefixes(requests[i].blocks), requests[i].marks, Store(requests[..i]));
      read == 0 || exists j :: 0 <= j < i && Shares(requests[i], requests[j], read)
  {
    var now, store := requests[i], Store(requests[..i]);
    var prefixes := Prefixes(now.blocks);
    var read := Read(prefixes, now.marks, store);
    ReadStored(prefixes, now.marks, store, |prefixes|);
    if read != 0 {
      var k :| 0 <= k < |prefixes| && prefixes[k].key in store && prefixes[k].chars == read;
      TextPrefix(now.blocks, k + 1);
      var j := StoreComesFrom(requests[..i], prefixes[k].key);
      assert Shares(now, requests[j], read);
    }
  }

  /** A request never reads and creates more than it holds. */
  lemma ReadPlusCreatedFits(bs: seq<Block>, marks: set<nat>, store: set<string>)
    ensures Read(Prefixes(bs), marks, store) + Created(Prefixes(bs), marks, store) <= |Text(bs)|
  {
    var prefixes := Prefixes(bs);
    forall k | 0 <= k < |prefixes| ensures prefixes[k].chars <= |Text(bs)| {
      TextPrefix(bs, k + 1);
    }
    ReadStored(prefixes, marks, store, |prefixes|);
    WriteEndIsPrefix(prefixes, marks, store, |prefixes|);
  }

  // ----- checkpoints -----

  datatype Segment = Segment(text: string, deltaId: Option<string>, promptType: Option<string>)

  function Blocks(staticPrompt: string, segments: seq<Segment>): seq<Block> {
    if segments == [] then [Block("system", staticPrompt)]
    else
      var last := segments[|segments| - 1];
      Blocks(staticPrompt, segments[..|segments| - 1]) + if last.text != "" then [Block("user", last.text)] else []
  }

  function LastDelta(segments: seq<Segment>): Option<string> {
    if segments == [] then None else segments[|segments| - 1].deltaId
  }

  predicate IsStable(segment: Segment, lastDelta: Option<string>) {
    segment.promptType == Some("llm_response") && segment.deltaId != lastDelta
  }

  /** The indexes of the assistant segments that belong to an earlier delta than the last. */
  function StableUpTo(segments: seq<Segment>, lastDelta: Option<string>, n: nat): seq<nat>
    requires n <= |segments|
  {
    if n == 0 then []
    else StableUpTo(segments, lastDelta, n - 1) + if IsStable(segments[n - 1], lastDelta) then [n - 1] else []
  }

  function Stable(segments: seq<Segment>): seq<nat> {
    StableUpTo(segments, LastDelta(segments), |segments|)
  }

  /** The ordinal of the newest checkpoint among the stable segments. */
  function Newest(count: nat, threshold: nat): nat
    requires count > 0 && threshold > 0
  {
    (count - 1) / threshold * threshold
  }

  function Marks(stable: seq<nat>, ordinal: nat, threshold: nat, checkpoints: nat): (marks: set<nat>)
    requires ordinal < |stable|
    ensures 0 in marks
  {
    if checkpoints == 0 then {0}
    else
      var offset := (checkpoints - 1) * threshold;
      Marks(stable, ordinal, threshold, checkpoints - 1) +
      if ordinal >= offset then {1 + stable[ordinal - offset]} else {}
  }

  lemma Divides(n: nat, d: nat)
    requires d > 0
    ensures 0 <= n / d * d <= n < n / d * d + d
  {
    assert n == d * (n / d) + n % d;
    assert d * (n / d) == n / d * d;
    assert 0 <= n % d < d;
  }

  lemma Multiples(a: nat, b: nat, d: nat)
    requires a <= b
    ensures a * d <= b * d
  {
  }

  lemma NewestBounds(count: nat, threshold: nat)
    requires count > 0 && threshold > 0
    ensures Newest(count, threshold) < count
    ensures count - 1 < Newest(count, threshold) + threshold
  {
    Divides(count - 1, threshold);
  }

  function CheckpointMarks(segments: seq<Segment>, threshold: nat, checkpoints: nat): set<nat>
    requires threshold > 0
  {
    var stable := Stable(segments);
    if stable == [] then {0}
    else
      NewestBounds(|stable|, threshold);
      Marks(stable, Newest(|stable|, threshold), threshold, checkpoints)
  }

  method PlaceCheckpoints(stable: seq<nat>, ordinal: nat, threshold: nat, checkpoints: nat) returns (marks: set<nat>)
    requires ordinal < |stable|
    ensures marks == Marks(stable, ordinal, threshold, checkpoints)
  {
    marks := {0};
    for back := checkpoints downto 0
      invariant 0 in marks
      invariant marks + Marks(stable, ordinal, threshold, back) == Marks(stable, ordinal, threshold, checkpoints)
    {
      var offset := back * threshold;
      assert offset >= 0;
      if ordinal >= offset {
        marks := marks + {1 + stable[ordinal - offset]};
      }
    }
  }

  method PlanCheckpoint(staticPrompt: string, segments: seq<Segment>, threshold: nat, checkpoints: nat)
    returns (prefixes: seq<Prefix>, marks: set<nat>, totalChars: nat)
    requires threshold > 0
    ensures ArePrefixesOf(prefixes, Blocks(staticPrompt, segments))
    ensures marks == CheckpointMarks(segments, threshold, checkpoints)
    ensures totalChars == |Text(Blocks(staticPrompt, segments))|
  {
    marks := {0};
    var stable := Stable(segments);
    if stable != [] {
      NewestBounds(|stable|, threshold);
      marks := PlaceCheckpoints(stable, Newest(|stable|, threshold), threshold, checkpoints);
    }
    prefixes, totalChars := PlanPrefixes(Blocks(staticPrompt, segments));
  }

  lemma {:induction false} MarkIn(stable: seq<nat>, ordinal: nat, threshold: nat, checkpoints: nat, back: nat)
    requires ordinal < |stable| && back < checkpoints && ordinal >= back * threshold
    ensures ordinal - back * threshold < |stable|
    ensures 1 + stable[ordinal - back * threshold] in Marks(stable, ordinal, threshold, checkpoints)
  {
    assert back * threshold >= 0;
    if back < checkpoints - 1 {
      MarkIn(stable, ordinal, threshold, checkpoints - 1, back);
    }
  }

  lemma {:induction false} BlocksGrow(staticPrompt: string, segments: seq<Segment>, later: seq<Segment>)
    requires segments <= later
    ensures Blocks(staticPrompt, segments) <= Blocks(staticPrompt, later)
  {
    if |segments| == |later| {
      assert segments == later;
    } else {
      BlocksGrow(staticPrompt, segments, later[..|later| - 1]);
    }
  }

  /** The newest checkpoint of a plan: the block of its newest marked segment, or the system block. */
  function NewestMark(segments: seq<Segment>, threshold: nat): nat
    requires threshold > 0
  {
    var stable := Stable(segments);
    if stable == [] then 0
    else
      NewestBounds(|stable|, threshold);
      1 + stable[Newest(|stable|, threshold)]
  }

  predicate Below(s: seq<nat>, n: nat) {
    forall i :: 0 <= i < |s| ==> s[i] < n
  }

  predicate Increasing(s: seq<nat>) {
    forall i, j :: 0 <= i < j < |s| ==> s[i] < s[j]
  }

  lemma {:induction false} StableIncreases(segments: seq<Segment>, lastDelta: Option<string>, n: nat)
    requires n <= |segments|
    ensures Below(StableUpTo(segments, lastDelta, n), n) && Increasing(StableUpTo(segments, lastDelta, n))
  {
    if n > 0 {
      StableIncreases(segments, lastDelta, n - 1);
    }
  }

  lemma {:induction false} MarksUpTo(stable: seq<nat>, ordinal: nat, threshold: nat, checkpoints: nat)
    requires ordinal < |stable|
    requires Increasing(stable)
    ensures forall m :: m in Marks(stable, ordinal, threshold, checkpoints) ==> m <= 1 + stable[ordinal]
  {
    if checkpoints > 0 {
      MarksUpTo(stable, ordinal, threshold, checkpoints - 1);
      assert (checkpoints - 1) * threshold >= 0;
    }
  }

  /** No mark of a plan lies behind its newest checkpoint, and with a checkpoint to place that one is marked. */
  lemma NewestIsNewest(segments: seq<Segment>, threshold: nat, checkpoints: nat)
    requires threshold > 0 && checkpoints > 0
    ensures NewestMark(segments, threshold) in CheckpointMarks(segments, threshold, checkpoints)
    ensures forall m :: m in CheckpointMarks(segments, threshold, checkpoints) ==> m <= NewestMark(segments, threshold)
  {
    var stable := Stable(segments);
    if stable != [] {
      NewestBounds(|stable|, threshold);
      StableIncreases(segments, LastDelta(segments), |segments|);
      MarkIn(stable, Newest(|stable|, threshold), threshold, checkpoints, 0);
      MarksUpTo(stable, Newest(|stable|, threshold), threshold, checkpoints);
    }
  }

  /** One or two steps of the checkpoint arithmetic: the new ordinal is the old one or one threshold further. */
  lemma NewestStep(count: nat, later: nat, threshold: nat)
    requires 0 < count <= later <= count + threshold && threshold > 0
    ensures Newest(later, threshold) == Newest(count, threshold) || Newest(later, threshold) == Newest(count, threshold) + threshold
  {
    var a, b := (count - 1) / threshold, (later - 1) / threshold;
    Divides(count - 1, threshold);
    Divides(later - 1, threshold);
    if b < a {
      Multiples(b + 1, a, threshold);
      OneMoreMultiple(b, threshold);
      assert false;
    } else if b > a + 1 {
      Multiples(a + 2, b, threshold);
      OneMoreMultiple(a + 1, threshold);
      OneMoreMultiple(a, threshold);
      assert false;
    } else if b == a + 1 {
      OneMoreMultiple(a, threshold);
    }
  }

  lemma OneMoreMultiple(a: nat, d: nat)
    ensures (a + 1) * d == a * d + d
  {
  }

  /** With two checkpoints the newest one is marked again while at most `threshold` stable segments were added. */
  lemma CheckpointStays(segments: seq<Segment>, later: seq<Segment>, threshold: nat, checkpoints: nat)
    requires threshold > 0 && checkpoints >= 2
    requires Stable(segments) <= Stable(later) && |Stable(later)| <= |Stable(segments)| + threshold
    ensures NewestMark(segments, threshold) in CheckpointMarks(later, threshold, checkpoints)
  {
    var before, after := Stable(segments), Stable(later);
    if before != [] {
      NewestBounds(|before|, threshold);
      NewestBounds(|after|, threshold);
      NewestStep(|before|, |after|, threshold);
      var ordinal := Newest(|after|, threshold);
      if ordinal == Newest(|before|, threshold) {
        MarkIn(after, ordinal, threshold, checkpoints, 0);
      } else {
        MarkIn(after, ordinal, threshold, checkpoints, 1);
      }
    }
  }

  /** The newest checkpoint is a block of the request when no segment is empty, as splitting a prompt guarantees. */
  lemma NewestIsBlock(staticPrompt: string, segments: seq<Segment>, threshold: nat)
    requires threshold > 0
    requires forall i :: 0 <= i < |segments| ==> segments[i].text != ""
    ensures NewestMark(segments, threshold) < |Blocks(staticPrompt, segments)|
  {
    BlockCount(staticPrompt, segments);
    StableIncreases(segments, LastDelta(segments), |segments|);
    if Stable(segments) != [] {
      NewestBounds(|Stable(segments)|, threshold);
    }
  }

  lemma {:induction false} BlockCount(staticPrompt: string, segments: seq<Segment>)
    requires forall i :: 0 <= i < |segments| ==> segments[i].text != ""
    ensures |Blocks(staticPrompt, segments)| == 1 + |segments|
  {
    if segments != [] {
      assert segments[|segments| - 1].text != "";
      BlockCount(staticPrompt, segments[..|segments| - 1]);
    }
  }

  // ----- when appending keeps what is stable -----

  predicate IsResponse(segment: Segment) {
    segment.promptType == Some("llm_response")
  }

  /**
    The later prompt goes on where the earlier ends. What was stable is not of the delta it ends in; and unless both end in
    the same delta, no response of the delta the earlier one ends in stands before what was stable.
   */
  predicate AppendsTo(segments: seq<Segment>, later: seq<Segment>) {
    var last, laterLast := LastDelta(segments), LastDelta(later);
    && segments <= later
    && (forall i :: 0 <= i < |segments| && IsResponse(segments[i]) && segments[i].deltaId != last ==>
          segments[i].deltaId != laterLast)
    && (last != laterLast ==> forall i, j :: 0 <= i < j < |segments| && IsResponse(segments[i]) && IsResponse(segments[j]) ==>
          segments[i].deltaId == last ==> segments[j].deltaId == last)
  }

  lemma {:induction false} StableMember(segments: seq<Segment>, lastDelta: Option<string>, n: nat, i: nat)
    requires n <= |segments|
    ensures i in StableUpTo(segments, lastDelta, n) <==> i < n && IsStable(segments[i], lastDelta)
  {
    if n > 0 {
      StableMember(segments, lastDelta, n - 1, i);
    }
  }

  lemma {:induction false} StableSoFar(segments: seq<Segment>, later: seq<Segment>, n: nat)
    requires AppendsTo(segments, later) && n <= |segments|
    ensures StableUpTo(segments, LastDelta(segments), n) <= StableUpTo(later, LastDelta(later), n)
    ensures (LastDelta(segments) == LastDelta(later)
             || forall i :: 0 <= i < n && IsResponse(segments[i]) ==> segments[i].deltaId != LastDelta(segments)) ==>
      StableUpTo(segments, LastDelta(segments), n) == StableUpTo(later, LastDelta(later), n)
  {
    if n > 0 {
      StableSoFar(segments, later, n - 1);
      assert segments[n - 1] == later[n - 1];
      if IsStable(segments[n - 1], LastDelta(segments)) && LastDelta(segments) != LastDelta(later) {
        assert forall i :: 0 <= i < n - 1 && IsResponse(segments[i]) ==> segments[i].deltaId != LastDelta(segments);
      }
    }
  }

  lemma {:induction false} StableOnlyGrows(segments: seq<Segment>, lastDelta: Option<string>, n: nat, m: nat)
    requires n <= m <= |segments|
    ensures StableUpTo(segments, lastDelta, n) <= StableUpTo(segments, lastDelta, m)
  {
    if n < m {
      StableOnlyGrows(segments, lastDelta, n, m - 1);
    }
  }

  /** A sorted list that starts like another sorted one holds what the other holds below its members. */
  lemma PrefixHolds(a: seq<nat>, b: seq<nat>, i: nat, j: nat)
    requires a <= b && Increasing(b) && i in b && j in a && i < j
    ensures i in a
  {
    var m :| 0 <= m < |b| && b[m] == i;
    var k :| 0 <= k < |a| && a[k] == j;
    assert b[k] == j;
    assert m < k;
    assert a[m] == b[m];
  }

  /** An append keeps what is stable in front, in order, exactly under that condition. */
  lemma AppendingKeepsStableIff(segments: seq<Segment>, later: seq<Segment>)
    requires segments <= later
    ensures Stable(segments) <= Stable(later) <==> AppendsTo(segments, later)
  {
    var last, laterLast := LastDelta(segments), LastDelta(later);
    if AppendsTo(segments, later) {
      StableSoFar(segments, later, |segments|);
      StableOnlyGrows(later, laterLast, |segments|, |later|);
    }
    if Stable(segments) <= Stable(later) {
      StableIncreases(later, laterLast, |later|);
      forall i | 0 <= i < |segments| && IsResponse(segments[i]) && segments[i].deltaId != last
        ensures segments[i].deltaId != laterLast
      {
        StableMember(segments, last, |segments|, i);
        StableMember(later, laterLast, |later|, i);
        assert i in Stable(segments) && later[i] == segments[i];
        assert i in Stable(later);
      }
      if last != laterLast {
        forall i, j | 0 <= i < j < |segments| && IsResponse(segments[i]) && IsResponse(segments[j]) && segments[i].deltaId == last
          ensures segments[j].deltaId == last
        {
          if segments[j].deltaId != last {
            StableMember(segments, last, |segments|, i);
            StableMember(segments, last, |segments|, j);
            StableMember(later, laterLast, |later|, i);
            assert later[i] == segments[i];
            PrefixHolds(Stable(segments), Stable(later), i, j);
          }
        }
      }
    }
  }

  // ----- overlap over a run -----

  datatype Planned = Planned(staticPrompt: string, segments: seq<Segment>)

  function PlanRequest(p: Planned, threshold: nat, checkpoints: nat): Request
    requires threshold > 0
  {
    Request(Blocks(p.staticPrompt, p.segments), CheckpointMarks(p.segments, threshold, checkpoints))
  }

  function Requests(ps: seq<Planned>, threshold: nat, checkpoints: nat): (requests: seq<Request>)
    requires threshold > 0
    ensures |requests| == |ps|
    ensures forall k :: 0 <= k < |ps| ==> requests[k] == PlanRequest(ps[k], threshold, checkpoints)
  {
    if ps == [] then []
    else Requests(ps[..|ps| - 1], threshold, checkpoints) + [PlanRequest(ps[|ps| - 1], threshold, checkpoints)]
  }

  lemma {:induction false} StoreHolds(requests: seq<Request>, i: nat)
    requires i < |requests|
    ensures Written(Prefixes(requests[i].blocks), requests[i].marks) <= Store(requests)
  {
    var n := |requests| - 1;
    if i < n {
      assert requests[..n][i] == requests[i];
      StoreHolds(requests[..n], i);
    }
  }

  predicate NoEmptyText(segments: seq<Segment>) {
    forall i :: 0 <= i < |segments| ==> segments[i].text != ""
  }

  // ----- when a later request finds the newest checkpoint -----

  /** Every prefix is as long as counted and longer than the ones before it. */
  predicate Rising(prefixes: seq<Prefix>) {
    && (forall k :: 0 <= k < |prefixes| ==> prefixes[k].chars == |prefixes[k].key|)
    && (forall k, l :: 0 <= k < l < |prefixes| ==> prefixes[k].chars < prefixes[l].chars)
  }

  lemma LongerText(bs: seq<Block>, k: nat, l: nat)
    requires k < l <= |bs|
    ensures |Text(bs[..k])| < |Text(bs[..l])|
  {
    TextPrefix(bs[..l - 1], k);
    assert bs[..l - 1][..k] == bs[..k] && bs[..l][..l - 1] == bs[..l - 1];
  }

  lemma PrefixesRise(bs: seq<Block>)
    ensures Rising(Prefixes(bs))
  {
    var prefixes := Prefixes(bs);
    forall k, l | 0 <= k < l < |prefixes| ensures prefixes[k].chars < prefixes[l].chars {
      LongerText(bs, k + 1, l + 1);
    }
  }

  lemma SamePrefix(bs: seq<Block>, later: seq<Block>, k: nat)
    requires bs <= later && k < |bs|
    ensures Prefixes(bs)[k] == Prefixes(later)[k]
  {
    assert bs[..k + 1] == later[..k + 1];
  }

  lemma {:induction false} HitAtLeast(prefixes: seq<Prefix>, lo: nat, hi: nat, store: set<string>, k: nat)
    requires Rising(prefixes) && lo <= k < hi <= |prefixes| && prefixes[k].key in store
    ensures BestHit(prefixes, lo, hi, store) >= prefixes[k].chars
  {
    if k < hi - 1 {
      HitAtLeast(prefixes, lo, hi - 1, store, k);
    }
  }

  lemma {:induction false} ReadAtLeast(prefixes: seq<Prefix>, marks: set<nat>, store: set<string>, mark: nat, k: nat, n: nat)
    requires Rising(prefixes) && mark in marks && First(mark) <= k <= mark < n <= |prefixes| && prefixes[k].key in store
    ensures ReadUpTo(prefixes, marks, store, n) >= prefixes[k].chars
  {
    if mark == n - 1 {
      HitAtLeast(prefixes, First(mark), n, store, k);
    } else {
      ReadAtLeast(prefixes, marks, store, mark, k, n - 1);
    }
  }

  /** No prefix behind block `top` is stored. */
  predicate NoneBehind(prefixes: seq<Prefix>, store: set<string>, top: nat) {
    forall k :: top < k < |prefixes| ==> prefixes[k].key !in store
  }

  lemma {:induction false} HitNothing(prefixes: seq<Prefix>, lo: nat, hi: nat, store: set<string>, top: nat)
    requires top < lo <= hi <= |prefixes| && NoneBehind(prefixes, store, top)
    ensures BestHit(prefixes, lo, hi, store) == 0
  {
    if lo < hi {
      HitNothing(prefixes, lo, hi - 1, store, top);
    }
  }

  lemma {:induction false} HitAtMost(prefixes: seq<Prefix>, lo: nat, hi: nat, store: set<string>, top: nat)
    requires Rising(prefixes) && lo <= hi <= top + 1 <= |prefixes|
    ensures BestHit(prefixes, lo, hi, store) <= prefixes[top].chars
  {
    if lo < hi {
      HitAtMost(prefixes, lo, hi - 1, store, top);
    }
  }

  /** Some mark stands at block `k` or less than the lookback behind it. */
  predicate Reaches(marks: set<nat>, k: nat, count: nat) {
    exists m :: m in marks && k <= m < k + LOOKBACK_BLOCKS && m < count
  }

  /** Marks in front of block `k` reach less than it, and marks too far behind it reach nothing. */
  lemma {:induction false} ReadsLess(prefixes: seq<Prefix>, marks: set<nat>, store: set<string>, k: nat, n: nat)
    requires Rising(prefixes) && k < |prefixes| && n <= |prefixes| && prefixes[k].chars > 0
    requires NoneBehind(prefixes, store, k) && !Reaches(marks, k, |prefixes|)
    ensures ReadUpTo(prefixes, marks, store, n) < prefixes[k].chars
  {
    if n > 0 {
      ReadsLess(prefixes, marks, store, k, n - 1);
      if n - 1 in marks {
        if n - 1 < k {
          HitAtMost(prefixes, First(n - 1), n, store, n - 1);
        } else {
          assert n - 1 >= k + LOOKBACK_BLOCKS;
          HitNothing(prefixes, First(n - 1), n, store, k);
        }
      }
    }
  }

  lemma PrefixesGrow(bs: seq<Block>, later: seq<Block>)
    requires bs <= later
    ensures Prefixes(bs) <= Prefixes(later)
  {
    forall k | 0 <= k < |bs| ensures Prefixes(bs)[k] == Prefixes(later)[k] {
      SamePrefix(bs, later, k);
    }
  }

  /** A plan whose last mark is at block `top` stores nothing behind it, in whatever longer request one looks. */
  lemma StoresNoneBehind(prefixes: seq<Prefix>, later: seq<Prefix>, marks: set<nat>, top: nat)
    requires prefixes <= later && Rising(later) && forall m :: m in marks ==> m <= top
    ensures NoneBehind(later, Written(prefixes, marks), top)
  {
    forall k, m | top < k < |later| && m in marks && m < |prefixes| ensures prefixes[m].key != later[k].key {
      assert later[m] == prefixes[m];
    }
  }

  /** Request `j` of a run reads at least up to the newest checkpoint of request `i`. */
  predicate Overlaps(ps: seq<Planned>, threshold: nat, checkpoints: nat, i: nat, j: nat)
    requires threshold > 0 && i < |ps| && j < |ps|
    requires NewestMark(ps[i].segments, threshold) < |Blocks(ps[i].staticPrompt, ps[i].segments)|
  {
    var requests, newest := Requests(ps, threshold, checkpoints), NewestMark(ps[i].segments, threshold);
    Read(Prefixes(requests[j].blocks), requests[j].marks, Store(requests[..j])) >= Prefixes(requests[i].blocks)[newest].chars
  }

  /** In every run, whatever comes before, between and behind, a request for `later` overlaps with an earlier one. */
  ghost predicate AlwaysOverlaps(earlier: Planned, later: Planned, threshold: nat, checkpoints: nat)
    requires threshold > 0 && NewestMark(earlier.segments, threshold) < |Blocks(earlier.staticPrompt, earlier.segments)|
  {
    forall ps: seq<Planned>, i: nat, j: nat :: i < j < |ps| && ps[i] == earlier && ps[j] == later ==>
      Overlaps(ps, threshold, checkpoints, i, j)
  }

  /** The later plan has a mark from which the newest checkpoint of the earlier plan is found. */
  predicate FindsNewest(earlier: Planned, later: Planned, threshold: nat, checkpoints: nat)
    requires threshold > 0
  {
    Reaches(CheckpointMarks(later.segments, threshold, checkpoints), NewestMark(earlier.segments, threshold),
            |Blocks(later.staticPrompt, later.segments)|)
  }

  lemma FoundOverlaps(ps: seq<Planned>, threshold: nat, checkpoints: nat, i: nat, j: nat)
    requires threshold > 0 && checkpoints > 0 && i < j < |ps|
    requires NewestMark(ps[i].segments, threshold) < |Blocks(ps[i].staticPrompt, ps[i].segments)|
    requires ps[i].staticPrompt == ps[j].staticPrompt && ps[i].segments <= ps[j].segments
    requires FindsNewest(ps[i], ps[j], threshold, checkpoints)
    ensures Overlaps(ps, threshold, checkpoints, i, j)
  {
    var requests, newest := Requests(ps, threshold, checkpoints), NewestMark(ps[i].segments, threshold);
    var bs, later := requests[i].blocks, requests[j].blocks;
    var m :| m in requests[j].marks && newest <= m < newest + LOOKBACK_BLOCKS && m < |later|;
    NewestIsNewest(ps[i].segments, threshold, checkpoints);
    BlocksGrow(ps[i].staticPrompt, ps[i].segments, ps[j].segments);
    assert requests[..j][i] == requests[i];
    StoreHolds(requests[..j], i);
    SamePrefix(bs, later, newest);
    PrefixesRise(later);
    assert Prefixes(bs)[newest].key in Written(Prefixes(bs), requests[i].marks);
    ReadAtLeast(Prefixes(later), requests[j].marks, Store(requests[..j]), m, newest, |later|);
  }

  lemma FirstFallsShort(bs: seq<Block>, later: seq<Block>, marks: set<nat>, laterMarks: set<nat>, newest: nat)
    requires bs <= later && newest < |bs| && (forall m :: m in marks ==> m <= newest)
    requires !Reaches(laterMarks, newest, |later|)
    ensures Read(Prefixes(later), laterMarks, Written(Prefixes(bs), marks)) < Prefixes(bs)[newest].chars
  {
    PrefixesRise(later);
    PrefixesGrow(bs, later);
    StoresNoneBehind(Prefixes(bs), Prefixes(later), marks, newest);
    LongerText(later, 0, newest + 1);
    ReadsLess(Prefixes(later), laterMarks, Written(Prefixes(bs), marks), newest, |later|);
  }

  /** The run of just these two requests. */
  lemma TwoFallShort(earlier: Planned, later: Planned, threshold: nat, checkpoints: nat)
    requires threshold > 0 && checkpoints > 0
    requires NewestMark(earlier.segments, threshold) < |Blocks(earlier.staticPrompt, earlier.segments)|
    requires earlier.staticPrompt == later.staticPrompt && earlier.segments <= later.segments
    requires !FindsNewest(earlier, later, threshold, checkpoints)
    ensures !Overlaps([earlier, later], threshold, checkpoints, 0, 1)
  {
    var requests, newest := Requests([earlier, later], threshold, checkpoints), NewestMark(earlier.segments, threshold);
    NewestIsNewest(earlier.segments, threshold, checkpoints);
    BlocksGrow(earlier.staticPrompt, earlier.segments, later.segments);
    StoreOne(requests);
    FirstFallsShort(requests[0].blocks, requests[1].blocks, requests[0].marks, requests[1].marks, newest);
  }

  lemma StoreOne(requests: seq<Request>)
    requires |requests| >= 1
    ensures Store(requests[..1]) == Written(Prefixes(requests[0].blocks), requests[0].marks)
  {
    assert requests[..1][..0] == [];
    assert Store([]) == {};
  }

  /**
    Main result: a prompt that goes on from an earlier one overlaps with it in every run if and only if its plan has a mark
    at the newest checkpoint of the earlier plan, or less than the lookback behind it.
   */
  lemma AlwaysOverlapsIff(earlier: Planned, later: Planned, threshold: nat, checkpoints: nat)
    requires threshold > 0 && checkpoints > 0
    requires NewestMark(earlier.segments, threshold) < |Blocks(earlier.staticPrompt, earlier.segments)|
    requires earlier.staticPrompt == later.staticPrompt && earlier.segments <= later.segments
    ensures AlwaysOverlaps(earlier, later, threshold, checkpoints) <==> FindsNewest(earlier, later, threshold, checkpoints)
  {
    if FindsNewest(earlier, later, threshold, checkpoints) {
      forall ps: seq<Planned>, i: nat, j: nat | i < j < |ps| && ps[i] == earlier && ps[j] == later
        ensures Overlaps(ps, threshold, checkpoints, i, j)
      {
        FoundOverlaps(ps, threshold, checkpoints, i, j);
      }
    } else {
      var ps := [earlier, later];
      TwoFallShort(earlier, later, threshold, checkpoints);
      assert ps[0] == earlier && ps[1] == later;
    }
  }

  /**
    So, with at least two checkpoints, a request that keeps the stable segments of an earlier one in front and adds at most
    `threshold` of them overlaps with it, whatever requests came before and between.
   */
  lemma CheckpointsOverlap(ps: seq<Planned>, threshold: nat, checkpoints: nat, i: nat, j: nat)
    requires threshold > 0 && checkpoints >= 2 && i < j < |ps|
    requires ps[i].staticPrompt == ps[j].staticPrompt && NoEmptyText(ps[i].segments)
    requires AppendsTo(ps[i].segments, ps[j].segments)
    requires |Stable(ps[j].segments)| <= |Stable(ps[i].segments)| + threshold
    ensures NewestMark(ps[i].segments, threshold) < |Blocks(ps[i].staticPrompt, ps[i].segments)|
    ensures Overlaps(ps, threshold, checkpoints, i, j)
  {
    AppendingKeepsStableIff(ps[i].segments, ps[j].segments);
    NewestIsBlock(ps[i].staticPrompt, ps[i].segments, threshold);
    CheckpointStays(ps[i].segments, ps[j].segments, threshold, checkpoints);
    BlocksGrow(ps[i].staticPrompt, ps[i].segments, ps[j].segments);
    FoundOverlaps(ps, threshold, checkpoints, i, j);
  }

  // ----- an append that does not overlap -----

  const D1 := Some("d1")
  const D2 := Some("d2")
  const D3 := Some("d3")
  const RESPONSE := Some("llm_response")
  const QUESTION := Some("user_question")

  const EARLIER := [Segment("a", D1, RESPONSE), Segment("b", D2, RESPONSE), Segment("c", D1, QUESTION)]
  const LATER := [Segment("a", D1, RESPONSE), Segment("b", D2, RESPONSE), Segment("c", D1, QUESTION), Segment("d", D3, QUESTION)]

  lemma StableSnoc(segments: seq<Segment>, lastDelta: Option<string>, n: nat)
    requires n < |segments|
    ensures StableUpTo(segments, lastDelta, n + 1) ==
      StableUpTo(segments, lastDelta, n) + if IsStable(segments[n], lastDelta) then [n] else []
  {
  }

  lemma ConcreteStable()
    ensures EARLIER <= LATER && Stable(EARLIER) == [1] && Stable(LATER) == [0, 1]
  {
    var e, l := LastDelta(EARLIER), LastDelta(LATER);
    for n := 0 to 3
      invariant StableUpTo(EARLIER, e, n) == if n < 2 then [] else [1]
    {
      StableSnoc(EARLIER, e, n);
    }
    for n := 0 to 4
      invariant StableUpTo(LATER, l, n) == if n == 0 then [] else if n == 1 then [0] else [0, 1]
    {
      StableSnoc(LATER, l, n);
    }
  }

  lemma {:induction false} ReadAtMost(prefixes: seq<Prefix>, marks: set<nat>, store: set<string>, top: nat, n: nat)
    requires Rising(prefixes) && top < |prefixes| && n <= |prefixes| && forall m :: m in marks ==> m <= top
    ensures ReadUpTo(prefixes, marks, store, n) <= prefixes[top].chars
  {
    if n > 0 {
      ReadAtMost(prefixes, marks, store, top, n - 1);
      if n - 1 in marks {
        HitAtMost(prefixes, First(n - 1), n, store, top);
      }
    }
  }

  /** A delta taken up again behind a response: the newest checkpoint moves back, and the read falls short of it. */
  lemma TakenUpAgainFallsShort(staticPrompt: string, store: set<string>)
    ensures EARLIER <= LATER && |Stable(LATER)| <= |Stable(EARLIER)| + 2
    ensures NewestMark(EARLIER, 2) == 2 && CheckpointMarks(LATER, 2, 2) == {0, 1}
    ensures |Blocks(staticPrompt, EARLIER)| == 4
    ensures Read(Prefixes(Blocks(staticPrompt, LATER)), CheckpointMarks(LATER, 2, 2), store) <
      Prefixes(Blocks(staticPrompt, EARLIER))[2].chars
  {
    var blocks, laterBlocks := Blocks(staticPrompt, EARLIER), Blocks(staticPrompt, LATER);
    ConcreteStable();
    assert Marks([0, 1], 0, 2, 0) == {0} && Marks([0, 1], 0, 2, 1) == {0, 1} && Marks([0, 1], 0, 2, 2) == {0, 1};
    BlockCount(staticPrompt, EARLIER);
    BlockCount(staticPrompt, LATER);
    BlocksGrow(staticPrompt, EARLIER, LATER);
    PrefixesRise(laterBlocks);
    ReadAtMost(Prefixes(laterBlocks), {0, 1}, store, 1, |laterBlocks|);
    SamePrefix(blocks, laterBlocks, 2);
  }
}
