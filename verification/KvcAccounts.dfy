/** What a request reads and creates. */
module KvcAccounts {
  // Mark by mark (scripts/kvc_replay.py).

  import opened Wrappers
  import opened KvcReplay

  /** Block `k` ends a stored prefix that mark `m` finds: at most twenty blocks are looked at. */
  predicate Finds(prefixes: seq<Prefix>, marks: set<nat>, store: set<string>, m: nat, k: nat) {
    m in marks && m < |prefixes| && k <= m < k + 20 && prefixes[k].key in store
  }

  /** A marked block inside the request whose prefix is not stored. */
  predicate IsNew(prefixes: seq<Prefix>, marks: set<nat>, store: set<string>, m: nat) {
    m in marks && m < |prefixes| && prefixes[m].key !in store
  }

  // ----- reading -----

  lemma {:induction false} HitFound(prefixes: seq<Prefix>, lo: nat, hi: nat, store: set<string>) returns (k: nat)
    requires lo <= hi <= |prefixes| && BestHit(prefixes, lo, hi, store) > 0
    ensures lo <= k < hi && prefixes[k].key in store && prefixes[k].chars == BestHit(prefixes, lo, hi, store)
  {
    if prefixes[hi - 1].key in store {
      k := hi - 1;
    } else {
      k := HitFound(prefixes, lo, hi - 1, store);
    }
  }

  lemma {:induction false} ReadFound(prefixes: seq<Prefix>, marks: set<nat>, store: set<string>, n: nat) returns (m: nat, k: nat)
    requires n <= |prefixes| && ReadUpTo(prefixes, marks, store, n) > 0
    ensures Finds(prefixes, marks, store, m, k) && prefixes[k].chars == ReadUpTo(prefixes, marks, store, n)
  {
    if ReadUpTo(prefixes, marks, store, n) == ReadUpTo(prefixes, marks, store, n - 1) {
      m, k := ReadFound(prefixes, marks, store, n - 1);
    } else {
      m := n - 1;
      k := HitFound(prefixes, First(m), n, store);
    }
  }

  /** A request reads the longest stored prefix that one of its marks finds, and nothing when none finds any. */
  lemma ReadIsLongestFound(bs: seq<Block>, marks: set<nat>, store: set<string>)
    ensures var prefixes, read := Prefixes(bs), Read(Prefixes(bs), marks, store);
      && (forall m: nat, k: nat :: Finds(prefixes, marks, store, m, k) ==> prefixes[k].chars <= read)
      && (read > 0 ==> exists m: nat, k: nat :: Finds(prefixes, marks, store, m, k) && prefixes[k].chars == read)
  {
    var prefixes := Prefixes(bs);
    PrefixesRise(bs);
    forall m: nat, k: nat | Finds(prefixes, marks, store, m, k) ensures prefixes[k].chars <= Read(prefixes, marks, store) {
      ReadAtLeast(prefixes, marks, store, m, k, |prefixes|);
    }
    if Read(prefixes, marks, store) > 0 {
      var m, k := ReadFound(prefixes, marks, store, |prefixes|);
    }
  }

  // ----- creating -----

  lemma {:induction false} WriteEndIs(prefixes: seq<Prefix>, marks: set<nat>, store: set<string>, n: nat)
    requires n <= |prefixes|
    ensures forall m: nat :: m < n && IsNew(prefixes, marks, store, m) ==> prefixes[m].chars <= WriteEnd(prefixes, marks, store, n)
    ensures var end := WriteEnd(prefixes, marks, store, n);
      end > 0 ==> exists m: nat :: m < n && IsNew(prefixes, marks, store, m) && prefixes[m].chars == end
  {
    if n > 0 {
      WriteEndIs(prefixes, marks, store, n - 1);
      if n - 1 in marks && prefixes[n - 1].key !in store {
        assert IsNew(prefixes, marks, store, n - 1);
      }
    }
  }

  /** What is read and created together reaches to the last new marked prefix, or as far as was read if that is further. */
  lemma CreatedReachesLastNew(bs: seq<Block>, marks: set<nat>, store: set<string>)
    ensures var prefixes := Prefixes(bs);
      var read, created := Read(prefixes, marks, store), Created(prefixes, marks, store);
      && (forall m: nat :: IsNew(prefixes, marks, store, m) ==> prefixes[m].chars <= read + created)
      && (created > 0 ==> exists m: nat :: IsNew(prefixes, marks, store, m) && prefixes[m].chars == read + created)
  {
    WriteEndIs(Prefixes(bs), marks, store, |bs|);
  }

  /** The first request of a run reads nothing and creates everything up to its last mark inside the request. */
  lemma FirstCreatesAll(bs: seq<Block>, marks: set<nat>, last: nat)
    requires last in marks && last < |bs| && forall m: nat :: m in marks && m < |bs| ==> m <= last
    ensures Read(Prefixes(bs), marks, {}) == 0 && Created(Prefixes(bs), marks, {}) == |Text(bs[..last + 1])|
  {
    var prefixes := Prefixes(bs);
    ReadIsLongestFound(bs, marks, {});
    CreatedReachesLastNew(bs, marks, {});
    PrefixesRise(bs);
    LongerText(bs, 0, last + 1);
    assert IsNew(prefixes, marks, {}, last) && prefixes[last].chars == |Text(bs[..last + 1])| > 0;
    var m: nat :| IsNew(prefixes, marks, {}, m) && prefixes[m].chars == Created(prefixes, marks, {});
  }

  /** A request whose marks are all stored creates nothing. */
  lemma StoredCreatesNothing(bs: seq<Block>, marks: set<nat>, store: set<string>)
    requires Written(Prefixes(bs), marks) <= store
    ensures Created(Prefixes(bs), marks, store) == 0
  {
    CreatedReachesLastNew(bs, marks, store);
    forall m: nat | m in marks && m < |bs| ensures Prefixes(bs)[m].key in store {
      assert Prefixes(bs)[m].key in Written(Prefixes(bs), marks);
    }
  }

  // ----- what a plan is made of -----

  /** The text of a request: every block with its role in angle brackets on a line of its own. */
  lemma {:induction false} TextConcat(a: seq<Block>, b: seq<Block>)
    ensures Text(a + b) == Text(a) + Text(b)
  {
    if b == [] {
      assert a + b == a && Text(a) + "" == Text(a);
    } else {
      var init, last := b[..|b| - 1], b[|b| - 1];
      assert (a + b)[..|a + b| - 1] == a + init;
      TextConcat(a, init);
      assert Text(a) + (Text(init) + Part(last)) == (Text(a) + Text(init)) + Part(last);
    }
  }

  lemma OneBlockText(role: string, text: string)
    ensures Text([Block(role, text)]) == ['\n', '<'] + (role + (['>', '\n'] + text))
  {
    var b := Block(role, text);
    assert [b][..0] == [];
    assert Text([b]) == "" + Part(b) == Part(b);
  }

  function NotEmpty(segments: seq<Segment>): seq<Segment> {
    if segments == [] then []
    else if segments[0].text == "" then NotEmpty(segments[1..])
    else [segments[0]] + NotEmpty(segments[1..])
  }

  /** The system block is the static prompt, and every segment with text is a block of the user, in order. */
  lemma {:induction false} BlocksAre(staticPrompt: string, segments: seq<Segment>)
    ensures var blocks, texts := Blocks(staticPrompt, segments), NotEmpty(segments);
      && |blocks| == 1 + |texts| && blocks[0] == Block("system", staticPrompt)
      && forall i :: 0 <= i < |texts| ==> blocks[1 + i] == Block("user", texts[i].text)
  {
    if segments != [] {
      var init, last := segments[..|segments| - 1], segments[|segments| - 1];
      BlocksAre(staticPrompt, init);
      assert segments == init + [last];
      NotEmptySnoc(init, last);
    }
  }

  lemma {:induction false} NotEmptySnoc(segments: seq<Segment>, last: Segment)
    ensures NotEmpty(segments + [last]) == NotEmpty(segments) + if last.text == "" then [] else [last]
  {
    if segments == [] {
      assert segments + [last] == [last] && [last][1..] == [];
    } else {
      assert (segments + [last])[1..] == segments[1..] + [last];
      NotEmptySnoc(segments[1..], last);
    }
  }

  /** The stable segments: the responses of the model that do not belong to the delta of the last segment, in order. */
  lemma StableAre(segments: seq<Segment>)
    ensures forall i: nat :: i in Stable(segments) <==>
      i < |segments| && segments[i].promptType == Some("llm_response") && segments[i].deltaId != segments[|segments| - 1].deltaId
    ensures forall k, l :: 0 <= k < l < |Stable(segments)| ==> Stable(segments)[k] < Stable(segments)[l]
  {
    StableIncreases(segments, LastDelta(segments), |segments|);
    forall i: nat ensures i in Stable(segments) <==> i < |segments| && IsStable(segments[i], LastDelta(segments)) {
      StableMember(segments, LastDelta(segments), |segments|, i);
    }
  }

  /** A checkpoint: the block of a stable segment whose number is a multiple of the threshold. */
  predicate IsCheckpoint(segments: seq<Segment>, threshold: nat, n: nat, m: nat)
    requires threshold > 0
  {
    n * threshold < |Stable(segments)| && m == 1 + Stable(segments)[n * threshold]
  }

  /** The marks of a plan are the system block and its last checkpoints, as many as there are to be. */
  lemma {:induction false} MarksAre(stable: seq<nat>, last: nat, threshold: nat, checkpoints: nat, m: nat)
    requires last * threshold < |stable|
    ensures m in Marks(stable, last * threshold, threshold, checkpoints) <==>
      m == 0 || exists n: nat :: n <= last && last < n + checkpoints && m == 1 + stable[Times(n, threshold, last)]
  {
    if checkpoints > 0 {
      var back := checkpoints - 1;
      MarksAre(stable, last, threshold, back, m);
      Offset(last, back, threshold);
      if last >= back {
        assert Times(last - back, threshold, last) == last * threshold - back * threshold;
        if m == 1 + stable[Times(last - back, threshold, last)] {
          assert last - back <= last < last - back + checkpoints;
        }
      }
    }
  }

  /** A multiple of the threshold that is no larger than the last one. */
  function Times(n: nat, threshold: nat, last: nat): (r: nat)
    requires n <= last
    ensures r == n * threshold <= last * threshold
  {
    Multiples(n, last, threshold);
    n * threshold
  }

  lemma Offset(last: nat, back: nat, threshold: nat)
    ensures last >= back ==> (last - back) * threshold == last * threshold - back * threshold
    ensures last < back && threshold > 0 ==> last * threshold < back * threshold
  {
  }

  lemma Below(n: nat, count: nat, threshold: nat)
    requires threshold > 0 && count > 0
    ensures n * threshold < count <==> n <= (count - 1) / threshold
  {
    var last := (count - 1) / threshold;
    Divides(count - 1, threshold);
    if n <= last {
      Multiples(n, last, threshold);
    } else {
      Multiples(last + 1, n, threshold);
      OneMoreMultiple(last, threshold);
    }
  }

  /** Exactly the system block and the last `checkpoints` checkpoints are marked. */
  lemma CheckpointMarksAre(segments: seq<Segment>, threshold: nat, checkpoints: nat, m: nat)
    requires threshold > 0
    ensures m in CheckpointMarks(segments, threshold, checkpoints) <==>
      m == 0 || exists n: nat ::
        IsCheckpoint(segments, threshold, n, m) && (n + checkpoints) * threshold >= |Stable(segments)|
  {
    var stable := Stable(segments);
    if stable != [] {
      var last := (|stable| - 1) / threshold;
      NewestBounds(|stable|, threshold);
      MarksAre(stable, last, threshold, checkpoints, m);
      if n: nat :| n <= last && last < n + checkpoints && m == 1 + stable[Times(n, threshold, last)] {
        Below(n, |stable|, threshold);
        Below(n + checkpoints, |stable|, threshold);
        assert IsCheckpoint(segments, threshold, n, m);
      }
      if n: nat :| IsCheckpoint(segments, threshold, n, m) && (n + checkpoints) * threshold >= |stable| {
        Below(n, |stable|, threshold);
        Below(n + checkpoints, |stable|, threshold);
        assert m == 1 + stable[Times(n, threshold, last)];
      }
    }
  }
}
