/** Audit over whole runs. */
module AuditRuns {
  // Stopped prunes included: what a stored summary was computed from, and when exactly deciding by it is filtering every
  // record.

  import opened Wrappers
  import opened Audit

  // ----- where a stored summary comes from -----

  /** A record of a segment; `told` when the stored summary counts it. */
  datatype Entry = Entry(record: Record, told: bool)

  /** A segment with its past: `dropped` are the records that its stored summary counts and its file no longer holds. */
  datatype Past = Past(entries: seq<Entry>, dropped: seq<Record>, stored: Option<Summary>)

  function Plain(es: seq<Entry>): (rs: seq<Record>)
    ensures |rs| == |es|
  {
    if es == [] then [] else Plain(es[..|es| - 1]) + [es[|es| - 1].record]
  }

  /** The records of the file that the stored summary counts. */
  function Told(es: seq<Entry>): seq<Record> {
    if es == [] then []
    else if es[|es| - 1].told then Told(es[..|es| - 1]) + [es[|es| - 1].record]
    else Told(es[..|es| - 1])
  }

  /** The records of the file that the stored summary does not count: they were appended since. */
  function Since(es: seq<Entry>): seq<Record> {
    if es == [] then []
    else if es[|es| - 1].told then Since(es[..|es| - 1])
    else Since(es[..|es| - 1]) + [es[|es| - 1].record]
  }

  function AllTold(rs: seq<Record>): seq<Entry> {
    if rs == [] then [] else AllTold(rs[..|rs| - 1]) + [Entry(rs[|rs| - 1], true)]
  }

  function KeepEntries(es: seq<Entry>, cutoff: Time, now: Time): seq<Entry> {
    if es == [] then []
    else if Retained(es[|es| - 1].record, cutoff, now) then KeepEntries(es[..|es| - 1], cutoff, now) + [es[|es| - 1]]
    else KeepEntries(es[..|es| - 1], cutoff, now)
  }

  /** The counted records that a rewrite drops. */
  function Lost(es: seq<Entry>, cutoff: Time, now: Time): seq<Record> {
    if es == [] then []
    else
      var last := es[|es| - 1];
      if last.told && !Retained(last.record, cutoff, now) then Lost(es[..|es| - 1], cutoff, now) + [last.record]
      else Lost(es[..|es| - 1], cutoff, now)
  }

  function SegmentOf(p: Past): Segment {
    Segment(Plain(p.entries), p.stored)
  }

  function Segments(ps: seq<Past>): (segments: seq<Segment>)
    ensures |segments| == |ps|
    ensures forall i :: 0 <= i < |ps| ==> segments[i] == SegmentOf(ps[i])
  {
    if ps == [] then [] else Segments(ps[..|ps| - 1]) + [SegmentOf(ps[|ps| - 1])]
  }

  function Earliest(p: Past): Time
    requires Timed(Told(p.entries)) && Timed(p.dropped)
  {
    Min(MinTime(Told(p.entries)), MinTime(p.dropped))
  }

  function Latest(p: Past): Time
    requires Timed(Told(p.entries)) && Timed(p.dropped)
  {
    Max(MaxTime(Told(p.entries)), MaxTime(p.dropped))
  }

  /** A stored summary counts the records it was told of, those that are still there and those that were dropped since. */
  predicate Sound(p: Past) {
    && p.entries != []
    && Timed(Told(p.entries)) && Timed(p.dropped)
    && match p.stored
       case None => Told(p.entries) == [] && p.dropped == []
       case Some(s) =>
         && |Told(p.entries)| + |p.dropped| > 0
         && s == Summary(Size(Told(p.entries)) + Size(p.dropped), |Told(p.entries)| + |p.dropped|, Earliest(p), Latest(p))
  }

  predicate AllSound(ps: seq<Past>) {
    forall i :: 0 <= i < |ps| ==> Sound(ps[i])
  }

  // ----- the steps with their past -----

  function Rescanned(p: Past): Past {
    if Rescan(Plain(p.entries)).Some? then Past(AllTold(Plain(p.entries)), [], Rescan(Plain(p.entries))) else p
  }

  function PastRefreshed(p: Past): Past {
    if p.stored.Some? && p.stored.value.bytes == Size(Plain(p.entries)) then p else Rescanned(p)
  }

  function PastAppended(p: Past, r: Record, completes: bool): Past {
    var longer := p.(entries := p.entries + [Entry(r, false)]);
    if !completes || r.time.None? then longer
    else if p.stored.Some? && p.stored.value.bytes + r.bytes == Size(Plain(longer.entries)) then
      Past(p.entries + [Entry(r, true)], p.dropped, Updated(SegmentOf(longer), r.time.value, r.bytes).stored)
    else Rescanned(longer)
  }

  function PastAppendTo(left: seq<Past>, r: Record, rolled: bool, completes: bool): seq<Past> {
    if rolled || left == [] then left + [PastAppended(Past([], [], None), r, completes)]
    else left[..|left| - 1] + [PastAppended(left[|left| - 1], r, completes)]
  }

  function PastAppend(ps: seq<Past>, r: Record, rolled: bool, evicted: nat, completes: bool): seq<Past> {
    PastAppendTo(ps[if evicted <= |ps| then evicted else |ps|..], r, rolled, completes)
  }

  function PastPruned(p: Past, cutoff: Time, now: Time): seq<Past> {
    var segment := SegmentOf(p);
    if PruneOne(segment, cutoff, now).0.None? then []
    else if Rewrites(segment, cutoff, now) then
      var kept := Keep(segment.records, cutoff, now);
      [Past(AllTold(kept), [], Rescan(kept))]
    else [PastRefreshed(p)]
  }

  function PastPrune(ps: seq<Past>, cutoff: Time, now: Time): seq<Past> {
    if ps == [] then [] else PastPrune(ps[..|ps| - 1], cutoff, now) + PastPruned(ps[|ps| - 1], cutoff, now)
  }

  function PastStopped(p: Past, cutoff: Time, now: Time, stage: Stage): Past {
    var q := PastRefreshed(p);
    if stage.Untouched? then p
    else if stage.Rewritten? && Rewrites(SegmentOf(p), cutoff, now) then
      Past(KeepEntries(q.entries, cutoff, now), q.dropped + Lost(q.entries, cutoff, now), q.stored)
    else q
  }

  function PastStopPrune(ps: seq<Past>, cutoff: Time, now: Time, at: nat, stage: Stage): seq<Past> {
    if at >= |ps| then PastPrune(ps, cutoff, now)
    else PastPrune(ps[..at], cutoff, now) + [PastStopped(ps[at], cutoff, now, stage)] + ps[at + 1..]
  }

  function PastStep(ps: seq<Past>, op: Operation): seq<Past> {
    match op
    case AppendEvent(record, rolled, evicted, completes) => PastAppend(ps, record, rolled, evicted, completes)
    case PruneEvents(cutoff, now) => PastPrune(ps, cutoff, now)
    case StopPruning(cutoff, now, at, stage) => PastStopPrune(ps, cutoff, now, at, stage)
  }

  function PastRun(ps: seq<Past>, ops: seq<Operation>): seq<Past>
    decreases |ops|
  {
    if ops == [] then ps else PastRun(PastStep(ps, ops[0]), ops[1..])
  }

  /** The log of a run, with the past of every segment. */
  function PastLog(ops: seq<Operation>): seq<Past> {
    PastRun([], ops)
  }

  // ----- counting entries -----

  lemma {:induction false} TwoParts(es: seq<Entry>)
    ensures Size(Plain(es)) == Size(Told(es)) + Size(Since(es))
    ensures |Plain(es)| == |Told(es)| + |Since(es)|
  {
    if es != [] {
      var before, last := es[..|es| - 1], es[|es| - 1];
      TwoParts(before);
      AppendedScan(Plain(before), last.record);
      AppendedScan(if last.told then Told(before) else Since(before), last.record);
    }
  }

  lemma {:induction false} NoneSince(es: seq<Entry>)
    requires Since(es) == []
    ensures Told(es) == Plain(es)
  {
    if es != [] {
      NoneSince(es[..|es| - 1]);
    }
  }

  lemma {:induction false} AllToldIs(rs: seq<Record>)
    ensures Plain(AllTold(rs)) == rs && Told(AllTold(rs)) == rs && Since(AllTold(rs)) == [] && |AllTold(rs)| == |rs|
  {
    if rs != [] {
      var before := AllTold(rs[..|rs| - 1]);
      AllToldIs(rs[..|rs| - 1]);
      PlainSnoc(before, Entry(rs[|rs| - 1], true));
      assert rs[..|rs| - 1] + [rs[|rs| - 1]] == rs;
    }
  }

  lemma PlainSnoc(es: seq<Entry>, e: Entry)
    ensures Plain(es + [e]) == Plain(es) + [e.record]
    ensures Told(es + [e]) == if e.told then Told(es) + [e.record] else Told(es)
    ensures Since(es + [e]) == if e.told then Since(es) else Since(es) + [e.record]
  {
    assert (es + [e])[..|es|] == es;
  }

  lemma KeepSnoc(rs: seq<Record>, r: Record, cutoff: Time, now: Time)
    ensures Keep(rs + [r], cutoff, now) ==
      if Retained(r, cutoff, now) then Keep(rs, cutoff, now) + [r] else Keep(rs, cutoff, now)
  {
    assert (rs + [r])[..|rs|] == rs;
    assert Keep(rs, cutoff, now) + [] == Keep(rs, cutoff, now);
  }

  lemma {:induction false} KeepIsPlain(es: seq<Entry>, cutoff: Time, now: Time)
    ensures Plain(KeepEntries(es, cutoff, now)) == Keep(Plain(es), cutoff, now)
  {
    if es != [] {
      var before, last := es[..|es| - 1], es[|es| - 1];
      KeepIsPlain(before, cutoff, now);
      KeepSnoc(Plain(before), last.record, cutoff, now);
      PlainSnoc(KeepEntries(before, cutoff, now), last);
    }
  }

  lemma {:induction false} MinConcat(a: seq<Record>, b: seq<Record>)
    requires Timed(a) && Timed(b)
    ensures Timed(a + b) && Size(a + b) == Size(a) + Size(b)
    ensures MinTime(a + b) == Min(MinTime(a), MinTime(b)) && MaxTime(a + b) == Max(MaxTime(a), MaxTime(b))
  {
    if b == [] {
      assert a + b == a;
    } else {
      var before, last := b[..|b| - 1], b[|b| - 1];
      MinConcat(a, before);
      assert a + b == (a + before) + [last] && b == before + [last];
      AppendedScan(a + before, last);
      AppendedScan(before, last);
    }
  }

  /** Two parts of a sequence of timed records, as far as a summary can tell. */
  predicate SplitInto(all: seq<Record>, a: seq<Record>, b: seq<Record>)
    requires Timed(all)
  {
    && Timed(a) && Timed(b)
    && Size(all) == Size(a) + Size(b) && |all| == |a| + |b|
    && MinTime(all) == Min(MinTime(a), MinTime(b)) && MaxTime(all) == Max(MaxTime(a), MaxTime(b))
  }

  lemma SplitSnoc(all: seq<Record>, a: seq<Record>, b: seq<Record>, r: Record)
    requires Timed(all) && SplitInto(all, a, b) && r.time.Some?
    ensures Timed(all + [r]) && SplitInto(all + [r], a + [r], b) && SplitInto(all + [r], a, b + [r])
  {
    AppendedScan(all, r);
    AppendedScan(a, r);
    AppendedScan(b, r);
  }

  /** A rewrite splits what the summary counts into what stays and what is lost. */
  lemma {:induction false} LostSplit(es: seq<Entry>, cutoff: Time, now: Time)
    requires Timed(Told(es))
    ensures SplitInto(Told(es), Told(KeepEntries(es, cutoff, now)), Lost(es, cutoff, now))
  {
    if es != [] {
      var before, last := es[..|es| - 1], es[|es| - 1];
      ToldPrefix(es);
      LostSplit(before, cutoff, now);
      if last.told {
        SplitSnoc(Told(before), Told(KeepEntries(before, cutoff, now)), Lost(before, cutoff, now), last.record);
      }
      PlainSnoc(KeepEntries(before, cutoff, now), last);
    }
  }

  lemma ToldPrefix(es: seq<Entry>)
    requires es != [] && Timed(Told(es))
    ensures Timed(Told(es[..|es| - 1])) && (es[|es| - 1].told ==> es[|es| - 1].record.time.Some?)
  {
    var before, last := es[..|es| - 1], es[|es| - 1];
    if last.told {
      AppendedScan(Told(before), last.record);
    }
  }

  // ----- the past stays sound -----

  lemma KeptSound(rs: seq<Record>)
    requires rs != [] && Timed(rs)
    ensures Sound(Past(AllTold(rs), [], Rescan(rs))) && SegmentOf(Past(AllTold(rs), [], Rescan(rs))) == Segment(rs, Rescan(rs))
  {
    var p := Past(AllTold(rs), [], Rescan(rs));
    AllToldIs(rs);
    assert Timed(p.dropped) && MinTime(p.dropped) == LATEST && MaxTime(p.dropped) == EARLIEST && Size(p.dropped) == 0;
    assert Earliest(p) == MinTime(rs) && Latest(p) == MaxTime(rs);
  }

  lemma RescannedSound(p: Past)
    requires Sound(p)
    ensures Sound(Rescanned(p))
    ensures SegmentOf(Rescanned(p)) == Segment(Plain(p.entries), if Rescan(Plain(p.entries)).Some? then Rescan(Plain(p.entries)) else p.stored)
  {
    if Rescan(Plain(p.entries)).Some? {
      KeptSound(Plain(p.entries));
    }
  }

  lemma RefreshedSound(p: Past)
    requires Sound(p)
    ensures Sound(PastRefreshed(p)) && SegmentOf(PastRefreshed(p)) == Refreshed(SegmentOf(p))
  {
    RescannedSound(p);
  }

  lemma RewrittenIsTimed(segment: Segment, cutoff: Time, now: Time)
    requires Rewrites(segment, cutoff, now)
    ensures var kept := Keep(segment.records, cutoff, now);
      kept != [] && Timed(kept) && PruneOne(segment, cutoff, now).0 == Some(Segment(kept, Rescan(kept)))
  {
  }

  lemma PrunedSound(p: Past, cutoff: Time, now: Time)
    requires Sound(p)
    ensures AllSound(PastPruned(p, cutoff, now)) && Segments(PastPruned(p, cutoff, now)) == Pruned(SegmentOf(p), cutoff, now)
  {
    var segment := SegmentOf(p);
    if Rewrites(segment, cutoff, now) {
      RewrittenIsTimed(segment, cutoff, now);
      KeptSound(Keep(segment.records, cutoff, now));
    } else {
      RefreshedSound(p);
    }
  }

  lemma StoppedSound(p: Past, cutoff: Time, now: Time, stage: Stage)
    requires Sound(p)
    ensures Sound(PastStopped(p, cutoff, now, stage))
    ensures SegmentOf(PastStopped(p, cutoff, now, stage)) == Stopped(SegmentOf(p), cutoff, now, stage)
  {
    var q := PastRefreshed(p);
    RefreshedSound(p);
    if stage.Rewritten? && Rewrites(SegmentOf(p), cutoff, now) {
      RewrittenIsTimed(SegmentOf(p), cutoff, now);
      KeepIsPlain(q.entries, cutoff, now);
      DropSound(q, cutoff, now);
    }
  }

  /** Rewriting the file without storing a new summary. */
  lemma DropSound(p: Past, cutoff: Time, now: Time)
    requires Sound(p) && KeepEntries(p.entries, cutoff, now) != []
    ensures Sound(Past(KeepEntries(p.entries, cutoff, now), p.dropped + Lost(p.entries, cutoff, now), p.stored))
  {
    var stay, lost := Told(KeepEntries(p.entries, cutoff, now)), Lost(p.entries, cutoff, now);
    LostSplit(p.entries, cutoff, now);
    MinConcat(p.dropped, lost);
  }

  lemma ToldOne(p: Past, r: Record, stored: Option<Summary>)
    requires Sound(p) && p.stored.Some? && r.time.Some?
    requires stored == Some(Summary(p.stored.value.bytes + r.bytes, p.stored.value.records + 1,
                                    Min(p.stored.value.minTime, r.time.value), Max(p.stored.value.maxTime, r.time.value)))
    ensures Sound(Past(p.entries + [Entry(r, true)], p.dropped, stored))
  {
    PlainSnoc(p.entries, Entry(r, true));
    AppendedScan(Told(p.entries), r);
  }

  lemma FirstUpdate(r: Record)
    requires r.time.Some?
    ensures Rescan([r]) == Some(Summary(r.bytes, 1, r.time.value, r.time.value))
  {
    assert [r] == [] + [r];
    AppendedScan([], r);
  }

  function Appended(segment: Segment, r: Record, completes: bool): Segment {
    var longer := segment.(records := segment.records + [r]);
    if !completes || r.time.None? then longer else Updated(longer, r.time.value, r.bytes)
  }

  /** A record that the summary is not told of. */
  lemma UntoldSound(p: Past, r: Record)
    requires Sound(p) || p == Past([], [], None)
    ensures var longer := p.(entries := p.entries + [Entry(r, false)]);
      Sound(longer) && SegmentOf(longer) == Segment(Plain(p.entries) + [r], p.stored)
  {
    PlainSnoc(p.entries, Entry(r, false));
  }

  lemma FirstAppended(r: Record, completes: bool)
    ensures Appended(Segment([], None), r, completes) ==
      Segment([r], if completes && r.time.Some? then Rescan([r]) else None)
  {
    assert Segment([], None).records + [r] == [r];
    if r.time.Some? {
      FirstUpdate(r);
    }
  }

  lemma FreshSound(r: Record, completes: bool)
    ensures var p := PastAppended(Past([], [], None), r, completes);
      Sound(p) && SegmentOf(p) == Appended(Segment([], None), r, completes)
  {
    var none := Past([], [], None);
    var longer := none.(entries := none.entries + [Entry(r, false)]);
    UntoldSound(none, r);
    assert Plain(none.entries) + [r] == [r];
    FirstAppended(r, completes);
    if completes && r.time.Some? {
      FirstUpdate(r);
      RescannedSound(longer);
      assert PastAppended(none, r, completes) == Rescanned(longer);
    } else {
      assert PastAppended(none, r, completes) == longer;
    }
  }

  lemma AppendedSound(p: Past, r: Record, completes: bool)
    requires Sound(p)
    ensures Sound(PastAppended(p, r, completes)) && SegmentOf(PastAppended(p, r, completes)) == Appended(SegmentOf(p), r, completes)
  {
    var longer := p.(entries := p.entries + [Entry(r, false)]);
    UntoldSound(p, r);
    if completes && r.time.Some? {
      if p.stored.Some? && p.stored.value.bytes + r.bytes == Size(Plain(longer.entries)) {
        AppendedScan(Plain(p.entries), r);
        ToldOne(p, r, PastAppended(p, r, completes).stored);
        PlainSnoc(p.entries, Entry(r, true));
      } else {
        MoreThanOne(p, r);
        RescannedSound(longer);
      }
    }
  }

  lemma MoreThanOne(p: Past, r: Record)
    requires Sound(p)
    ensures Size(Plain(p.entries) + [r]) > r.bytes
  {
    AppendedScan(Plain(p.entries), r);
    SizeAtLeast(Plain(p.entries));
  }

  function AppendTo(left: seq<Segment>, r: Record, rolled: bool, completes: bool): seq<Segment> {
    if rolled || left == [] then left + [Appended(Segment([], None), r, completes)]
    else left[..|left| - 1] + [Appended(left[|left| - 1], r, completes)]
  }

  lemma AppendIs(segments: seq<Segment>, r: Record, rolled: bool, evicted: nat, completes: bool)
    ensures Append(segments, r, rolled, evicted, completes) ==
      AppendTo(segments[if evicted <= |segments| then evicted else |segments|..], r, rolled, completes)
  {
    var left := segments[if evicted <= |segments| then evicted else |segments|..];
    var stored := Stored(segments, r, rolled, evicted);
    assert [] + [r] == [r];
    assert stored == stored[..|stored| - 1] + [stored[|stored| - 1]];
    if rolled || left == [] {
      assert stored[..|stored| - 1] == left;
    } else {
      assert stored[..|stored| - 1] == left[..|left| - 1];
    }
  }

  lemma AppendToFollows(left: seq<Past>, r: Record, rolled: bool, completes: bool)
    requires AllSound(left)
    ensures AllSound(PastAppendTo(left, r, rolled, completes))
    ensures Segments(PastAppendTo(left, r, rolled, completes)) == AppendTo(Segments(left), r, rolled, completes)
  {
    if rolled || left == [] {
      FreshSound(r, completes);
      LastOnly(left, PastAppended(Past([], [], None), r, completes));
    } else {
      var n := |left| - 1;
      AppendedSound(left[n], r, completes);
      LastOnly(left[..n], PastAppended(left[n], r, completes));
      assert Segments(left[..n]) == Segments(left)[..n];
    }
  }

  lemma AppendFollows(ps: seq<Past>, r: Record, rolled: bool, evicted: nat, completes: bool)
    requires AllSound(ps)
    ensures AllSound(PastAppend(ps, r, rolled, evicted, completes))
    ensures Segments(PastAppend(ps, r, rolled, evicted, completes)) == Append(Segments(ps), r, rolled, evicted, completes)
  {
    var from := if evicted <= |ps| then evicted else |ps|;
    assert Segments(ps)[from..] == Segments(ps[from..]);
    AppendToFollows(ps[from..], r, rolled, completes);
    AppendIs(Segments(ps), r, rolled, evicted, completes);
  }

  lemma LastOnly(ps: seq<Past>, p: Past)
    requires AllSound(ps) && Sound(p)
    ensures AllSound(ps + [p]) && Segments(ps + [p]) == Segments(ps) + [SegmentOf(p)]
  {
  }

  lemma SegmentsConcat(a: seq<Past>, b: seq<Past>)
    ensures Segments(a + b) == Segments(a) + Segments(b)
  {
  }

  lemma {:induction false} PruneFollows(ps: seq<Past>, cutoff: Time, now: Time)
    requires AllSound(ps)
    ensures AllSound(PastPrune(ps, cutoff, now)) && Segments(PastPrune(ps, cutoff, now)) == Prune(Segments(ps), cutoff, now).0
  {
    if ps != [] {
      var n := |ps| - 1;
      PruneFollows(ps[..n], cutoff, now);
      PrunedSound(ps[n], cutoff, now);
      assert Segments(ps[..n]) == Segments(ps)[..n];
      SegmentsConcat(PastPrune(ps[..n], cutoff, now), PastPruned(ps[n], cutoff, now));
    }
  }

  lemma StopAt(ps: seq<Past>, cutoff: Time, now: Time, at: nat, stage: Stage)
    requires AllSound(ps) && at < |ps|
    ensures var before := PastPrune(ps[..at], cutoff, now) + [PastStopped(ps[at], cutoff, now, stage)];
      && AllSound(before)
      && Segments(before) == Prune(Segments(ps)[..at], cutoff, now).0 + [Stopped(Segments(ps)[at], cutoff, now, stage)]
  {
    PruneFollows(ps[..at], cutoff, now);
    assert Segments(ps[..at]) == Segments(ps)[..at];
    StoppedSound(ps[at], cutoff, now, stage);
    LastSegment(PastPrune(ps[..at], cutoff, now), PastStopped(ps[at], cutoff, now, stage),
      Prune(Segments(ps)[..at], cutoff, now).0, Stopped(Segments(ps)[at], cutoff, now, stage));
  }

  lemma LastSegment(ps: seq<Past>, p: Past, segments: seq<Segment>, segment: Segment)
    requires AllSound(ps) && Sound(p) && Segments(ps) == segments && SegmentOf(p) == segment
    ensures AllSound(ps + [p]) && Segments(ps + [p]) == segments + [segment]
  {
  }

  lemma StopFollows(ps: seq<Past>, cutoff: Time, now: Time, at: nat, stage: Stage)
    requires AllSound(ps)
    ensures AllSound(PastStopPrune(ps, cutoff, now, at, stage))
    ensures Segments(PastStopPrune(ps, cutoff, now, at, stage)) == StopPrune(Segments(ps), cutoff, now, at, stage)
  {
    if at >= |ps| {
      PruneFollows(ps, cutoff, now);
    } else {
      StopAt(ps, cutoff, now, at, stage);
      StopInside(ps, PastPrune(ps[..at], cutoff, now) + [PastStopped(ps[at], cutoff, now, stage)], at);
    }
  }

  lemma StopInside(ps: seq<Past>, before: seq<Past>, at: nat)
    requires AllSound(ps) && AllSound(before) && at < |ps|
    ensures AllSound(before + ps[at + 1..]) && Segments(before + ps[at + 1..]) == Segments(before) + Segments(ps)[at + 1..]
  {
    SegmentsConcat(before, ps[at + 1..]);
    assert Segments(ps[at + 1..]) == Segments(ps)[at + 1..];
  }

  lemma StepFollows(ps: seq<Past>, op: Operation)
    requires AllSound(ps)
    ensures AllSound(PastStep(ps, op)) && Segments(PastStep(ps, op)) == Step(Segments(ps), op)
  {
    match op
    case AppendEvent(record, rolled, evicted, completes) => AppendFollows(ps, record, rolled, evicted, completes);
    case PruneEvents(cutoff, now) => PruneFollows(ps, cutoff, now);
    case StopPruning(cutoff, now, at, stage) => StopFollows(ps, cutoff, now, at, stage);
  }

  lemma {:induction false} RunFollows(ps: seq<Past>, ops: seq<Operation>)
    requires AllSound(ps)
    ensures AllSound(PastRun(ps, ops)) && Segments(PastRun(ps, ops)) == Run(Segments(ps), ops)
    decreases |ops|
  {
    if ops != [] {
      StepFollows(ps, ops[0]);
      RunFollows(PastStep(ps, ops[0]), ops[1..]);
    }
  }

  /** Every run, stopped prunes and appends included: each stored summary counts what its segment's past says it counts. */
  lemma EveryRunSound(ops: seq<Operation>)
    ensures AllSound(PastLog(ops)) && Segments(PastLog(ops)) == Log(ops)
  {
    RunFollows([], ops);
  }

  // ----- one segment -----

  /** The stored summary is taken at its word: as many bytes were appended as were dropped since. */
  predicate Fits(p: Past) {
    p.stored.Some? && Size(p.dropped) == Size(Since(p.entries))
  }

  /** The records the summary counts, dropped ones included, all lie outside the window. */
  predicate Outside(p: Past, cutoff: Time, now: Time)
    requires Sound(p)
  {
    Latest(p) < cutoff || Earliest(p) > now
  }

  predicate Inside(p: Past, cutoff: Time, now: Time)
    requires Sound(p)
  {
    Earliest(p) >= cutoff && Latest(p) <= now
  }

  /** A summary that fits decides for records it does not count, and one of them should be treated otherwise. */
  predicate Misleads(p: Past, cutoff: Time, now: Time)
    requires Sound(p)
  {
    var since := Since(p.entries);
    && Fits(p)
    && if Outside(p, cutoff, now) then Keep(since, cutoff, now) != []
       else Inside(p, cutoff, now) && Keep(since, cutoff, now) != since
  }

  /** What removing a whole segment by its summary reports too much. */
  function Miscount(p: Past, cutoff: Time, now: Time): int
    requires Sound(p)
  {
    if Fits(p) && Outside(p, cutoff, now) then |p.dropped| - |Since(p.entries)| else 0
  }

  lemma FitsIff(p: Past)
    requires Sound(p)
    ensures Fits(p) <==> p.stored.Some? && p.stored.value.bytes == Size(Plain(p.entries))
  {
    TwoParts(p.entries);
  }

  /** The summary alone decides about all records of the segment. */
  predicate Decides(summary: Option<Summary>, cutoff: Time, now: Time) {
    summary.Some? &&
    var s := summary.value;
    s.maxTime < cutoff || s.minTime > now || (s.minTime >= cutoff && s.maxTime <= now)
  }

  lemma MixedScans(segment: Segment, cutoff: Time, now: Time)
    requires segment.records != [] && !Decides(Load(segment), cutoff, now)
    ensures Records(Pruned(segment, cutoff, now)) == Keep(segment.records, cutoff, now)
    ensures PruneOne(segment, cutoff, now).1 == |segment.records| - |Keep(segment.records, cutoff, now)|
  {
    var rs, kept := segment.records, Keep(segment.records, cutoff, now);
    if |kept| == |rs| {
      assert Pruned(segment, cutoff, now) == [Refreshed(segment)];
      OneSegment(Refreshed(segment));
    } else if kept == [] {
      assert Pruned(segment, cutoff, now) == [];
    } else {
      assert Pruned(segment, cutoff, now) == [Segment(kept, Rescan(kept))];
      OneSegment(Segment(kept, Rescan(kept)));
    }
  }

  lemma ScanPrunes(segment: Segment, cutoff: Time, now: Time)
    requires segment.records != [] && Load(segment) == Rescan(segment.records)
    ensures Records(Pruned(segment, cutoff, now)) == Keep(segment.records, cutoff, now)
    ensures PruneOne(segment, cutoff, now).1 == |segment.records| - |Keep(segment.records, cutoff, now)|
  {
    var rs := segment.records;
    if !Decides(Load(segment), cutoff, now) {
      MixedScans(segment, cutoff, now);
    } else if MaxTime(rs) < cutoff || MinTime(rs) > now {
      OutsideWindow(rs, cutoff, now);
    } else {
      InsideWindow(rs, cutoff, now);
      OneSegment(Refreshed(segment));
    }
  }

  lemma {:induction false} KeepParts(es: seq<Entry>, cutoff: Time, now: Time)
    ensures |Keep(Plain(es), cutoff, now)| == |Keep(Told(es), cutoff, now)| + |Keep(Since(es), cutoff, now)|
  {
    if es != [] {
      var before, last := es[..|es| - 1], es[|es| - 1];
      KeepParts(before, cutoff, now);
      KeepSnoc(Plain(before), last.record, cutoff, now);
      KeepSnoc(if last.told then Told(before) else Since(before), last.record, cutoff, now);
    }
  }

  /** Removing a segment by its summary is right when none of its records is retained. */
  lemma RemovedIff(p: Past, cutoff: Time, now: Time)
    requires Sound(p) && Fits(p) && Outside(p, cutoff, now)
    ensures Pruned(SegmentOf(p), cutoff, now) == []
    ensures PruneOne(SegmentOf(p), cutoff, now).1 == |Told(p.entries)| + |p.dropped|
    ensures Keep(Plain(p.entries), cutoff, now) == [] <==> Keep(Since(p.entries), cutoff, now) == []
  {
    FitsIff(p);
    OutsideWindow(Told(p.entries), cutoff, now);
    KeepParts(p.entries, cutoff, now);
  }

  lemma LeftIff(p: Past, cutoff: Time, now: Time)
    requires Sound(p) && Fits(p) && !Outside(p, cutoff, now) && Inside(p, cutoff, now)
    ensures Pruned(SegmentOf(p), cutoff, now) == [SegmentOf(p)] && PruneOne(SegmentOf(p), cutoff, now).1 == 0
    ensures Keep(Plain(p.entries), cutoff, now) == Plain(p.entries) <==> Keep(Since(p.entries), cutoff, now) == Since(p.entries)
  {
    FitsIff(p);
    InsideWindow(Told(p.entries), cutoff, now);
    KeepParts(p.entries, cutoff, now);
    TwoParts(p.entries);
  }

  /** Deciding one segment by its summary is filtering its records exactly when the summary does not mislead. */
  lemma PrunedIff(p: Past, cutoff: Time, now: Time)
    requires Sound(p)
    ensures Records(Pruned(SegmentOf(p), cutoff, now)) == Keep(Plain(p.entries), cutoff, now) <==> !Misleads(p, cutoff, now)
    ensures PruneOne(SegmentOf(p), cutoff, now).1 ==
      |Plain(p.entries)| - |Records(Pruned(SegmentOf(p), cutoff, now))| + Miscount(p, cutoff, now)
  {
    FitsIff(p);
    TwoParts(p.entries);
    if !Fits(p) {
      ScanPrunes(SegmentOf(p), cutoff, now);
    } else if Outside(p, cutoff, now) {
      RemovedIff(p, cutoff, now);
    } else if Inside(p, cutoff, now) {
      LeftIff(p, cutoff, now);
      OneSegment(SegmentOf(p));
    } else {
      MixedScans(SegmentOf(p), cutoff, now);
    }
  }

  predicate AllRetained(rs: seq<Record>, cutoff: Time, now: Time) {
    forall i :: 0 <= i < |rs| ==> Retained(rs[i], cutoff, now)
  }

  /** A segment that comes out with retained records only has no more of them than the filter leaves. */
  lemma RetainedOnly(p: Past, cutoff: Time, now: Time)
    requires Sound(p) && AllRetained(Records(Pruned(SegmentOf(p), cutoff, now)), cutoff, now)
    ensures |Records(Pruned(SegmentOf(p), cutoff, now))| <= |Keep(Plain(p.entries), cutoff, now)|
    ensures |Records(Pruned(SegmentOf(p), cutoff, now))| == |Keep(Plain(p.entries), cutoff, now)| ==> !Misleads(p, cutoff, now)
  {
    PrunedIff(p, cutoff, now);
    if Misleads(p, cutoff, now) {
      if Outside(p, cutoff, now) {
        RemovedIff(p, cutoff, now);
      } else {
        LeftIff(p, cutoff, now);
        OneSegment(SegmentOf(p));
        KeepAll(Plain(p.entries), cutoff, now);
      }
    }
  }

  // ----- the whole log -----

  /** The stored summary of some segment misleads. */
  predicate SomeMisleads(ps: seq<Past>, cutoff: Time, now: Time)
    requires AllSound(ps)
  {
    ps != [] && (SomeMisleads(ps[..|ps| - 1], cutoff, now) || Misleads(ps[|ps| - 1], cutoff, now))
  }

  function Miscounts(ps: seq<Past>, cutoff: Time, now: Time): int
    requires AllSound(ps)
  {
    if ps == [] then 0 else Miscounts(ps[..|ps| - 1], cutoff, now) + Miscount(ps[|ps| - 1], cutoff, now)
  }

  lemma PruneLast(ps: seq<Past>, cutoff: Time, now: Time)
    requires AllSound(ps) && ps != []
    ensures var n, all := |ps| - 1, Segments(ps);
      && all[..n] == Segments(ps[..n]) && all[n] == SegmentOf(ps[n])
      && Records(all) == Records(Segments(ps[..n])) + Plain(ps[n].entries)
      && Keep(Records(all), cutoff, now) == Keep(Records(Segments(ps[..n])), cutoff, now) + Keep(Plain(ps[n].entries), cutoff, now)
      && Records(Prune(all, cutoff, now).0) ==
        Records(Prune(Segments(ps[..n]), cutoff, now).0) + Records(Pruned(SegmentOf(ps[n]), cutoff, now))
      && Prune(all, cutoff, now).1 == Prune(Segments(ps[..n]), cutoff, now).1 + PruneOne(SegmentOf(ps[n]), cutoff, now).1
  {
    var n, all := |ps| - 1, Segments(ps);
    assert all[..n] == Segments(ps[..n]);
    KeepConcat(Records(Segments(ps[..n])), Plain(ps[n].entries), cutoff, now);
    RecordsConcat(Prune(Segments(ps[..n]), cutoff, now).0, Pruned(SegmentOf(ps[n]), cutoff, now));
  }

  lemma {:induction false} NoneMisleads(ps: seq<Past>, cutoff: Time, now: Time)
    requires AllSound(ps) && !SomeMisleads(ps, cutoff, now)
    ensures Records(Prune(Segments(ps), cutoff, now).0) == Keep(Records(Segments(ps)), cutoff, now)
  {
    if ps != [] {
      var n := |ps| - 1;
      NoneMisleads(ps[..n], cutoff, now);
      PruneLast(ps, cutoff, now);
      PrunedIff(ps[n], cutoff, now);
    }
  }

  lemma {:induction false} CountsRight(ps: seq<Past>, cutoff: Time, now: Time)
    requires AllSound(ps)
    ensures var (pruned, removed) := Prune(Segments(ps), cutoff, now);
      removed == |Records(Segments(ps))| - |Records(pruned)| + Miscounts(ps, cutoff, now)
  {
    if ps != [] {
      CountsRight(ps[..|ps| - 1], cutoff, now);
      PruneLast(ps, cutoff, now);
      PrunedIff(ps[|ps| - 1], cutoff, now);
    }
  }

  /** A log that comes out with retained records only, and as many as the filter leaves, was misled by no summary. */
  lemma {:induction false} NothingMissing(ps: seq<Past>, cutoff: Time, now: Time)
    requires AllSound(ps) && AllRetained(Records(Prune(Segments(ps), cutoff, now).0), cutoff, now)
    ensures |Records(Prune(Segments(ps), cutoff, now).0)| <= |Keep(Records(Segments(ps)), cutoff, now)|
    ensures |Records(Prune(Segments(ps), cutoff, now).0)| == |Keep(Records(Segments(ps)), cutoff, now)| ==>
      !SomeMisleads(ps, cutoff, now)
  {
    if ps != [] {
      var n := |ps| - 1;
      var before, last := Records(Prune(Segments(ps[..n]), cutoff, now).0), Records(Pruned(SegmentOf(ps[n]), cutoff, now));
      PruneLast(ps, cutoff, now);
      assert AllRetained(before + last, cutoff, now);
      RetainedParts(before, last, cutoff, now);
      NothingMissing(ps[..n], cutoff, now);
      RetainedOnly(ps[n], cutoff, now);
    }
  }

  lemma RetainedParts(a: seq<Record>, b: seq<Record>, cutoff: Time, now: Time)
    requires AllRetained(a + b, cutoff, now)
    ensures AllRetained(a, cutoff, now) && AllRetained(b, cutoff, now)
  {
    assert forall i :: 0 <= i < |a| ==> a[i] == (a + b)[i];
    assert forall i :: 0 <= i < |b| ==> b[i] == (a + b)[|a| + i];
  }

  /**
    Main result, over every run of appends and prunes, complete or stopped: the next prune leaves exactly the records of
    its window, in order, if and only if no stored summary misleads it; and it reports the number it dropped up to the
    miscounts of segments it removes whole.
   */
  lemma PruneAfterRunIff(ops: seq<Operation>, cutoff: Time, now: Time)
    ensures AllSound(PastLog(ops)) && Segments(PastLog(ops)) == Log(ops)
    ensures var (pruned, removed) := Prune(Log(ops), cutoff, now);
      && (Records(pruned) == Keep(Records(Log(ops)), cutoff, now) <==> !SomeMisleads(PastLog(ops), cutoff, now))
      && removed == |Records(Log(ops))| - |Records(pruned)| + Miscounts(PastLog(ops), cutoff, now)
  {
    var ps := PastLog(ops);
    EveryRunSound(ops);
    CountsRight(ps, cutoff, now);
    if !SomeMisleads(ps, cutoff, now) {
      NoneMisleads(ps, cutoff, now);
    } else if Records(Prune(Log(ops), cutoff, now).0) == Keep(Records(Log(ops)), cutoff, now) {
      NothingMissing(ps, cutoff, now);
    }
  }

  // ----- runs no prune is misled by -----

  predicate NoStop(ops: seq<Operation>) {
    forall i :: 0 <= i < |ops| ==> !ops[i].StopPruning?
  }

  predicate Completes(op: Operation) {
    op.AppendEvent? ==> op.completes && op.record.time.Some?
  }

  /** Every append completes, and its record carries a time, as the caller of the log sees to. */
  predicate AppendsComplete(ops: seq<Operation>) {
    forall i :: 0 <= i < |ops| ==> Completes(ops[i])
  }

  predicate NoneDropped(ps: seq<Past>) {
    forall i :: 0 <= i < |ps| ==> ps[i].dropped == []
  }

  predicate AllCounted(ps: seq<Past>) {
    forall i :: 0 <= i < |ps| ==> Since(ps[i].entries) == []
  }

  lemma {:induction false} PruneDropsNone(ps: seq<Past>, cutoff: Time, now: Time)
    requires NoneDropped(ps)
    ensures NoneDropped(PastPrune(ps, cutoff, now))
  {
    if ps != [] {
      PruneDropsNone(ps[..|ps| - 1], cutoff, now);
    }
  }

  lemma {:induction false} RunDropsNone(ps: seq<Past>, ops: seq<Operation>)
    requires NoneDropped(ps) && NoStop(ops)
    ensures NoneDropped(PastRun(ps, ops))
    decreases |ops|
  {
    if ops != [] {
      assert !ops[0].StopPruning?;
      if ops[0].PruneEvents? {
        PruneDropsNone(ps, ops[0].cutoff, ops[0].now);
      }
      RunDropsNone(PastStep(ps, ops[0]), ops[1..]);
    }
  }

  lemma RescanCounts(p: Past)
    requires Timed(Plain(p.entries)) && p.entries != []
    ensures Since(Rescanned(p).entries) == []
  {
    AllToldIs(Plain(p.entries));
  }

  lemma RefreshCounts(p: Past)
    requires Since(p.entries) == []
    ensures Since(PastRefreshed(p).entries) == []
  {
    AllToldIs(Plain(p.entries));
  }

  lemma AppendCounts(p: Past, r: Record)
    requires (Sound(p) || p == Past([], [], None)) && Since(p.entries) == [] && r.time.Some?
    ensures Since(PastAppended(p, r, true).entries) == []
  {
    var longer := p.(entries := p.entries + [Entry(r, false)]);
    NoneSince(p.entries);
    PlainSnoc(p.entries, Entry(r, false));
    PlainSnoc(p.entries, Entry(r, true));
    AppendedScan(Plain(p.entries), r);
    RescanCounts(longer);
  }

  lemma {:induction false} KeepCounts(es: seq<Entry>, cutoff: Time, now: Time)
    requires Since(es) == []
    ensures Since(KeepEntries(es, cutoff, now)) == []
  {
    if es != [] {
      KeepCounts(es[..|es| - 1], cutoff, now);
      PlainSnoc(KeepEntries(es[..|es| - 1], cutoff, now), es[|es| - 1]);
    }
  }

  lemma StopCounts(p: Past, cutoff: Time, now: Time, stage: Stage)
    requires Since(p.entries) == []
    ensures Since(PastStopped(p, cutoff, now, stage).entries) == []
  {
    RefreshCounts(p);
    KeepCounts(PastRefreshed(p).entries, cutoff, now);
  }

  lemma PrunedCounts(p: Past, cutoff: Time, now: Time)
    requires Since(p.entries) == []
    ensures AllCounted(PastPruned(p, cutoff, now))
  {
    RefreshCounts(p);
    AllToldIs(Keep(Plain(p.entries), cutoff, now));
  }

  lemma {:induction false} PruneCounts(ps: seq<Past>, cutoff: Time, now: Time)
    requires AllCounted(ps)
    ensures AllCounted(PastPrune(ps, cutoff, now))
  {
    if ps != [] {
      PruneCounts(ps[..|ps| - 1], cutoff, now);
      PrunedCounts(ps[|ps| - 1], cutoff, now);
    }
  }

  lemma AppendToCounts(left: seq<Past>, r: Record, rolled: bool)
    requires AllSound(left) && AllCounted(left) && r.time.Some?
    ensures AllCounted(PastAppendTo(left, r, rolled, true))
  {
    AppendCounts(if rolled || left == [] then Past([], [], None) else left[|left| - 1], r);
  }

  lemma StopPruneCounts(ps: seq<Past>, cutoff: Time, now: Time, at: nat, stage: Stage)
    requires AllCounted(ps)
    ensures AllCounted(PastStopPrune(ps, cutoff, now, at, stage))
  {
    if at < |ps| {
      PruneCounts(ps[..at], cutoff, now);
      StopCounts(ps[at], cutoff, now, stage);
    } else {
      PruneCounts(ps, cutoff, now);
    }
  }

  lemma StepCounts(ps: seq<Past>, op: Operation)
    requires AllSound(ps) && AllCounted(ps) && Completes(op)
    ensures AllCounted(PastStep(ps, op))
  {
    match op
    case AppendEvent(r, rolled, evicted, completes) =>
      AppendToCounts(ps[if evicted <= |ps| then evicted else |ps|..], r, rolled);
    case PruneEvents(cutoff, now) => PruneCounts(ps, cutoff, now);
    case StopPruning(cutoff, now, at, stage) => StopPruneCounts(ps, cutoff, now, at, stage);
  }

  lemma {:induction false} RunCounts(ps: seq<Past>, ops: seq<Operation>)
    requires AllSound(ps) && AllCounted(ps) && AppendsComplete(ops)
    ensures AllCounted(PastRun(ps, ops))
    decreases |ops|
  {
    if ops != [] {
      assert Completes(ops[0]);
      StepCounts(ps, ops[0]);
      StepFollows(ps, ops[0]);
      AppendsCompleteTail(ops);
      RunCounts(PastStep(ps, ops[0]), ops[1..]);
    }
  }

  lemma AppendsCompleteTail(ops: seq<Operation>)
    requires ops != [] && AppendsComplete(ops)
    ensures AppendsComplete(ops[1..])
  {
  }

  /** Nothing was dropped behind the summary's back, or nothing was appended behind it. */
  predicate Clean(p: Past) {
    p.dropped == [] || Since(p.entries) == []
  }

  predicate AllClean(ps: seq<Past>) {
    forall i :: 0 <= i < |ps| ==> Clean(ps[i])
  }

  lemma RunClean(ops: seq<Operation>)
    requires NoStop(ops) || AppendsComplete(ops)
    ensures AllClean(PastLog(ops))
  {
    if NoStop(ops) {
      RunDropsNone([], ops);
    } else {
      RunCounts([], ops);
    }
  }

  lemma FitsExactly(p: Past)
    requires Sound(p) && Clean(p) && Fits(p)
    ensures p.dropped == [] && Since(p.entries) == [] && p.stored == Rescan(Plain(p.entries))
  {
    SizeAtLeast(Since(p.entries));
    SizeAtLeast(p.dropped);
    NoneSince(p.entries);
  }

  /** A stored summary whose byte count fits the file says what a rescan of it says. */
  predicate SummaryTrue(segment: Segment) {
    segment.stored.Some? && segment.stored.value.bytes == Size(segment.records) ==> segment.stored == Rescan(segment.records)
  }

  /**
    After any run whose prunes all complete, and after any run whose appends all complete with a time, every stored summary
    that fits its file is true.
   */
  lemma SummariesTrue(ops: seq<Operation>)
    requires NoStop(ops) || AppendsComplete(ops)
    ensures forall i :: 0 <= i < |Log(ops)| ==> SummaryTrue(Log(ops)[i])
  {
    var ps := PastLog(ops);
    EveryRunSound(ops);
    RunClean(ops);
    forall i | 0 <= i < |Log(ops)| ensures SummaryTrue(Log(ops)[i]) {
      FitsIff(ps[i]);
      if Fits(ps[i]) {
        FitsExactly(ps[i]);
      }
    }
  }

  lemma {:induction false} NothingMisleads(ps: seq<Past>, cutoff: Time, now: Time)
    requires AllSound(ps) && AllClean(ps)
    ensures !SomeMisleads(ps, cutoff, now) && Miscounts(ps, cutoff, now) == 0
  {
    if ps != [] {
      NothingMisleads(ps[..|ps| - 1], cutoff, now);
      if Fits(ps[|ps| - 1]) {
        FitsExactly(ps[|ps| - 1]);
      }
    }
  }

  /** After any such run, pruning keeps exactly the records of the window, in order, and returns how many it dropped. */
  lemma PruneAfterRun(ops: seq<Operation>, cutoff: Time, now: Time)
    requires NoStop(ops) || AppendsComplete(ops)
    ensures var (pruned, removed) := Prune(Log(ops), cutoff, now);
      && Records(pruned) == Keep(Records(Log(ops)), cutoff, now)
      && removed == |Records(Log(ops))| - |Records(pruned)|
  {
    var ps := PastLog(ops);
    PruneAfterRunIff(ops, cutoff, now);
    RunClean(ops);
    NothingMisleads(ps, cutoff, now);
  }

  // ----- a run whose next prune is misled -----

  const EARLY := Record(10, Some(0))
  const MIDDLE := Record(10, Some(100))
  const LATE := Record(10, Some(200))

  function Write(r: Record, completes: bool): Operation {
    AppendEvent(r, false, 0, completes)
  }

  /** Steps on a log of at most one segment. */
  lemma OneAppended(segment: Segment, r: Record, completes: bool)
    ensures Step([segment], Write(r, completes)) == [Appended(segment, r, completes)]
    ensures Step([], Write(r, completes)) == [Appended(Segment([], None), r, completes)]
  {
    AppendIs([segment], r, false, 0, completes);
    AppendIs([], r, false, 0, completes);
    assert [segment][0..] == [segment] && [segment][..0] == [];
  }

  lemma OneStopped(segment: Segment, cutoff: Time, now: Time)
    ensures Step([segment], StopPruning(cutoff, now, 0, Rewritten)) == [Stopped(segment, cutoff, now, Rewritten)]
    ensures Prune([segment], cutoff, now) == (Pruned(segment, cutoff, now), PruneOne(segment, cutoff, now).1)
  {
    assert [segment][..0] == [] && [segment][1..] == [];
    assert Prune([], cutoff, now) == ([], 0);
    assert [] + Pruned(segment, cutoff, now) == Pruned(segment, cutoff, now);
  }

  lemma TwoRecords(a: Record, b: Record)
    ensures [a] + [b] == [a, b] && Size([a]) == a.bytes && Size([a, b]) == a.bytes + b.bytes
    ensures a.time.Some? && b.time.Some? ==>
      (Rescan([a, b]) == Some(Summary(a.bytes + b.bytes, 2, Min(a.time.value, b.time.value), Max(a.time.value, b.time.value))))
  {
    assert [a, b] == [a] + [b] && [a] == [] + [a];
    AppendedScan([a], b);
    AppendedScan([], a);
  }

  lemma TwoKept(a: Record, b: Record, cutoff: Time, now: Time)
    ensures Keep([a, b], cutoff, now) ==
      (if Retained(a, cutoff, now) then [a] else []) + (if Retained(b, cutoff, now) then [b] else [])
  {
    assert [a, b] == ([] + [a]) + [b];
    KeepSnoc([] + [a], b, cutoff, now);
    KeepSnoc([], a, cutoff, now);
    assert Keep([], cutoff, now) == [];
  }

  const WRITTEN := Segment([EARLY, MIDDLE], Some(Summary(20, 2, 0, 100)))
  const STALE := Segment([MIDDLE, LATE], Some(Summary(20, 2, 0, 100)))

  lemma TwoWritten(rest: seq<Operation>)
    ensures Log([Write(EARLY, true), Write(MIDDLE, true)] + rest) == Run([WRITTEN], rest)
  {
    var ops := [Write(EARLY, true), Write(MIDDLE, true)] + rest;
    var first := Segment([EARLY], Some(Summary(10, 1, 0, 0)));
    assert ops[1..][1..] == rest && ops[1..][0] == Write(MIDDLE, true);
    OneAppended(first, EARLY, true);
    FirstAppended(EARLY, true);
    FirstUpdate(EARLY);
    OneAppended(first, MIDDLE, true);
    TwoRecords(EARLY, MIDDLE);
    assert Appended(first, MIDDLE, true) == WRITTEN;
    assert Run([first], ops[1..]) == Run([WRITTEN], rest);
  }

  /** The stale summary of the run below makes the next prune throw away a record of its window. */
  lemma StaleLoses()
    ensures Records([STALE]) == [MIDDLE, LATE] && Keep([MIDDLE, LATE], 150, 1000) == [LATE]
    ensures Prune([STALE], 150, 1000) == ([], 2)
  {
    OneSegment(STALE);
    TwoRecords(MIDDLE, LATE);
    TwoKept(MIDDLE, LATE, 150, 1000);
    assert [] + [LATE] == [LATE];
    OneStopped(STALE, 150, 1000);
    assert PruneOne(STALE, 150, 1000) == (None, 2);
  }

  /** A prune stops behind its rewrite, and an append stops before its summary. */
  lemma StoppedAppendMisleads()
    ensures Log([Write(EARLY, true), Write(MIDDLE, true)] + [StopPruning(50, 1000, 0, Rewritten), Write(LATE, false)]) == [STALE]
    ensures Prune([STALE], 150, 1000).0 == [] && Keep(Records([STALE]), 150, 1000) == [LATE]
  {
    var rest := [StopPruning(50, 1000, 0, Rewritten), Write(LATE, false)];
    var short := Segment([MIDDLE], Some(Summary(20, 2, 0, 100)));
    TwoWritten(rest);
    TwoRecords(EARLY, MIDDLE);
    TwoKept(EARLY, MIDDLE, 50, 1000);
    assert [] + [MIDDLE] == [MIDDLE];
    OneStopped(WRITTEN, 50, 1000);
    assert Stopped(WRITTEN, 50, 1000, Rewritten) == short;
    OneAppended(short, LATE, false);
    assert [MIDDLE] + [LATE] == [MIDDLE, LATE];
    assert rest[1..][1..] == [] && rest[1..][0] == Write(LATE, false);
    assert Run([short], rest[1..]) == Run([STALE], []);
    StaleLoses();
  }
}
