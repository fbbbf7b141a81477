/**
  Audit log retention (core/agent/src/audit.rs). A segment is a sequence of records with a stored summary; the rolling
  file store decides when it is full.
 */
module Audit {
  import opened Wrappers

  type Time = t: int | -0x8000_0000_0000_0000 <= t <= 0x7fff_ffff_ffff_ffff

  const LATEST: Time := 0x7fff_ffff_ffff_ffff
  const EARLIEST: Time := -0x8000_0000_0000_0000

  type Positive = n: nat | n > 0 witness 1

  /** A line of a segment, its newline counted; `time` is None when no event time can be read from it. */
  datatype Record = Record(bytes: Positive, time: Option<Time>)

  datatype Summary = Summary(bytes: nat, records: nat, minTime: Time, maxTime: Time)

  datatype Segment = Segment(records: seq<Record>, stored: Option<Summary>)

  function Min(a: Time, b: Time): Time {
    if a <= b then a else b
  }

  function Max(a: Time, b: Time): Time {
    if a >= b then a else b
  }

  function Size(rs: seq<Record>): nat {
    if rs == [] then 0 else Size(rs[..|rs| - 1]) + rs[|rs| - 1].bytes
  }

  predicate Timed(rs: seq<Record>) {
    forall i :: 0 <= i < |rs| ==> rs[i].time.Some?
  }

  function MinTime(rs: seq<Record>): Time
    requires Timed(rs)
  {
    if rs == [] then LATEST else Min(MinTime(rs[..|rs| - 1]), rs[|rs| - 1].time.value)
  }

  function MaxTime(rs: seq<Record>): Time
    requires Timed(rs)
  {
    if rs == [] then EARLIEST else Max(MaxTime(rs[..|rs| - 1]), rs[|rs| - 1].time.value)
  }

  /** What a full scan says about a segment. */
  function Rescan(rs: seq<Record>): Option<Summary> {
    if rs != [] && Timed(rs) then Some(Summary(Size(rs), |rs|, MinTime(rs), MaxTime(rs))) else None
  }

  predicate Retained(r: Record, cutoff: Time, now: Time) {
    r.time.Some? && cutoff <= r.time.value <= now
  }

  function Keep(rs: seq<Record>, cutoff: Time, now: Time): (kept: seq<Record>)
    ensures |kept| <= |rs|
    ensures |kept| == |rs| ==> kept == rs
    ensures forall i :: 0 <= i < |kept| ==> Retained(kept[i], cutoff, now)
  {
    if rs == [] then []
    else Keep(rs[..|rs| - 1], cutoff, now) + if Retained(rs[|rs| - 1], cutoff, now) then [rs[|rs| - 1]] else []
  }

  method Summarize(rs: seq<Record>) returns (summary: Option<Summary>)
    ensures summary == Rescan(rs)
  {
    var bytes, records, minTime, maxTime := 0, 0, LATEST, EARLIEST;
    for i := 0 to |rs|
      invariant Timed(rs[..i])
      invariant bytes == Size(rs[..i]) && records == i
      invariant minTime == MinTime(rs[..i]) && maxTime == MaxTime(rs[..i])
    {
      assert rs[..i + 1][..i] == rs[..i];
      bytes := bytes + rs[i].bytes;
      if rs[i].time.None? {
        return None;
      }
      records := records + 1;
      minTime := Min(minTime, rs[i].time.value);
      maxTime := Max(maxTime, rs[i].time.value);
    }
    assert rs[..|rs|] == rs;
    if records == 0 {
      return None;
    }
    summary := Some(Summary(bytes, records, minTime, maxTime));
  }

  method PruneSegment(rs: seq<Record>, cutoff: Time, now: Time) returns (retained: seq<Record>, removed: nat)
    ensures retained == Keep(rs, cutoff, now)
    ensures removed == |rs| - |retained|
  {
    retained, removed := [], 0;
    for i := 0 to |rs|
      invariant retained == Keep(rs[..i], cutoff, now)
      invariant removed == i - |retained|
    {
      assert rs[..i + 1][..i] == rs[..i];
      if Retained(rs[i], cutoff, now) {
        retained := retained + [rs[i]];
      } else {
        removed := removed + 1;
      }
    }
    assert rs[..|rs|] == rs;
  }

  // ----- a segment with its summary -----

  /** The summary the log works with: the stored one when its byte count fits the file, a rescan otherwise. */
  function Load(segment: Segment): Option<Summary> {
    if segment.stored.Some? && segment.stored.value.bytes == Size(segment.records) then segment.stored
    else Rescan(segment.records)
  }

  function Refreshed(segment: Segment): Segment {
    if Load(segment).Some? then segment.(stored := Load(segment)) else segment
  }

  /** Pruning one segment; None when the file goes. */
  function PruneOne(segment: Segment, cutoff: Time, now: Time): (Option<Segment>, nat) {
    var summary := Load(segment);
    if summary.Some? && (summary.value.maxTime < cutoff || summary.value.minTime > now) then (None, summary.value.records)
    else if summary.Some? && summary.value.minTime >= cutoff && summary.value.maxTime <= now then (Some(Refreshed(segment)), 0)
    else
      var kept := Keep(segment.records, cutoff, now);
      var removed := |segment.records| - |kept|;
      if removed == 0 then (Some(Refreshed(segment)), 0)
      else if kept == [] then (None, removed)
      else (Some(Segment(kept, Rescan(kept))), removed)
  }

  function Pruned(segment: Segment, cutoff: Time, now: Time): seq<Segment> {
    var pruned := PruneOne(segment, cutoff, now).0;
    if pruned.Some? then [pruned.value] else []
  }

  function Prune(segments: seq<Segment>, cutoff: Time, now: Time): (seq<Segment>, nat) {
    if segments == [] then ([], 0)
    else
      var (before, removed) := Prune(segments[..|segments| - 1], cutoff, now);
      var more := PruneOne(segments[|segments| - 1], cutoff, now).1;
      (before + Pruned(segments[|segments| - 1], cutoff, now), removed + more)
  }

  // ----- appending -----

  /** The rolling store: `evicted` old segments go, and a record that rolls opens a new segment. */
  function Stored(segments: seq<Segment>, record: Record, rolled: bool, evicted: nat): seq<Segment> {
    var left := segments[if evicted <= |segments| then evicted else |segments|..];
    if rolled || left == [] then left + [Segment([record], None)]
    else
      var last := left[|left| - 1];
      left[..|left| - 1] + [last.(records := last.records + [record])]
  }

  /** The summary of the active segment after a record of `bytes` bytes was appended to it. */
  function Updated(segment: Segment, time: Time, bytes: nat): Segment {
    var size := Size(segment.records);
    match segment.stored
    case Some(previous) =>
      if previous.bytes + bytes == size
      then segment.(stored := Some(Summary(size, previous.records + 1, Min(previous.minTime, time), Max(previous.maxTime, time))))
      else if Rescan(segment.records).Some? then segment.(stored := Rescan(segment.records)) else segment
    case None =>
      if size == bytes then segment.(stored := Some(Summary(size, 1, time, time)))
      else if Rescan(segment.records).Some? then segment.(stored := Rescan(segment.records)) else segment
  }

  /** `completes` is false when the process stops before the summary is written. */
  function Append(segments: seq<Segment>, record: Record, rolled: bool, evicted: nat, completes: bool): seq<Segment> {
    var stored := Stored(segments, record, rolled, evicted);
    if !completes || record.time.None? then stored
    else
      stored[..|stored| - 1] + [Updated(stored[|stored| - 1], record.time.value, record.bytes)]
  }

  // ----- a prune that stops -----

  /** Pruning rewrites the file, rather than leaving or removing it. */
  predicate Rewrites(segment: Segment, cutoff: Time, now: Time) {
    PruneOne(segment, cutoff, now).0.Some? && PruneOne(segment, cutoff, now).1 > 0
  }

  /** How far a prune came with the segment at which it stopped; in the last case the old summary is still stored. */
  datatype Stage = Untouched | Summarized | Rewritten

  function Stopped(segment: Segment, cutoff: Time, now: Time, stage: Stage): Segment {
    match stage
    case Untouched => segment
    case Summarized => Refreshed(segment)
    case Rewritten =>
      if Rewrites(segment, cutoff, now) then Segment(Keep(segment.records, cutoff, now), Refreshed(segment).stored)
      else Refreshed(segment)
  }

  /** A prune that stops at segment `at`; a segment whose file is gone is behind it. */
  function StopPrune(segments: seq<Segment>, cutoff: Time, now: Time, at: nat, stage: Stage): seq<Segment> {
    if at >= |segments| then Prune(segments, cutoff, now).0
    else Prune(segments[..at], cutoff, now).0 + [Stopped(segments[at], cutoff, now, stage)] + segments[at + 1..]
  }

  class AuditLog {
    var segments: seq<Segment>

    constructor ()
      ensures segments == []
    {
      segments := [];
    }

    method AppendRecord(record: Record, rolled: bool, evicted: nat, completes: bool)
      modifies this
      ensures segments == Append(old(segments), record, rolled, evicted, completes)
    {
      segments := Stored(segments, record, rolled, evicted);
      if completes && record.time.Some? {
        UpdateActive(record.time.value, record.bytes);
      }
    }

    method UpdateActive(time: Time, bytes: nat)
      requires segments != []
      modifies this
      ensures segments == old(segments)[..|old(segments)| - 1] + [Updated(old(segments)[|old(segments)| - 1], time, bytes)]
    {
      var segment := segments[|segments| - 1];
      var previous := segment.stored;
      var summary: Summary;
      if previous.Some? && previous.value.bytes + bytes == Size(segment.records) {
        summary := Summary(Size(segment.records), previous.value.records + 1,
          Min(previous.value.minTime, time), Max(previous.value.maxTime, time));
      } else if previous.None? && Size(segment.records) == bytes {
        summary := Summary(Size(segment.records), 1, time, time);
      } else {
        var rescanned := Summarize(segment.records);
        if rescanned.None? {
          assert segments == segments[..|segments| - 1] + [segment];
          return;
        }
        summary := rescanned.value;
      }
      segments := segments[..|segments| - 1] + [segment.(stored := Some(summary))];
    }

    /** The summary of segment `i`, stored again when it had to be scanned for. */
    method SegmentSummary(i: nat) returns (summary: Option<Summary>)
      requires i < |segments|
      modifies this
      ensures summary == Load(old(segments)[i])
      ensures segments == old(segments)[i := Refreshed(old(segments)[i])]
    {
      var segment := segments[i];
      if segment.stored.Some? && segment.stored.value.bytes == Size(segment.records) {
        assert segments == segments[i := segment];
        return segment.stored;
      }
      summary := Summarize(segment.records);
      if summary.Some? {
        segments := segments[i := segment.(stored := summary)];
      } else {
        assert segments == segments[i := segment];
      }
    }

    /** Prunes segment `i`, or removes its file. */
    method PruneAt(i: nat, cutoff: Time, now: Time) returns (removed: nat)
      requires i < |segments|
      modifies this
      ensures removed == PruneOne(old(segments)[i], cutoff, now).1
      ensures segments == old(segments)[..i] + Pruned(old(segments)[i], cutoff, now) + old(segments)[i + 1..]
    {
      ghost var before, after := segments[..i], segments[i + 1..];
      var summary := SegmentSummary(i);
      assert segments[..i] == before && segments[i + 1..] == after;
      assert segments == before + [segments[i]] + after;
      if summary.Some? && (summary.value.maxTime < cutoff || summary.value.minTime > now) {
        removed := summary.value.records;
        segments := segments[..i] + segments[i + 1..];
      } else if summary.Some? && summary.value.minTime >= cutoff && summary.value.maxTime <= now {
        removed := 0;
      } else {
        var retained;
        retained, removed := PruneSegment(segments[i].records, cutoff, now);
        if removed > 0 {
          if retained == [] {
            segments := segments[..i] + segments[i + 1..];
          } else {
            var rescanned := Summarize(retained);
            segments := segments[i := Segment(retained, rescanned)];
            assert segments == before + [segments[i]] + after;
          }
        }
      }
    }

    method PruneLog(cutoff: Time, now: Time) returns (removed: nat)
      modifies this
      ensures (segments, removed) == Prune(old(segments), cutoff, now)
    {
      ghost var all := segments;
      var at, count := 0, |segments|;
      removed := 0;
      assert segments[..0] == [] && all[..0] == [] && segments[0..] == all[0..];
      for i := 0 to count
        invariant 0 <= at && count == |all| && |segments| == at + (count - i)
        invariant segments[at..] == all[i..]
        invariant segments[..at] == Prune(all[..i], cutoff, now).0
        invariant removed == Prune(all[..i], cutoff, now).1
      {
        ghost var done, rest := segments[..at], segments[at + 1..];
        assert segments[at] == all[i] && rest == all[i + 1..];
        PruneStep(all, i, cutoff, now);
        var before := |segments|;
        var more := PruneAt(at, cutoff, now);
        removed := removed + more;
        ghost var pruned := Pruned(all[i], cutoff, now);
        assert segments == done + pruned + rest;
        if |segments| == before {
          at := at + 1;
        }
        assert at == |done + pruned|;
        assert segments[..at] == done + pruned && segments[at..] == rest;
      }
      assert all[..count] == all && segments[..at] == segments;
    }
  }

  lemma PruneStep(segments: seq<Segment>, i: nat, cutoff: Time, now: Time)
    requires i < |segments|
    ensures Prune(segments[..i + 1], cutoff, now).0 == Prune(segments[..i], cutoff, now).0 + Pruned(segments[i], cutoff, now)
    ensures Prune(segments[..i + 1], cutoff, now).1 == Prune(segments[..i], cutoff, now).1 + PruneOne(segments[i], cutoff, now).1
  {
    assert segments[..i + 1][..i] == segments[..i];
  }

  // ----- what a scan knows -----

  lemma {:induction false} TimesBounded(rs: seq<Record>, i: nat)
    requires Timed(rs) && i < |rs|
    ensures MinTime(rs) <= rs[i].time.value <= MaxTime(rs)
  {
    if i < |rs| - 1 {
      TimesBounded(rs[..|rs| - 1], i);
    }
  }

  lemma {:induction false} KeepAll(rs: seq<Record>, cutoff: Time, now: Time)
    requires forall i :: 0 <= i < |rs| ==> Retained(rs[i], cutoff, now)
    ensures Keep(rs, cutoff, now) == rs
  {
    if rs != [] {
      KeepAll(rs[..|rs| - 1], cutoff, now);
    }
  }

  lemma {:induction false} KeepNone(rs: seq<Record>, cutoff: Time, now: Time)
    requires forall i :: 0 <= i < |rs| ==> !Retained(rs[i], cutoff, now)
    ensures Keep(rs, cutoff, now) == []
  {
    if rs != [] {
      KeepNone(rs[..|rs| - 1], cutoff, now);
    }
  }

  lemma {:induction false} KeepConcat(rs: seq<Record>, ss: seq<Record>, cutoff: Time, now: Time)
    ensures Keep(rs + ss, cutoff, now) == Keep(rs, cutoff, now) + Keep(ss, cutoff, now)
  {
    if ss == [] {
      assert rs + ss == rs;
    } else {
      assert (rs + ss)[..|rs + ss| - 1] == rs + ss[..|ss| - 1];
      KeepConcat(rs, ss[..|ss| - 1], cutoff, now);
    }
  }

  lemma {:induction false} SizeAtLeast(rs: seq<Record>)
    ensures Size(rs) >= |rs|
  {
    if rs != [] {
      SizeAtLeast(rs[..|rs| - 1]);
    }
  }

  lemma AppendedScan(rs: seq<Record>, r: Record)
    ensures Size(rs + [r]) == Size(rs) + r.bytes
    ensures Timed(rs + [r]) <==> Timed(rs) && r.time.Some?
    ensures Timed(rs + [r]) ==>
      MinTime(rs + [r]) == Min(MinTime(rs), r.time.value) && MaxTime(rs + [r]) == Max(MaxTime(rs), r.time.value)
  {
    assert (rs + [r])[..|rs|] == rs;
    if Timed(rs + [r]) {
      forall i | 0 <= i < |rs| ensures rs[i].time.Some? {
        assert (rs + [r])[i].time.Some?;
      }
      assert (rs + [r])[|rs|].time.Some?;
    }
  }

  lemma OutsideWindow(rs: seq<Record>, cutoff: Time, now: Time)
    requires Timed(rs) && (MaxTime(rs) < cutoff || MinTime(rs) > now)
    ensures Keep(rs, cutoff, now) == []
  {
    forall i | 0 <= i < |rs| ensures !Retained(rs[i], cutoff, now) {
      TimesBounded(rs, i);
    }
    KeepNone(rs, cutoff, now);
  }

  lemma InsideWindow(rs: seq<Record>, cutoff: Time, now: Time)
    requires Timed(rs) && MinTime(rs) >= cutoff && MaxTime(rs) <= now
    ensures Keep(rs, cutoff, now) == rs
  {
    forall i | 0 <= i < |rs| ensures Retained(rs[i], cutoff, now) {
      TimesBounded(rs, i);
    }
    KeepAll(rs, cutoff, now);
  }

  lemma OneSegment(segment: Segment)
    ensures Records([segment]) == segment.records
  {
    assert [segment][..0] == [];
    assert Records([]) + segment.records == segment.records;
  }

  function Records(segments: seq<Segment>): seq<Record> {
    if segments == [] then [] else Records(segments[..|segments| - 1]) + segments[|segments| - 1].records
  }

  lemma {:induction false} RecordsConcat(s: seq<Segment>, t: seq<Segment>)
    ensures Records(s + t) == Records(s) + Records(t)
  {
    if t == [] {
      assert s + t == s;
    } else {
      assert (s + t)[..|s + t| - 1] == s + t[..|t| - 1];
      RecordsConcat(s, t[..|t| - 1]);
    }
  }

  // ----- runs -----

  /** `completes`, `at` and `stage` say how far an append or a prune came that the process did not survive. */
  datatype Operation =
    | AppendEvent(record: Record, rolled: bool, evicted: nat, completes: bool)
    | PruneEvents(cutoff: Time, now: Time)
    | StopPruning(cutoff: Time, now: Time, at: nat, stage: Stage)

  function Step(segments: seq<Segment>, op: Operation): seq<Segment> {
    match op
    case AppendEvent(record, rolled, evicted, completes) => Append(segments, record, rolled, evicted, completes)
    case PruneEvents(cutoff, now) => Prune(segments, cutoff, now).0
    case StopPruning(cutoff, now, at, stage) => StopPrune(segments, cutoff, now, at, stage)
  }

  function Run(segments: seq<Segment>, ops: seq<Operation>): seq<Segment>
    decreases |ops|
  {
    if ops == [] then segments else Run(Step(segments, ops[0]), ops[1..])
  }

  /** The log after a run that starts with no segments. */
  function Log(ops: seq<Operation>): seq<Segment> {
    Run([], ops)
  }
}
