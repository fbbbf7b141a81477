/** What an append does to the records of the audit log (core/agent/src/audit.rs). */
module AuditAppends {
  import opened Wrappers
  import opened Audit

  /** An append loses whole oldest segments only, and puts its record behind all others. */
  lemma AppendKeepsRecords(segments: seq<Segment>, r: Record, rolled: bool, evicted: nat, completes: bool)
    ensures var left := segments[if evicted <= |segments| then evicted else |segments|..];
      var after := Append(segments, r, rolled, evicted, completes);
      && Records(after) == Records(left) + [r]
      && |after| == (if rolled || left == [] then |left| + 1 else |left|)
      && (rolled || left == [] ==> after[|after| - 1].records == [r])
      && after[..|after| - 1] == left[..|after| - 1]
  {
    var left := segments[if evicted <= |segments| then evicted else |segments|..];
    var stored, after := Stored(segments, r, rolled, evicted), Append(segments, r, rolled, evicted, completes);
    var n := |stored| - 1;
    assert |after| == |stored| && after[..n] == stored[..n] && after[n].records == stored[n].records;
    if rolled || left == [] {
      assert stored[..n] == left;
    } else {
      assert left[..n] == stored[..n] && stored[n].records == left[n].records + [r];
      assert Records(left) == Records(left[..n]) + left[n].records;
      assert (Records(left[..n]) + left[n].records) + [r] == Records(left[..n]) + (left[n].records + [r]);
    }
  }
}
