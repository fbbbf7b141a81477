/**
  The closure loop that collects the processes below a root (scripts/runtime_io_guard.py). A table says of every process which
  one started it; the table may be of any shape, with circles and with parents that are not in it. The loop passes over the
  entries in their order until a pass adds nothing.
 */
module ProcessTree {

  type Parents = map<int, int>

  /** `pid` comes from `root` in at most `steps` parent links. */
  predicate DescendsIn(parents: Parents, root: int, pid: int, steps: nat)
    decreases steps
  {
    pid == root || (steps > 0 && pid in parents && DescendsIn(parents, root, parents[pid], steps - 1))
  }

  ghost predicate Descends(parents: Parents, root: int, pid: int) {
    exists steps: nat :: DescendsIn(parents, root, pid, steps)
  }

  predicate Distinct(s: seq<int>) {
    forall i, j :: 0 <= i < j < |s| ==> s[i] != s[j]
  }

  /** Every process of the list but the first has its parent before it. */
  predicate Grown(s: seq<int>, parents: Parents, root: int) {
    && |s| > 0 && s[0] == root
    && forall i :: 0 < i < |s| ==> s[i] in parents && parents[s[i]] in s[..i]
  }

  /** Nothing below the known processes is left out. */
  predicate Closed(known: set<int>, parents: Parents) {
    forall pid :: pid in parents && parents[pid] in known ==> pid in known
  }

  /** What the list and the set say at any time. */
  predicate Collected(result: seq<int>, known: set<int>, parents: Parents, root: int) {
    && Distinct(result) && Grown(result, parents, root)
    && known == (set pid | pid in result)
    && known <= {root} + parents.Keys
  }

  /** The process need not be added: it is known, or its parent is not. */
  predicate Settled(pid: int, known: set<int>, parents: Parents) {
    pid in parents && parents[pid] in known ==> pid in known
  }

  lemma AddChild(result: seq<int>, known: set<int>, parents: Parents, root: int, pid: int)
    requires Collected(result, known, parents, root)
    requires pid !in known && pid in parents && parents[pid] in known
    ensures Collected(result + [pid], known + {pid}, parents, root)
  {
    var longer := result + [pid];
    assert forall i :: 0 <= i < |result| ==> longer[..i] == result[..i] && longer[i] == result[i];
    assert longer[..|result|] == result;
  }

  /** One pass over the processes. */
  method Pass(parents: Parents, entries: seq<int>, root: int, result: seq<int>, known: set<int>)
    returns (grown: seq<int>, grownKnown: set<int>, changed: bool)
    requires Collected(result, known, parents, root)
    requires forall pid :: pid in entries <==> pid in parents
    ensures Collected(grown, grownKnown, parents, root)
    ensures known <= grownKnown
    ensures changed ==> known != grownKnown
    ensures !changed ==> Closed(grownKnown, parents)
  {
    grown, grownKnown, changed := result, known, false;
    for i := 0 to |entries|
      invariant Collected(grown, grownKnown, parents, root)
      invariant known <= grownKnown
      invariant changed ==> known != grownKnown
      invariant !changed ==> known == grownKnown && forall k :: 0 <= k < i ==> Settled(entries[k], grownKnown, parents)
    {
      var pid := entries[i];
      assert pid in entries;
      if pid !in grownKnown && parents[pid] in grownKnown {
        AddChild(grown, grownKnown, parents, root, pid);
        grownKnown := grownKnown + {pid};
        grown := grown + [pid];
        changed := true;
      }
    }
    if !changed {
      forall pid | pid in parents && parents[pid] in grownKnown ensures pid in grownKnown {
        assert pid in entries;
        assert Settled(pid, grownKnown, parents);
      }
    }
  }

  /**
    `entries` are the processes of the map in the order in which the loop meets them. Parent links may run in circles.
   */
  method Collect(parents: Parents, entries: seq<int>, root: int) returns (result: seq<int>)
    requires forall pid :: pid in entries <==> pid in parents
    ensures Distinct(result) && Grown(result, parents, root)
    ensures forall pid :: pid in result <==> Descends(parents, root, pid)
  {
    result := [root];
    var known := {root};
    var changed := true;
    while changed
      invariant Collected(result, known, parents, root)
      invariant !changed ==> Closed(known, parents)
      decreases |{root} + parents.Keys - known|, changed
    {
      ghost var before := known;
      result, known, changed := Pass(parents, entries, root, result, known);
      if changed {
        Smaller(before, known, {root} + parents.Keys);
      } else {
        SameOrSmaller(before, known, {root} + parents.Keys);
      }
    }
    CollectedDescend(result, known, parents, root);
  }

  lemma CollectedDescend(result: seq<int>, known: set<int>, parents: Parents, root: int)
    requires Collected(result, known, parents, root) && Closed(known, parents)
    ensures forall pid :: pid in result <==> Descends(parents, root, pid)
  {
    forall pid ensures pid in result <==> Descends(parents, root, pid) {
      if pid in result {
        var i :| 0 <= i < |result| && result[i] == pid;
        GrownDescends(result, parents, root, i);
      }
      if Descends(parents, root, pid) {
        var steps: nat :| DescendsIn(parents, root, pid, steps);
        DescendantsKnown(known, parents, root, pid, steps);
      }
    }
  }

  lemma SameOrSmaller<T>(before: set<T>, after: set<T>, all: set<T>)
    requires before <= after
    ensures |all - after| <= |all - before|
  {
    assert all - before == (all - after) + ((all - before) - (all - after));
  }

  lemma Smaller<T>(before: set<T>, after: set<T>, all: set<T>)
    requires before <= after <= all && before != after
    ensures |all - after| < |all - before|
  {
    var x :| x in after && x !in before;
    assert x in all - before;
    SameOrSmaller(before, after, all - {x});
    assert all - after == (all - {x}) - after;
    assert all - before == ((all - {x}) - before) + {x};
  }

  lemma {:induction false} GrownDescends(s: seq<int>, parents: Parents, root: int, i: nat)
    requires Grown(s, parents, root) && i < |s|
    ensures Descends(parents, root, s[i])
  {
    if i == 0 {
      assert DescendsIn(parents, root, root, 0);
    } else {
      var j :| 0 <= j < |s[..i]| && s[..i][j] == parents[s[i]];
      GrownDescends(s, parents, root, j);
      var steps: nat :| DescendsIn(parents, root, s[j], steps);
      assert DescendsIn(parents, root, s[i], steps + 1);
    }
  }

  lemma {:induction false} DescendantsKnown(known: set<int>, parents: Parents, root: int, pid: int, steps: nat)
    requires root in known && Closed(known, parents)
    requires DescendsIn(parents, root, pid, steps)
    ensures pid in known
    decreases steps
  {
    if pid != root {
      DescendantsKnown(known, parents, root, parents[pid], steps - 1);
    }
  }
}
