/** What the plan of a request picks out of its blocks and exchanges (core/agent/src/model_api.rs). */
module PlanParts {
  import opened Wrappers
  import opened Text
  import opened Exchanges

  /** A trailer is a block with the text of the trailer and nothing but whitespace around it. */
  lemma TrailerIff(b: Block)
    ensures IsTrailer(b) <==> (exists i: nat, j: nat :: IsCore(b.text, i, j) && b.text[i..j] == TRAILER)
  {
    TrimIff(b.text, TRAILER);
  }

  /** The positions, in order, that hold what is picked. */
  ghost predicate Picks<T>(all: seq<T>, at: seq<nat>, picked: seq<T>, good: T -> bool) {
    && |at| == |picked|
    && (forall k :: 0 <= k < |at| ==> at[k] < |all| && picked[k] == all[at[k]])
    && (forall k, l :: 0 <= k < l < |at| ==> at[k] < at[l])
    && (forall i: nat :: i in at <==> i < |all| && good(all[i]))
  }

  function Later(at: seq<nat>): seq<nat> {
    seq(|at|, k requires 0 <= k < |at| => at[k] + 1)
  }

  lemma LaterIs(at: seq<nat>, i: nat)
    ensures i in Later(at) <==> i > 0 && i - 1 in at
  {
    if i > 0 && i - 1 in at {
      var k :| 0 <= k < |at| && at[k] == i - 1;
      assert Later(at)[k] == i;
    }
  }

  lemma PickLater<T>(all: seq<T>, at: seq<nat>, picked: seq<T>, good: T -> bool)
    requires all != [] && Picks(all[1..], at, picked, good)
    ensures Later(at) != [] ==> Later(at)[0] > 0
    ensures forall k :: 0 <= k < |picked| ==> Later(at)[k] < |all| && picked[k] == all[Later(at)[k]]
    ensures forall k, l :: 0 <= k < l < |at| ==> Later(at)[k] < Later(at)[l]
    ensures forall i: nat :: i in Later(at) <==> 0 < i < |all| && good(all[i])
  {
    forall i: nat ensures i in Later(at) <==> 0 < i < |all| && good(all[i]) {
      LaterIs(at, i);
      if i > 0 {
        assert i - 1 in at <==> i - 1 < |all[1..]| && good(all[1..][i - 1]);
      }
    }
  }

  lemma PickOne<T>(all: seq<T>, at: seq<nat>, picked: seq<T>, good: T -> bool) returns (whole: seq<nat>)
    requires all != [] && Picks(all[1..], at, picked, good)
    ensures Picks(all, whole, if good(all[0]) then [all[0]] + picked else picked, good)
  {
    var later := Later(at);
    PickLater(all, at, picked, good);
    whole := later;
    if good(all[0]) {
      whole := [0] + later;
      PickFirst(all, later, picked, good);
    }
  }

  lemma PickFirst<T>(all: seq<T>, later: seq<nat>, picked: seq<T>, good: T -> bool)
    requires all != [] && good(all[0]) && |later| == |picked|
    requires forall k :: 0 <= k < |picked| ==> later[k] < |all| && picked[k] == all[later[k]]
    requires forall k, l :: 0 <= k < l < |later| ==> later[k] < later[l]
    requires forall i: nat :: i in later <==> 0 < i < |all| && good(all[i])
    ensures Picks(all, [0] + later, [all[0]] + picked, good)
  {
    var at, whole := [0] + later, [all[0]] + picked;
    forall k | 0 <= k < |at| ensures at[k] < |all| && whole[k] == all[at[k]] {
      if k > 0 {
        assert at[k] == later[k - 1] && whole[k] == picked[k - 1];
      }
    }
    forall k, l | 0 <= k < l < |at| ensures at[k] < at[l] {
      assert at[l] == later[l - 1] && later[l - 1] in later;
    }
    forall i: nat ensures i in at <==> i < |all| && good(all[i]) {
      InCons(later, i);
    }
  }

  lemma InCons(later: seq<nat>, i: nat)
    ensures i in [0] + later <==> i == 0 || i in later
  {
  }

  /** The trailers of a request and the other blocks, each in their order. */
  lemma {:induction false} TrailersAre(bs: seq<Block>) returns (at: seq<nat>)
    ensures Picks(bs, at, Trailers(bs), b => IsTrailer(b))
  {
    at := [];
    if bs != [] {
      var later := TrailersAre(bs[1..]);
      at := PickOne(bs, later, Trailers(bs[1..]), b => IsTrailer(b));
    }
  }

  lemma {:induction false} OthersAre(bs: seq<Block>) returns (at: seq<nat>)
    ensures Picks(bs, at, Others(bs), b => !IsTrailer(b))
  {
    at := [];
    if bs != [] {
      var later := OthersAre(bs[1..]);
      at := PickOne(bs, later, Others(bs[1..]), b => !IsTrailer(b));
    }
  }

  /** What the two providers without system messages in their lists take of the blocks. */
  lemma {:induction false} UserBlocksAre(bs: seq<Block>) returns (at: seq<nat>)
    ensures Picks(bs, at, UserBlocks(bs), (b: Block) => b.role == User)
  {
    at := [];
    if bs != [] {
      var later := UserBlocksAre(bs[1..]);
      at := PickOne(bs, later, UserBlocks(bs[1..]), (b: Block) => b.role == User);
    }
  }

  /** The exchanges of a delta, in their order. */
  lemma {:induction false} ForDeltaIs(xs: seq<Exchange>, id: string) returns (at: seq<nat>)
    ensures Picks(xs, at, ForDelta(xs, id), (x: Exchange) => x.deltaId == id)
  {
    at := [];
    if xs != [] {
      var later := ForDeltaIs(xs[1..], id);
      at := PickOne(xs, later, ForDelta(xs[1..], id), (x: Exchange) => x.deltaId == id);
    }
  }
}
