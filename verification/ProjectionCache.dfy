/** Turn projections on reconnect. */
module ProjectionCache {
  // The cache of turn projections (bridges/http_websocket/src/lib.rs).

  import opened Wrappers

  datatype Token = Token(sessionId: string, turnId: string, epoch: nat)

  /** `body` stands for everything in a projection but its token. */
  datatype Projection =
    | Active(token: Token, body: string)
    | Finished(token: Token, body: string)

  datatype Outcome =
    | Applied(revision: nat)
    | Duplicate(revision: nat)
    | IgnoredStale(currentRevision: nat)

  datatype Cache = Cache(revision: nat, current: Option<Projection>)

  predicate IsStale(cache: Cache, incoming: Projection) {
    cache.current.Some? &&
    var held := cache.current.value;
    || incoming.token.sessionId != held.token.sessionId
    || incoming.token.epoch < held.token.epoch
    || (incoming.token.epoch == held.token.epoch && (incoming.token.turnId != held.token.turnId || held.Finished?))
  }

  predicate Accepts(cache: Cache, incoming: Projection) {
    cache.current != Some(incoming) && !IsStale(cache, incoming)
  }

  function Next(cache: Cache, incoming: Projection): Cache {
    if Accepts(cache, incoming) then Cache(cache.revision + 1, Some(incoming)) else cache
  }

  function Run(cache: Cache, deliveries: seq<Projection>): Cache
    decreases |deliveries|
  {
    if deliveries == [] then cache else Run(Next(cache, deliveries[0]), deliveries[1..])
  }

  class TurnProjectionCache {
    var revision: nat
    var current: Option<Projection>

    ghost function View(): Cache
      reads this
    {
      Cache(revision, current)
    }

    constructor ()
      ensures View() == Cache(0, None)
    {
      revision, current := 0, None;
    }

    method Apply(projection: Projection) returns (outcome: Outcome)
      modifies this
      ensures View() == Next(old(View()), projection)
      ensures outcome ==
        if old(current) == Some(projection) then Duplicate(old(revision))
        else if Accepts(old(View()), projection) then Applied(old(revision) + 1)
        else IgnoredStale(old(revision))
    {
      if current == Some(projection) {
        return Duplicate(revision);
      }
      var stale := Stale(projection);
      if stale {
        return IgnoredStale(revision);
      }
      revision := revision + 1;
      current := Some(projection);
      outcome := Applied(revision);
    }

    method Stale(incoming: Projection) returns (stale: bool)
      ensures stale == IsStale(View(), incoming)
    {
      if current.None? {
        return false;
      }
      var held := current.value;
      if incoming.token.sessionId != held.token.sessionId {
        return true;
      }
      if incoming.token.epoch < held.token.epoch {
        return true;
      }
      if incoming.token.epoch > held.token.epoch {
        return false;
      }
      if incoming.token.turnId != held.token.turnId {
        return true;
      }
      return held.Finished?;
    }

    method ApplyAll(deliveries: seq<Projection>)
      modifies this
      ensures View() == Run(old(View()), deliveries)
    {
      for i := 0 to |deliveries|
        invariant Run(View(), deliveries[i..]) == Run(old(View()), deliveries)
      {
        assert deliveries[i..][1..] == deliveries[i + 1..];
        var _ := Apply(deliveries[i]);
      }
    }
  }

  // ----- every run, whatever is delivered -----

  function AppliedCount(cache: Cache, deliveries: seq<Projection>): nat
    decreases |deliveries|
  {
    if deliveries == [] then 0
    else (if Accepts(cache, deliveries[0]) then 1 else 0) + AppliedCount(Next(cache, deliveries[0]), deliveries[1..])
  }

  /** The epoch never goes back, the session never changes, a finished turn stays, the revision counts the changes. */
  lemma {:induction false} RunOnlyMovesOn(cache: Cache, deliveries: seq<Projection>)
    ensures var end := Run(cache, deliveries);
      && end.revision == cache.revision + AppliedCount(cache, deliveries)
      && (end.revision == cache.revision ==> end == cache)
      && (cache.current.Some? ==>
        && end.current.Some?
        && end.current.value.token.sessionId == cache.current.value.token.sessionId
        && end.current.value.token.epoch >= cache.current.value.token.epoch
        && (end.current.value.token.epoch == cache.current.value.token.epoch ==>
          && end.current.value.token.turnId == cache.current.value.token.turnId
          && (cache.current.value.Finished? ==> end == cache)))
    decreases |deliveries|
  {
    if deliveries != [] {
      RunOnlyMovesOn(Next(cache, deliveries[0]), deliveries[1..]);
    }
  }

  // ----- convergence -----

  function Delivered(deliveries: seq<Projection>): set<Projection> {
    set p | p in deliveries
  }

  predicate OneSession(all: set<Projection>) {
    forall p, q :: p in all && q in all ==> p.token.sessionId == q.token.sessionId
  }

  /** A projection of the highest epoch. */
  predicate AtTop(all: set<Projection>, p: Projection) {
    p in all && forall q :: q in all ==> q.token.epoch <= p.token.epoch
  }

  /** The projection that stays: alone at the highest epoch, or the only Finished one of the only turn there. */
  ghost predicate IsLast(all: set<Projection>, last: Projection) {
    && AtTop(all, last)
    && (|| (forall p :: AtTop(all, p) ==> p == last)
        || (last.Finished? && forall p :: AtTop(all, p) ==> p.token.turnId == last.token.turnId && (p.Finished? ==> p == last)))
  }

  ghost predicate HasLast(all: set<Projection>) {
    exists last :: last in all && IsLast(all, last)
  }

  lemma {:induction false} RunConverges(cache: Cache, deliveries: seq<Projection>, all: set<Projection>, last: Projection)
    requires OneSession(all) && IsLast(all, last)
    requires forall i :: 0 <= i < |deliveries| ==> deliveries[i] in all
    requires cache.current.Some? ==> cache.current.value in all
    requires last in deliveries || cache.current == Some(last)
    ensures Run(cache, deliveries).current == Some(last)
    decreases |deliveries|
  {
    if deliveries != [] {
      var first := deliveries[0];
      var next := Next(cache, first);
      assert first in all;
      if cache.current.Some? && cache.current.value.token.epoch == last.token.epoch {
        assert AtTop(all, cache.current.value);
      }
      if first.token.epoch == last.token.epoch {
        assert AtTop(all, first);
      }
      if first == last || cache.current == Some(last) {
        assert next.current == Some(last);
      } else {
        assert last in deliveries[1..];
      }
      RunConverges(next, deliveries[1..], all, last);
    }
  }

  /**
    With one session, and in the highest epoch one turn id and one Finished projection, every order and every duplication
    of the deliveries ends in that projection.
   */
  lemma Convergence(deliveries: seq<Projection>, last: Projection)
    requires OneSession(Delivered(deliveries)) && last in deliveries && last.Finished?
    requires forall p :: p in deliveries ==>
      && p.token.epoch <= last.token.epoch
      && (p.token.epoch == last.token.epoch ==> p.token.turnId == last.token.turnId && (p.Finished? ==> p == last))
    ensures Run(Cache(0, None), deliveries).current == Some(last)
  {
    RunConverges(Cache(0, None), deliveries, Delivered(deliveries), last);
  }

  // ----- when the order does not matter -----

  /** All deliveries of these projections, in any order and with any duplication, end the same. */
  ghost predicate AllEndSame(all: set<Projection>) {
    forall a, b :: Delivered(a) == all && Delivered(b) == all ==>
      Run(Cache(0, None), a).current == Run(Cache(0, None), b).current
  }

  lemma {:induction false} Listed(all: set<Projection>) returns (deliveries: seq<Projection>)
    ensures Delivered(deliveries) == all
    decreases |all|
  {
    if all == {} {
      deliveries := [];
    } else {
      var p :| p in all;
      var rest := Listed(all - {p});
      deliveries := [p] + rest;
      assert Delivered(deliveries) == {p} + Delivered(rest);
    }
  }

  lemma {:induction false} RunTwice(cache: Cache, a: seq<Projection>, b: seq<Projection>)
    ensures Run(cache, a + b) == Run(Run(cache, a), b)
    decreases |a|
  {
    if a == [] {
      assert a + b == b;
    } else {
      assert (a + b)[1..] == a[1..] + b;
      RunTwice(Next(cache, a[0]), a[1..], b);
    }
  }

  lemma {:induction false} EndsInside(cache: Cache, deliveries: seq<Projection>, all: set<Projection>)
    requires Delivered(deliveries) <= all && (cache.current.Some? ==> cache.current.value in all)
    ensures var end := Run(cache, deliveries).current; end.Some? ==> end.value in all
    decreases |deliveries|
  {
    if deliveries != [] {
      assert deliveries[0] in Delivered(deliveries);
      assert Delivered(deliveries[1..]) <= Delivered(deliveries);
      EndsInside(Next(cache, deliveries[0]), deliveries[1..], all);
    }
  }

  /** Delivered first, a projection fixes the session; at the top also the turn; and a Finished one there stays. */
  lemma First(all: set<Projection>, p: Projection) returns (deliveries: seq<Projection>)
    requires p in all
    ensures Delivered(deliveries) == all
    ensures var end := Run(Cache(0, None), deliveries).current;
      && end.Some? && end.value in all
      && end.value.token.sessionId == p.token.sessionId
      && (AtTop(all, p) ==> end.value.token.turnId == p.token.turnId && (p.Finished? ==> end == Some(p)))
  {
    var rest := Listed(all);
    deliveries := [p] + rest;
    var first := Next(Cache(0, None), p);
    assert deliveries[1..] == rest;
    assert Delivered(deliveries) == {p} + Delivered(rest);
    RunOnlyMovesOn(first, rest);
    EndsInside(first, rest, all);
  }

  /** Delivered last, at the top and with nothing finished there, a projection is what is left. */
  lemma LastWins(all: set<Projection>, p: Projection) returns (deliveries: seq<Projection>)
    requires OneSession(all) && AtTop(all, p)
    requires forall q :: AtTop(all, q) ==> q.token.turnId == p.token.turnId && !q.Finished?
    ensures Delivered(deliveries) == all
    ensures Run(Cache(0, None), deliveries).current == Some(p)
  {
    var rest := Listed(all);
    deliveries := rest + [p];
    var before := Run(Cache(0, None), rest);
    assert Delivered(deliveries) == Delivered(rest) + {p};
    EndsInside(Cache(0, None), rest, all);
    RunTwice(Cache(0, None), rest, [p]);
    assert [p][1..] == [];
    if before.current.Some? && before.current.value.token.epoch == p.token.epoch {
      assert AtTop(all, before.current.value);
    }
    assert Run(before, [p]) == Next(before, p);
  }

  lemma SomeTop(all: set<Projection>) returns (top: Projection)
    requires all != {}
    ensures AtTop(all, top)
    decreases |all|
  {
    var p :| p in all;
    top := p;
    if all != {p} {
      var q := SomeTop(all - {p});
      top := if q.token.epoch >= p.token.epoch then q else p;
      assert forall r :: r in all ==> r == p || r in all - {p};
    }
  }

  lemma SameEndHasLast(all: set<Projection>)
    requires all != {} && AllEndSame(all)
    ensures OneSession(all) && HasLast(all)
  {
    forall p, q | p in all && q in all ensures p.token.sessionId == q.token.sessionId {
      var a := First(all, p);
      var b := First(all, q);
    }
    forall p, q | AtTop(all, p) && AtTop(all, q) ensures p.token.turnId == q.token.turnId && (p.Finished? && q.Finished? ==> p == q) {
      var a := First(all, p);
      var b := First(all, q);
    }
    var top := SomeTop(all);
    if f :| f in all && AtTop(all, f) && f.Finished? {
      assert IsLast(all, f);
    } else {
      forall p | AtTop(all, p) ensures p == top {
        var a := LastWins(all, p);
        var b := LastWins(all, top);
      }
      assert IsLast(all, top);
    }
  }

  /**
    The exact condition: all deliveries of some projections end the same if and only if they belong to one session, and
    the highest epoch holds a single projection, or one turn id and exactly one Finished projection.
   */
  lemma AllEndSameIff(all: set<Projection>)
    requires all != {}
    ensures AllEndSame(all) <==> OneSession(all) && HasLast(all)
  {
    if OneSession(all) && HasLast(all) {
      var last :| last in all && IsLast(all, last);
      forall a, b | Delivered(a) == all && Delivered(b) == all
        ensures Run(Cache(0, None), a).current == Run(Cache(0, None), b).current
      {
        EndsInLast(a, all, last);
        EndsInLast(b, all, last);
      }
    }
    if AllEndSame(all) {
      SameEndHasLast(all);
    }
  }

  lemma EndsInLast(deliveries: seq<Projection>, all: set<Projection>, last: Projection)
    requires OneSession(all) && IsLast(all, last) && Delivered(deliveries) == all
    ensures Run(Cache(0, None), deliveries).current == Some(last)
  {
    assert last in Delivered(deliveries);
    forall i | 0 <= i < |deliveries| ensures deliveries[i] in all {
      assert deliveries[i] in Delivered(deliveries);
    }
    RunConverges(Cache(0, None), deliveries, all, last);
  }

  /** Two different Finished projections of the highest epoch: the first to arrive stays, so the order shows. */
  lemma TwoFinishesRace(token: Token, a: string, b: string)
    requires a != b
    ensures Run(Cache(0, None), [Finished(token, a), Finished(token, b)]).current == Some(Finished(token, a))
    ensures Run(Cache(0, None), [Finished(token, b), Finished(token, a)]).current == Some(Finished(token, b))
  {
    TwoDeliveries(Cache(0, None), Finished(token, a), Finished(token, b));
    TwoDeliveries(Cache(0, None), Finished(token, b), Finished(token, a));
  }

  lemma TwoDeliveries(cache: Cache, p: Projection, q: Projection)
    ensures Run(cache, [p, q]) == Next(Next(cache, p), q)
  {
    assert [p, q][1..] == [q] && [q][1..] == [];
    assert Run(Next(cache, p), [q]) == Run(Next(Next(cache, p), q), []);
  }
}
