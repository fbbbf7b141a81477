/** What counting, stripping and looking up mean for a body (core/agent/src/model_api.rs). */
module CacheMarks {
  import opened Wrappers
  import opened CacheControl

  // ----- where marks stand -----

  function Children(v: Value): seq<Value> {
    match v
    case Scalar(_) => []
    case Array(items) => items
    case Object(es) => seq(|es|, i requires 0 <= i < |es| => es[i].value)
  }

  /** The path names a value and that value is an object with the field `cache_control`. */
  predicate MarkedAt(v: Value, path: seq<nat>)
    decreases |path|
  {
    if path == [] then v.Object? && exists i :: 0 <= i < |v.entries| && v.entries[i].key == "cache_control"
    else path[0] < |Children(v)| && MarkedAt(Children(v)[path[0]], path[1..])
  }

  predicate Distinct(ps: seq<seq<nat>>) {
    forall i, j :: 0 <= i < j < |ps| ==> ps[i] != ps[j]
  }

  /** The places in a list of values whose first one has the given index. */
  predicate MarkedAmong(vs: seq<Value>, from: nat, path: seq<nat>) {
    path != [] && from <= path[0] < from + |vs| && MarkedAt(vs[path[0] - from], path[1..])
  }

  ghost predicate Places(vs: seq<Value>, from: nat, ps: seq<seq<nat>>, count: nat) {
    |ps| == count && Distinct(ps) && forall p :: p in ps <==> MarkedAmong(vs, from, p)
  }

  ghost predicate PlacesOf(v: Value, ps: seq<seq<nat>>) {
    |ps| == Count(v) && Distinct(ps) && forall p :: p in ps <==> MarkedAt(v, p)
  }

  /** The places below an element, seen from its list. */
  function Below(i: nat, ps: seq<seq<nat>>): seq<seq<nat>> {
    seq(|ps|, k requires 0 <= k < |ps| => [i] + ps[k])
  }

  lemma BelowIs(i: nat, ps: seq<seq<nat>>)
    requires Distinct(ps)
    ensures Distinct(Below(i, ps))
    ensures forall p :: p in Below(i, ps) <==> p != [] && p[0] == i && p[1..] in ps
  {
    var b := Below(i, ps);
    forall k | 0 <= k < |ps| ensures b[k][1..] == ps[k] && b[k][0] == i {
    }
    forall p | p != [] && p[0] == i && p[1..] in ps ensures p in b {
      var k :| 0 <= k < |ps| && ps[k] == p[1..];
      assert [i] + p[1..] == p && b[k] == p;
    }
  }

  lemma JoinPlaces(vs: seq<Value>, from: nat, first: seq<seq<nat>>, later: seq<seq<nat>>, count: nat)
    requires vs != [] && PlacesOf(vs[0], first) && Places(vs[1..], from + 1, later, count)
    ensures Places(vs, from, Below(from, first) + later, Count(vs[0]) + count)
  {
    BelowIs(from, first);
    var b := Below(from, first);
    forall p ensures p in b + later <==> MarkedAmong(vs, from, p) {
      if p != [] && from + 1 <= p[0] < from + |vs| {
        assert vs[1..][p[0] - (from + 1)] == vs[p[0] - from];
      }
      assert MarkedAmong(vs[1..], from + 1, p) <==> p != [] && p[0] > from && MarkedAmong(vs, from, p);
      assert p in b <==> p != [] && p[0] == from && MarkedAmong(vs, from, p);
    }
    forall i, j | 0 <= i < j < |b + later| ensures (b + later)[i] != (b + later)[j] {
      if i < |b| && j >= |b| {
        assert b[i] in b && later[j - |b|] in later;
      }
    }
  }

  lemma {:induction false} ItemPlaces(items: seq<Value>, from: nat) returns (ps: seq<seq<nat>>)
    ensures Places(items, from, ps, CountItems(items))
    decreases items, 0
  {
    ps := [];
    if items != [] {
      var first := CountIsPlaces(items[0]);
      var later := ItemPlaces(items[1..], from + 1);
      JoinPlaces(items, from, first, later, CountItems(items[1..]));
      ps := Below(from, first) + later;
    }
  }

  lemma {:induction false} EntryPlaces(es: seq<Entry>, from: nat) returns (ps: seq<seq<nat>>)
    ensures Places(Children(Object(es)), from, ps, CountEntries(es))
    decreases es, 0
  {
    ps := [];
    if es != [] {
      var first := CountIsPlaces(es[0].value);
      var later := EntryPlaces(es[1..], from + 1);
      assert Children(Object(es))[1..] == Children(Object(es[1..]));
      JoinPlaces(Children(Object(es)), from, first, later, CountEntries(es[1..]));
      ps := Below(from, first) + later;
    }
  }

  /** The count is the number of places with a mark. */
  lemma {:induction false} CountIsPlaces(v: Value) returns (ps: seq<seq<nat>>)
    ensures PlacesOf(v, ps)
    decreases v, 0
  {
    match v {
      case Scalar(_) => ps := [];
      case Array(items) =>
        ps := ItemPlaces(items, 0);
        OwnPlace(v, ps, CountItems(items));
      case Object(es) =>
        ps := EntryPlaces(es, 0);
        OwnPlace(v, ps, CountEntries(es));
        if HasKey(es, MARK) {
          ps := [[]] + ps;
        }
    }
  }

  lemma OwnPlace(v: Value, ps: seq<seq<nat>>, count: nat)
    requires Places(Children(v), 0, ps, count)
    ensures if MarkedAt(v, []) then Distinct([[]] + ps) && (forall p :: p in [[]] + ps <==> MarkedAt(v, p))
            else forall p :: p in ps <==> MarkedAt(v, p)
  {
    forall p: seq<nat> | p != [] ensures MarkedAmong(Children(v), 0, p) <==> MarkedAt(v, p) {
    }
    forall j | 0 <= j < |ps| ensures ps[j] != [] {
      assert ps[j] in ps && MarkedAmong(Children(v), 0, ps[j]);
    }
  }

  // ----- stripping -----

  /** Nothing with the name of a mark is left, and a value without marks is left alone. */
  lemma {:induction false} StripIs(v: Value)
    ensures Count(Strip(v)) == 0
    ensures Count(v) == 0 ==> Strip(v) == v
    decreases v, 0
  {
    match v {
      case Scalar(_) =>
      case Array(items) => StripItemsIs(items);
      case Object(es) => StripEntriesIs(es);
    }
  }

  lemma {:induction false} StripItemsIs(items: seq<Value>)
    ensures CountItems(StripItems(items)) == 0
    ensures CountItems(items) == 0 ==> StripItems(items) == items
    decreases items, 0
  {
    if items != [] {
      StripIs(items[0]);
      StripItemsIs(items[1..]);
      assert ([Strip(items[0])] + StripItems(items[1..]))[1..] == StripItems(items[1..]);
      assert items == [items[0]] + items[1..];
    }
  }

  lemma HasKeySplit(first: Entry, es: seq<Entry>)
    ensures HasKey([first] + es, MARK) <==> first.key == MARK || HasKey(es, MARK)
  {
    var all := [first] + es;
    if i :| 0 <= i < |es| && es[i].key == MARK {
      assert all[i + 1] == es[i];
    }
    if first.key == MARK {
      assert all[0] == first;
    }
  }

  lemma CountSplit(first: Entry, es: seq<Entry>)
    ensures CountEntries([first] + es) == Count(first.value) + CountEntries(es)
  {
    assert ([first] + es)[1..] == es;
  }

  lemma StripSplit(first: Entry, es: seq<Entry>)
    ensures StripEntries([first] + es) ==
      if first.key == MARK then StripEntries(es) else [Entry(first.key, Strip(first.value))] + StripEntries(es)
  {
    assert ([first] + es)[1..] == es;
    assert [] + StripEntries(es) == StripEntries(es);
  }

  lemma {:induction false} StripEntriesIs(es: seq<Entry>)
    ensures CountEntries(StripEntries(es)) == 0 && !HasKey(StripEntries(es), MARK)
    ensures CountEntries(es) == 0 && !HasKey(es, MARK) ==> StripEntries(es) == es
    decreases es, 0
  {
    if es != [] {
      var first, rest := es[0], es[1..];
      var head := Entry(first.key, Strip(first.value));
      assert es == [first] + rest;
      StripIs(first.value);
      StripEntriesIs(rest);
      HasKeySplit(first, rest);
      CountSplit(first, rest);
      StripSplit(first, rest);
      HasKeySplit(head, StripEntries(rest));
      CountSplit(head, StripEntries(rest));
    }
  }

  // ----- fields -----

  /** Looking a field up finds the value that stands under its key. */
  lemma {:induction false} FieldIff(es: seq<Entry>, key: string, v: Value)
    requires DistinctKeys(es)
    ensures Field(Object(es), key) == Some(v) <==> Entry(key, v) in es
    decreases |es|
  {
    if es != [] {
      assert es == [es[0]] + es[1..];
      FieldIff(es[1..], key, v);
      assert Field(Object(es[1..]), key) == Get(es[1..], key);
    }
  }
}
