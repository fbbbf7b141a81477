/**
  The cache mark limit of Anthropic request bodies (core/agent/src/model_api.rs): counting the marks of a JSON tree,
  removing the first one, and repeating that until at most four are left. A body is a tree of values and a mark is a field
  of an object; removal changes the tree in the way the source changes it in place, in messages, then system, then tools.
 */
module CacheControl {
  import opened Wrappers

  const MARK: string := "cache_control"
  const MAX_MARKS: nat := 4

  /** Objects are kept in iteration order; serde_json keeps their keys distinct. */
  datatype Value =
    | Scalar(text: string)
    | Array(items: seq<Value>)
    | Object(entries: seq<Entry>)

  datatype Entry = Entry(key: string, value: Value)

  predicate DistinctKeys(es: seq<Entry>) {
    forall i, j :: 0 <= i < j < |es| ==> es[i].key != es[j].key
  }

  predicate Valid(v: Value)
    decreases v, 0
  {
    match v
    case Scalar(_) => true
    case Array(items) => forall i :: 0 <= i < |items| ==> Valid(items[i])
    case Object(es) => DistinctKeys(es) && forall i :: 0 <= i < |es| ==> Valid(es[i].value)
  }

  /** No mark stands inside the value of another mark; the marks this code writes are like that. */
  predicate Flat(v: Value)
    decreases v, 0
  {
    match v
    case Scalar(_) => true
    case Array(items) => forall i :: 0 <= i < |items| ==> Flat(items[i])
    case Object(es) =>
      forall i :: 0 <= i < |es| ==> Flat(es[i].value) && (es[i].key == MARK ==> Count(es[i].value) == 0)
  }

  predicate HasKey(es: seq<Entry>, key: string) {
    exists i :: 0 <= i < |es| && es[i].key == key
  }

  // ----- counting -----

  function Count(v: Value): nat
    decreases v, 0
  {
    match v
    case Scalar(_) => 0
    case Array(items) => CountItems(items)
    case Object(es) => (if HasKey(es, MARK) then 1 else 0) + CountEntries(es)
  }

  function CountItems(items: seq<Value>): nat
    decreases items, 0
  {
    if items == [] then 0 else Count(items[0]) + CountItems(items[1..])
  }

  function CountEntries(es: seq<Entry>): nat
    decreases es, 0
  {
    if es == [] then 0 else Count(es[0].value) + CountEntries(es[1..])
  }

  // ----- removing -----

  datatype Removal<T> = Removal(found: bool, rest: T)

  function Without(es: seq<Entry>, key: string): seq<Entry> {
    if es == [] then [] else if es[0].key == key then es[1..] else [es[0]] + Without(es[1..], key)
  }

  function RemoveFirst(v: Value): Removal<Value>
    decreases v, 0
  {
    match v
    case Scalar(_) => Removal(false, v)
    case Array(items) =>
      var r := RemoveFromItems(items);
      Removal(r.found, Array(r.rest))
    case Object(es) =>
      if HasKey(es, MARK) then Removal(true, Object(Without(es, MARK)))
      else
        var r := RemoveFromEntries(es);
        Removal(r.found, Object(r.rest))
  }

  /** `iter_mut().any(..)` stops at the first element something was removed from. */
  function RemoveFromItems(items: seq<Value>): Removal<seq<Value>>
    decreases items, 0
  {
    if items == [] then Removal(false, [])
    else
      var first := RemoveFirst(items[0]);
      if first.found then Removal(true, [first.rest] + items[1..])
      else
        var later := RemoveFromItems(items[1..]);
        Removal(later.found, [first.rest] + later.rest)
  }

  function RemoveFromEntries(es: seq<Entry>): Removal<seq<Entry>>
    decreases es, 0
  {
    if es == [] then Removal(false, [])
    else
      var first := RemoveFirst(es[0].value);
      var head := Entry(es[0].key, first.rest);
      if first.found then Removal(true, [head] + es[1..])
      else
        var later := RemoveFromEntries(es[1..]);
        Removal(later.found, [head] + later.rest)
  }

  // ----- what a removal does -----

  lemma {:induction false} WithoutCounts(es: seq<Entry>, key: string)
    requires DistinctKeys(es)
    ensures CountEntries(Without(es, key)) <= CountEntries(es)
    ensures (forall i :: 0 <= i < |es| && es[i].key == key ==> Count(es[i].value) == 0) ==>
      CountEntries(Without(es, key)) == CountEntries(es)
    ensures forall i :: 0 <= i < |Without(es, key)| ==> Without(es, key)[i] in es && Without(es, key)[i].key != key
    ensures DistinctKeys(Without(es, key))
  {
    if es != [] && es[0].key != key {
      WithoutCounts(es[1..], key);
      assert ([es[0]] + Without(es[1..], key))[1..] == Without(es[1..], key);
    }
  }

  /** Something is removed exactly from values with marks; it lowers the count, by one if no marks are nested. */
  predicate Lowers(before: nat, after: nat, found: bool, flat: bool) {
    && found == (before > 0) && (!found ==> after == before)
    && (found ==> after < before) && (found && flat ==> after == before - 1)
  }

  lemma {:induction false} RemoveFirstLowers(v: Value)
    requires Valid(v)
    ensures var r := RemoveFirst(v);
      && Lowers(Count(v), Count(r.rest), r.found, Flat(v)) && Valid(r.rest)
      && (Flat(v) ==> Flat(r.rest)) && (!r.found ==> r.rest == v)
    decreases v, 0
  {
    match v {
      case Scalar(_) =>
      case Array(items) => ItemsLower(items);
      case Object(es) =>
        if HasKey(es, MARK) {
          WithoutCounts(es, MARK);
        } else {
          assert forall i :: 0 <= i < |es| ==> es[i].key != MARK;
          EntriesLower(es);
          EntriesKeepKeys(es);
        }
    }
  }

  lemma {:induction false} ItemsLower(items: seq<Value>)
    requires forall i :: 0 <= i < |items| ==> Valid(items[i])
    ensures var r := RemoveFromItems(items);
      && Lowers(CountItems(items), CountItems(r.rest), r.found, Flat(Array(items)))
      && (forall i :: 0 <= i < |r.rest| ==> Valid(r.rest[i])) && (!r.found ==> r.rest == items)
      && (Flat(Array(items)) ==> Flat(Array(r.rest)))
    decreases items, 0
  {
    if items != [] {
      var first := RemoveFirst(items[0]);
      RemoveFirstLowers(items[0]);
      var tail := if first.found then items[1..] else RemoveFromItems(items[1..]).rest;
      if !first.found {
        ItemsLower(items[1..]);
      }
      assert ([first.rest] + tail)[1..] == tail;
      assert [items[0]] + items[1..] == items;
    }
  }

  lemma {:induction false} EntriesLower(es: seq<Entry>)
    requires forall i :: 0 <= i < |es| ==> Valid(es[i].value)
    ensures var r := RemoveFromEntries(es);
      && Lowers(CountEntries(es), CountEntries(r.rest), r.found, Flat(Object(es)))
      && (forall i :: 0 <= i < |r.rest| ==> Valid(r.rest[i].value)) && (!r.found ==> r.rest == es)
      && (Flat(Object(es)) ==> forall i :: 0 <= i < |r.rest| ==> Flat(r.rest[i].value))
    decreases es, 0
  {
    if es != [] {
      var first := RemoveFirst(es[0].value);
      var head := Entry(es[0].key, first.rest);
      RemoveFirstLowers(es[0].value);
      var tail := if first.found then es[1..] else RemoveFromEntries(es[1..]).rest;
      if !first.found {
        EntriesLower(es[1..]);
      }
      assert ([head] + tail)[1..] == tail;
      assert [es[0]] + es[1..] == es;
    }
  }

  lemma {:induction false} EntriesKeepKeys(es: seq<Entry>)
    ensures var r := RemoveFromEntries(es).rest;
      |r| == |es| && forall i :: 0 <= i < |es| ==> r[i].key == es[i].key
    decreases |es|
  {
    if es != [] {
      EntriesKeepKeys(es[1..]);
    }
  }

  /** The element a removal touches is the first one with a mark; everything else stays in place. */
  lemma {:induction false} RemovesFromFirst(items: seq<Value>, k: nat)
    requires forall i :: 0 <= i < |items| ==> Valid(items[i])
    requires k < |items| && Count(items[k]) > 0 && forall i :: 0 <= i < k ==> Count(items[i]) == 0
    ensures RemoveFromItems(items) == Removal(true, items[k := RemoveFirst(items[k]).rest])
    decreases |items|
  {
    RemoveFirstLowers(items[0]);
    if k > 0 {
      assert forall i :: 0 <= i < |items[1..]| ==> items[1..][i] == items[i + 1];
      RemovesFromFirst(items[1..], k - 1);
      assert items == [items[0]] + items[1..];
      assert [items[0]] + items[1..][k - 1 := RemoveFirst(items[k]).rest] == items[k := RemoveFirst(items[k]).rest];
    } else {
      assert [RemoveFirst(items[0]).rest] + items[1..] == items[0 := RemoveFirst(items[0]).rest];
    }
  }

  /** An object loses its own mark before those of its fields, and otherwise the first field with a mark loses one. */
  lemma {:induction false} RemovesFromFirstField(es: seq<Entry>, k: nat)
    requires Valid(Object(es))
    requires k < |es| && Count(es[k].value) > 0 && forall i :: 0 <= i < k ==> Count(es[i].value) == 0
    ensures RemoveFromEntries(es) == Removal(true, es[k := Entry(es[k].key, RemoveFirst(es[k].value).rest)])
    decreases |es|
  {
    RemoveFirstLowers(es[0].value);
    if k > 0 {
      assert forall i :: 0 <= i < |es[1..]| ==> es[1..][i] == es[i + 1];
      RemovesFromFirstField(es[1..], k - 1);
      var last := Entry(es[k].key, RemoveFirst(es[k].value).rest);
      assert [es[0]] + es[1..][k - 1 := last] == es[k := last];
    } else {
      var first := Entry(es[0].key, RemoveFirst(es[0].value).rest);
      assert [first] + es[1..] == es[0 := first];
    }
  }

  // ----- nothing but marks is removed -----

  /** The value without any marks. */
  function Strip(v: Value): Value
    decreases v, 0
  {
    match v
    case Scalar(_) => v
    case Array(items) => Array(StripItems(items))
    case Object(es) => Object(StripEntries(es))
  }

  function StripItems(items: seq<Value>): seq<Value>
    decreases items, 0
  {
    if items == [] then [] else [Strip(items[0])] + StripItems(items[1..])
  }

  function StripEntries(es: seq<Entry>): seq<Entry>
    decreases es, 0
  {
    if es == [] then []
    else (if es[0].key == MARK then [] else [Entry(es[0].key, Strip(es[0].value))]) + StripEntries(es[1..])
  }

  lemma {:induction false} StripWithout(es: seq<Entry>)
    ensures StripEntries(Without(es, MARK)) == StripEntries(es)
  {
    if es != [] {
      if es[0].key == MARK {
        assert [] + StripEntries(es[1..]) == StripEntries(es[1..]);
      } else {
        StripWithout(es[1..]);
        assert ([es[0]] + Without(es[1..], MARK))[1..] == Without(es[1..], MARK);
      }
    }
  }

  lemma {:induction false} RemoveFirstStrips(v: Value)
    ensures Strip(RemoveFirst(v).rest) == Strip(v)
    decreases v, 0
  {
    match v {
      case Scalar(_) =>
      case Array(items) => ItemsStrip(items);
      case Object(es) =>
        if HasKey(es, MARK) { StripWithout(es); } else { EntriesStrip(es); }
    }
  }

  lemma {:induction false} ItemsStrip(items: seq<Value>)
    ensures StripItems(RemoveFromItems(items).rest) == StripItems(items)
    decreases items, 0
  {
    if items != [] {
      var first := RemoveFirst(items[0]);
      RemoveFirstStrips(items[0]);
      var tail := if first.found then items[1..] else RemoveFromItems(items[1..]).rest;
      if !first.found {
        ItemsStrip(items[1..]);
      }
      assert ([first.rest] + tail)[1..] == tail;
    }
  }

  lemma {:induction false} EntriesStrip(es: seq<Entry>)
    ensures StripEntries(RemoveFromEntries(es).rest) == StripEntries(es)
    decreases es, 0
  {
    if es != [] {
      var first := RemoveFirst(es[0].value);
      RemoveFirstStrips(es[0].value);
      var tail := if first.found then es[1..] else RemoveFromEntries(es[1..]).rest;
      if !first.found {
        EntriesStrip(es[1..]);
      }
      assert ([Entry(es[0].key, first.rest)] + tail)[1..] == tail;
    }
  }

  // ----- the limit -----

  function Get(es: seq<Entry>, key: string): Option<Value> {
    if es == [] then None else if es[0].key == key then Some(es[0].value) else Get(es[1..], key)
  }

  function Set(es: seq<Entry>, key: string, v: Value): seq<Entry> {
    if es == [] then []
    else if es[0].key == key then [Entry(key, v)] + es[1..]
    else [es[0]] + Set(es[1..], key, v)
  }

  function Field(body: Value, key: string): Option<Value> {
    if body.Object? then Get(body.entries, key) else None
  }

  function Marks(body: Value, key: string): nat {
    if Field(body, key).Some? then Count(Field(body, key).value) else 0
  }

  /** `body.get_mut(key).is_some_and(remove_first_cache_control)` */
  function RemoveFromField(body: Value, key: string): Removal<Value> {
    if Field(body, key).None? then Removal(false, body)
    else
      var r := RemoveFirst(Field(body, key).value);
      if r.found then Removal(true, Object(Set(body.entries, key, r.rest))) else Removal(false, body)
  }

  lemma {:induction false} GetAfterSet(es: seq<Entry>, key: string, v: Value, other: string)
    ensures Get(Set(es, key, v), other) == if other == key && Get(es, key).Some? then Some(v) else Get(es, other)
  {
    if es != [] && es[0].key != key {
      GetAfterSet(es[1..], key, v, other);
      assert ([es[0]] + Set(es[1..], key, v))[1..] == Set(es[1..], key, v);
    } else if es != [] {
      assert ([Entry(key, v)] + es[1..])[1..] == es[1..];
    }
  }

  lemma {:induction false} SetCounts(es: seq<Entry>, key: string, v: Value)
    requires Get(es, key).Some?
    ensures CountEntries(Set(es, key, v)) + Count(Get(es, key).value) == CountEntries(es) + Count(v)
    ensures |Set(es, key, v)| == |es| && forall i :: 0 <= i < |es| ==> Set(es, key, v)[i].key == es[i].key
    ensures forall i :: 0 <= i < |es| ==> Set(es, key, v)[i] == es[i] || Set(es, key, v)[i] == Entry(key, v)
    ensures key != MARK && Strip(v) == Strip(Get(es, key).value) ==> StripEntries(Set(es, key, v)) == StripEntries(es)
  {
    if es[0].key == key {
      assert ([Entry(key, v)] + es[1..])[1..] == es[1..];
    } else {
      SetCounts(es[1..], key, v);
      assert ([es[0]] + Set(es[1..], key, v))[1..] == Set(es[1..], key, v);
    }
  }

  lemma {:induction false} GetIsEntry(es: seq<Entry>, key: string)
    requires Get(es, key).Some?
    ensures exists i :: 0 <= i < |es| && es[i] == Entry(key, Get(es, key).value)
  {
    if es[0].key == key {
      assert es[0] == Entry(key, Get(es, key).value);
    } else {
      GetIsEntry(es[1..], key);
      var i :| 0 <= i < |es[1..]| && es[1..][i] == Entry(key, Get(es[1..], key).value);
      assert es[i + 1] == es[1..][i];
    }
  }

  lemma FieldIsGood(es: seq<Entry>, key: string)
    requires Valid(Object(es)) && Get(es, key).Some?
    ensures Valid(Get(es, key).value) && (Flat(Object(es)) ==> Flat(Get(es, key).value))
  {
    GetIsEntry(es, key);
  }

  lemma SetStaysGood(es: seq<Entry>, key: string, v: Value)
    requires Valid(Object(es)) && Valid(v) && Get(es, key).Some? && key != MARK
    ensures Valid(Object(Set(es, key, v)))
    ensures Flat(Object(es)) && Flat(v) ==> Flat(Object(Set(es, key, v)))
  {
    SetCounts(es, key, v);
  }

  /** One round on one field. */
  lemma RemoveFromFieldEffect(body: Value, key: string)
    requires Valid(body) && key != MARK
    ensures var r := RemoveFromField(body, key);
      && Valid(r.rest) && Strip(r.rest) == Strip(body)
      && r.found == (Marks(body, key) > 0)
      && (if r.found then Count(r.rest) < Count(body) && Marks(r.rest, key) < Marks(body, key) else r.rest == body)
      && (Flat(body) ==> Flat(r.rest) && (r.found ==> Count(r.rest) == Count(body) - 1))
      && (forall other :: other != key ==> Field(r.rest, other) == Field(body, other))
  {
    var r := RemoveFromField(body, key);
    if Field(body, key).Some? {
      var es, v := body.entries, Field(body, key).value;
      FieldIsGood(es, key);
      RemoveFirstLowers(v);
      RemoveFirstStrips(v);
      if r.found {
        var v' := RemoveFirst(v).rest;
        SetStaysGood(es, key, v');
        SetCounts(es, key, v');
        forall other ensures Field(r.rest, other) == if other == key then Some(v') else Field(body, other) {
          GetAfterSet(es, key, v', other);
        }
      }
    }
  }

  /**
    Ends for every body, because each round lowers the count. At the end at most four marks are left, or none that
    may be removed; marks of the system prompt go only when the messages have none left, and those of the tools only
    when the system prompt has none left either; nothing but marks goes, nothing at all when there is no excess, and
    no more than the excess when no marks are nested.
   */
  method Enforce(body: Value) returns (result: Value)
    requires Valid(body)
    ensures Strip(result) == Strip(body) && Valid(result)
    ensures Count(result) <= MAX_MARKS
      || Marks(result, "messages") == Marks(result, "system") == Marks(result, "tools") == 0
    ensures Count(body) <= MAX_MARKS ==> result == body
    ensures Flat(body) && Count(body) > MAX_MARKS ==> Count(result) >= MAX_MARKS
    ensures Field(result, "system") != Field(body, "system") ==> Marks(result, "messages") == 0
    ensures Field(result, "tools") != Field(body, "tools") ==>
      Marks(result, "messages") == 0 && Marks(result, "system") == 0
    ensures forall key :: key !in ["messages", "system", "tools"] ==> Field(result, key) == Field(body, key)
  {
    result := body;
    while Count(result) > MAX_MARKS
      invariant Valid(result) && Strip(result) == Strip(body)
      invariant Count(body) <= MAX_MARKS ==> result == body
      invariant Flat(body) ==> Flat(result)
      invariant Flat(body) && Count(body) > MAX_MARKS ==> Count(result) >= MAX_MARKS
      invariant Field(result, "system") != Field(body, "system") ==> Marks(result, "messages") == 0
      invariant Field(result, "tools") != Field(body, "tools") ==>
        Marks(result, "messages") == 0 && Marks(result, "system") == 0
      invariant forall key :: key !in ["messages", "system", "tools"] ==> Field(result, key) == Field(body, key)
      decreases Count(result)
    {
      RemoveFromFieldEffect(result, "messages");
      var fromMessages := RemoveFromField(result, "messages");
      if fromMessages.found {
        result := fromMessages.rest;
        continue;
      }
      RemoveFromFieldEffect(result, "system");
      var fromSystem := RemoveFromField(result, "system");
      if fromSystem.found {
        result := fromSystem.rest;
        continue;
      }
      RemoveFromFieldEffect(result, "tools");
      var fromTools := RemoveFromField(result, "tools");
      if !fromTools.found {
        break;
      }
      result := fromTools.rest;
    }
  }
}
