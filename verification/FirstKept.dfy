/**
  Which entries a repair keeps (applications/timem/src/worker_roles.rs): roles and groups are treated alike, so this module
  knows of an entry only whether it is acceptable, its id and its lower-cased name. An entry is kept when it is the first
  acceptable one with its id and, of those, the first with its name.
 */
module FirstKept {

  datatype Key = Key(ok: bool, id: string, name: string)

  /** The first acceptable entry with its id. */
  predicate FirstWithId(ks: seq<Key>, i: nat)
    requires i < |ks|
  {
    ks[i].ok && forall j :: 0 <= j < i && ks[j].ok ==> ks[j].id != ks[i].id
  }

  /** Of the entries that are the first with their id, the first with its name. */
  predicate IsKept(ks: seq<Key>, i: nat)
    requires i < |ks|
  {
    FirstWithId(ks, i) && forall j :: 0 <= j < i && FirstWithId(ks, j) ==> ks[j].name != ks[i].name
  }

  /** The positions of the kept entries. */
  function KeptAt(ks: seq<Key>): (at: seq<nat>)
    ensures forall k :: 0 <= k < |at| ==> at[k] < |ks|
  {
    if ks == [] then []
    else
      var n := |ks| - 1;
      if IsKept(ks, n) then KeptAt(ks[..n]) + [n] else KeptAt(ks[..n])
  }

  function SeenIds(ks: seq<Key>): set<string> {
    set i | 0 <= i < |ks| && ks[i].ok :: ks[i].id
  }

  function FirstNames(ks: seq<Key>): set<string> {
    set i | 0 <= i < |ks| && FirstWithId(ks, i) :: ks[i].name
  }

  lemma PrefixStays(ks: seq<Key>, n: nat, i: nat)
    requires i < n <= |ks|
    ensures FirstWithId(ks[..n], i) <==> FirstWithId(ks, i)
    ensures IsKept(ks[..n], i) <==> IsKept(ks, i)
  {
    assert forall j :: 0 <= j <= i ==> ks[..n][j] == ks[j];
    forall j | 0 <= j < i ensures FirstWithId(ks[..n], j) <==> FirstWithId(ks, j) {
      assert forall k :: 0 <= k <= j ==> ks[..n][k] == ks[k];
    }
  }

  lemma {:induction false} KeptAtRises(ks: seq<Key>)
    ensures forall j, k :: 0 <= j < k < |KeptAt(ks)| ==> KeptAt(ks)[j] < KeptAt(ks)[k]
  {
    if ks != [] {
      KeptAtRises(ks[..|ks| - 1]);
    }
  }

  lemma {:induction false} KeptAtIff(ks: seq<Key>, i: nat)
    requires i < |ks|
    ensures i in KeptAt(ks) <==> IsKept(ks, i)
  {
    var n := |ks| - 1;
    if i < n {
      KeptAtIff(ks[..n], i);
      PrefixStays(ks, n, i);
    }
  }

  lemma SeenSnoc(ks: seq<Key>, k: Key)
    ensures SeenIds(ks + [k]) == SeenIds(ks) + if k.ok then {k.id} else {}
  {
    var more := ks + [k];
    assert forall i :: 0 <= i < |ks| ==> more[i] == ks[i];
    assert more[|ks|] == k;
    forall id | id in SeenIds(ks) ensures id in SeenIds(more) {
      var i :| 0 <= i < |ks| && ks[i].ok && ks[i].id == id;
      assert more[i].ok;
    }
  }

  lemma FirstSnoc(ks: seq<Key>, k: Key)
    ensures FirstWithId(ks + [k], |ks|) <==> k.ok && k.id !in SeenIds(ks)
    ensures FirstNames(ks + [k]) == FirstNames(ks) + if k.ok && k.id !in SeenIds(ks) then {k.name} else {}
    ensures IsKept(ks + [k], |ks|) <==> k.ok && k.id !in SeenIds(ks) && k.name !in FirstNames(ks)
  {
    var more, n := ks + [k], |ks|;
    assert more[..n] == ks && more[n] == k;
    assert forall i :: 0 <= i < n ==> more[i] == ks[i];
    forall i | 0 <= i < n ensures FirstWithId(more, i) <==> FirstWithId(ks, i) {
      PrefixStays(more, n, i);
    }
    if k.id in SeenIds(ks) {
      var i :| 0 <= i < n && ks[i].ok && ks[i].id == k.id;
      assert more[i].ok && more[i].id == k.id;
    }
    forall name | name in FirstNames(ks) ensures name in FirstNames(more) {
      var i :| 0 <= i < n && FirstWithId(ks, i) && ks[i].name == name;
      assert FirstWithId(more, i);
    }
    forall name | name in FirstNames(more) && !(FirstWithId(more, n) && name == k.name) ensures name in FirstNames(ks) {
      var i :| 0 <= i < |more| && FirstWithId(more, i) && more[i].name == name;
      assert FirstWithId(ks, i);
    }
    if FirstWithId(more, n) && k.name in FirstNames(ks) {
      var i :| 0 <= i < n && FirstWithId(ks, i) && ks[i].name == k.name;
      assert FirstWithId(more, i) && more[i].name == more[n].name;
    }
  }

  lemma {:induction false} FirstExists(ks: seq<Key>, id: string) returns (i: nat)
    requires id in SeenIds(ks)
    ensures i < |ks| && FirstWithId(ks, i) && ks[i].id == id
  {
    var n := |ks| - 1;
    assert ks == ks[..n] + [ks[n]];
    SeenSnoc(ks[..n], ks[n]);
    FirstSnoc(ks[..n], ks[n]);
    if id in SeenIds(ks[..n]) {
      i := FirstExists(ks[..n], id);
      PrefixStays(ks, n, i);
    } else {
      i := n;
    }
  }

  /** The first acceptable entry with this id is not kept: an earlier first one has its name. */
  predicate Clashes(ks: seq<Key>, id: string) {
    exists i :: 0 <= i < |ks| && FirstWithId(ks, i) && ks[i].id == id && !IsKept(ks, i)
  }

  function KeptIds(ks: seq<Key>): set<string> {
    set i | 0 <= i < |ks| && IsKept(ks, i) :: ks[i].id
  }

  /** An id that is seen is kept exactly when it does not clash. */
  lemma ClashesIff(ks: seq<Key>, id: string)
    ensures Clashes(ks, id) <==> id in SeenIds(ks) && id !in KeptIds(ks)
  {
    if id in SeenIds(ks) {
      var i := FirstExists(ks, id);
      assert forall j :: 0 <= j < |ks| && FirstWithId(ks, j) && ks[j].id == id ==> j == i;
      if id in KeptIds(ks) {
        var j :| 0 <= j < |ks| && IsKept(ks, j) && ks[j].id == id;
        assert j == i;
      } else {
        assert !IsKept(ks, i);
      }
    }
    if Clashes(ks, id) {
      var i :| 0 <= i < |ks| && FirstWithId(ks, i) && ks[i].id == id && !IsKept(ks, i);
      assert ks[i].ok;
    }
  }

  lemma KeptIdsSnoc(ks: seq<Key>, k: Key)
    ensures KeptIds(ks + [k]) == KeptIds(ks) + if IsKept(ks + [k], |ks|) then {k.id} else {}
  {
    var more, n := ks + [k], |ks|;
    assert more[..n] == ks && more[n] == k;
    forall i | 0 <= i < n ensures IsKept(more, i) <==> IsKept(ks, i) {
      PrefixStays(more, n, i);
    }
    forall id | id in KeptIds(ks) ensures id in KeptIds(more) {
      var i :| 0 <= i < n && IsKept(ks, i) && ks[i].id == id;
      assert IsKept(more, i) && more[i].id == id;
    }
    forall id | id in KeptIds(more) && !(IsKept(more, n) && id == k.id) ensures id in KeptIds(ks) {
      var i :| 0 <= i < |more| && IsKept(more, i) && more[i].id == id;
      assert IsKept(ks, i);
    }
  }
}
