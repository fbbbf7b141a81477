/**
  The bounded queue of commands for the next turn (bridges/http_websocket/src/lib.rs). A command enters once under its own
  id, leaves at the front or is removed by its id, and is numbered on the way in; the history of a run says which commands
  were accepted, popped and removed, so that order and conservation can be stated over whole runs of the object, of any
  length and from any capacity.
 */
module IntentQueue {
  import opened Wrappers

  datatype Intent<T> = Intent(commandId: string, enqueueSeq: nat, payload: T)

  datatype EnqueueResult =
    | Enqueued(enqueueSeq: nat, revision: nat)
    | DuplicateCommand(enqueueSeq: nat, revision: nat)
    | QueueFull(capacity: nat, revision: nat)

  datatype RemoveResult<T> =
    | Removed(intent: Intent<T>, revision: nat)
    | Missing(revision: nat)

  datatype Queue<T> = Queue(capacity: nat, revision: nat, nextSeq: nat, items: seq<Intent<T>>)

  predicate Queued<T>(items: seq<Intent<T>>, id: string) {
    exists i :: 0 <= i < |items| && items[i].commandId == id
  }

  predicate IsAt<T>(items: seq<Intent<T>>, id: string, i: nat) {
    && i < |items|
    && items[i].commandId == id
    && forall j :: 0 <= j < i ==> items[j].commandId != id
  }

  class NextTurnIntentQueue<T> {
    const capacity: nat
    var revision: nat
    var nextSeq: nat
    var items: seq<Intent<T>>

    ghost function View(): Queue<T>
      reads this
    {
      Queue(capacity, revision, nextSeq, items)
    }

    constructor (capacity: nat)
      ensures View() == Queue(capacity, 0, 1, [])
    {
      this.capacity := capacity;
      revision, nextSeq, items := 0, 1, [];
    }

    method Position(id: string) returns (index: Option<nat>)
      ensures index.None? ==> !Queued(items, id)
      ensures index.Some? ==> IsAt(items, id, index.value)
    {
      for i := 0 to |items|
        invariant forall j :: 0 <= j < i ==> items[j].commandId != id
      {
        if items[i].commandId == id {
          return Some(i);
        }
      }
      index := None;
    }

    method Enqueue(id: string, payload: T) returns (outcome: EnqueueResult)
      modifies this
      ensures (View(), outcome) == EnqueueIn(old(View()), id, payload)
    {
      var existing := Position(id);
      FirstIsAt(items, id);
      if existing.Some? {
        return DuplicateCommand(items[existing.value].enqueueSeq, revision);
      }
      if |items| >= capacity {
        return QueueFull(capacity, revision);
      }
      var enqueueSeq := nextSeq;
      nextSeq := nextSeq + 1;
      revision := revision + 1;
      items := items + [Intent(id, enqueueSeq, payload)];
      outcome := Enqueued(enqueueSeq, revision);
    }

    method PopFront() returns (popped: Option<(Intent<T>, nat)>)
      modifies this
      ensures (View(), popped) == PopFrom(old(View()))
    {
      if items == [] {
        return None;
      }
      var intent := items[0];
      items := items[1..];
      revision := revision + 1;
      popped := Some((intent, revision));
    }

    method Remove(id: string) returns (outcome: RemoveResult<T>)
      modifies this
      ensures (View(), outcome) == RemoveFrom(old(View()), id)
    {
      var index := Position(id);
      FirstIsAt(items, id);
      if index.None? {
        return Missing(revision);
      }
      var intent := items[index.value];
      items := items[..index.value] + items[index.value + 1..];
      revision := revision + 1;
      outcome := Removed(intent, revision);
    }
  }

  // ----- one command -----

  function First<T>(items: seq<Intent<T>>, id: string): nat {
    if items == [] || items[0].commandId == id then 0 else 1 + First(items[1..], id)
  }

  lemma {:induction false} FirstIsAt<T>(items: seq<Intent<T>>, id: string)
    ensures Queued(items, id) <==> First(items, id) < |items|
    ensures First(items, id) < |items| ==> IsAt(items, id, First(items, id))
    ensures forall i: nat :: IsAt(items, id, i) ==> i == First(items, id)
  {
    if items != [] && items[0].commandId != id {
      var rest := items[1..];
      FirstIsAt(rest, id);
      forall i: nat | IsAt(items, id, i) ensures i == First(items, id) {
        assert IsAt(rest, id, i - 1);
      }
      if Queued(items, id) {
        var i :| 0 <= i < |items| && items[i].commandId == id;
        assert rest[i - 1].commandId == id;
      }
    } else if items != [] {
      assert IsAt(items, id, 0);
    }
  }

  function EnqueueIn<T>(q: Queue<T>, id: string, payload: T): (Queue<T>, EnqueueResult) {
    var first := First(q.items, id);
    if first < |q.items| then (q, DuplicateCommand(q.items[first].enqueueSeq, q.revision))
    else if |q.items| >= q.capacity then (q, QueueFull(q.capacity, q.revision))
    else
      (Queue(q.capacity, q.revision + 1, q.nextSeq + 1, q.items + [Intent(id, q.nextSeq, payload)]),
       Enqueued(q.nextSeq, q.revision + 1))
  }

  function PopFrom<T>(q: Queue<T>): (Queue<T>, Option<(Intent<T>, nat)>) {
    if q.items == [] then (q, None)
    else (q.(revision := q.revision + 1, items := q.items[1..]), Some((q.items[0], q.revision + 1)))
  }

  function RemoveFrom<T>(q: Queue<T>, id: string): (Queue<T>, RemoveResult<T>) {
    var first := First(q.items, id);
    if first >= |q.items| then (q, Missing(q.revision))
    else
      (q.(revision := q.revision + 1, items := q.items[..first] + q.items[first + 1..]),
       Removed(q.items[first], q.revision + 1))
  }

  // ----- runs -----

  datatype Command<T> = EnqueueCommand(id: string, payload: T) | PopCommand | RemoveCommand(id: string)

  /** A queue and what has happened to it: what was accepted, popped and removed, each in the order it happened. */
  datatype History<T> = History(queue: Queue<T>, accepted: seq<Intent<T>>, popped: seq<Intent<T>>, removed: seq<Intent<T>>)

  function Step<T>(h: History<T>, c: Command<T>): History<T> {
    match c
    case EnqueueCommand(id, payload) =>
      var (queue, outcome) := EnqueueIn(h.queue, id, payload);
      if outcome.Enqueued? then h.(queue := queue, accepted := h.accepted + [Intent(id, outcome.enqueueSeq, payload)])
      else h.(queue := queue)
    case PopCommand =>
      var (queue, intent) := PopFrom(h.queue);
      if intent.Some? then h.(queue := queue, popped := h.popped + [intent.value.0]) else h.(queue := queue)
    case RemoveCommand(id) =>
      var (queue, outcome) := RemoveFrom(h.queue, id);
      if outcome.Removed? then h.(queue := queue, removed := h.removed + [outcome.intent]) else h.(queue := queue)
  }

  function Run<T>(h: History<T>, commands: seq<Command<T>>): History<T>
    decreases |commands|
  {
    if commands == [] then h else Run(Step(h, commands[0]), commands[1..])
  }

  function Start<T>(capacity: nat): History<T> {
    History(Queue(capacity, 0, 1, []), [], [], [])
  }

  predicate Increasing<T>(s: seq<Intent<T>>) {
    forall i, j :: 0 <= i < j < |s| ==> s[i].enqueueSeq < s[j].enqueueSeq
  }

  predicate Before<T>(s: seq<Intent<T>>, n: nat) {
    forall i :: 0 <= i < |s| ==> s[i].enqueueSeq < n
  }

  predicate DistinctIds<T>(s: seq<Intent<T>>) {
    forall i, j :: 0 <= i < j < |s| ==> s[i].commandId != s[j].commandId
  }

  /** The sequence without the intents numbered as one of `gone`. */
  function Except<T>(s: seq<Intent<T>>, gone: seq<Intent<T>>): seq<Intent<T>> {
    if s == [] then []
    else Except(s[..|s| - 1], gone) + if Numbered(gone, s[|s| - 1].enqueueSeq) then [] else [s[|s| - 1]]
  }

  predicate Numbered<T>(s: seq<Intent<T>>, n: nat) {
    exists i :: 0 <= i < |s| && s[i].enqueueSeq == n
  }

  /**
    Ids in the queue are distinct and it is never over its capacity; numbers rise in the order of acceptance; what left at
    the front, followed by what is queued, is what was accepted without what was removed; the revision counts the changes.
   */
  ghost predicate Kept<T>(h: History<T>) {
    && DistinctIds(h.queue.items)
    && |h.queue.items| <= h.queue.capacity
    && Ordered(h)
    && Counted(h)
  }

  ghost predicate Ordered<T>(h: History<T>) {
    && Increasing(h.accepted) && Before(h.accepted, h.queue.nextSeq) && Before(h.removed, h.queue.nextSeq)
    && Except(h.accepted, h.removed) == h.popped + h.queue.items
    && Increasing(h.popped + h.queue.items)
  }

  ghost predicate Counted<T>(h: History<T>) {
    && multiset(h.accepted) == multiset(h.popped) + multiset(h.removed) + multiset(h.queue.items)
    && h.queue.revision == |h.accepted| + |h.popped| + |h.removed|
  }

  lemma {:induction false} ExceptBefore<T>(s: seq<Intent<T>>, gone: seq<Intent<T>>, n: nat)
    requires Before(s, n)
    ensures Before(Except(s, gone), n)
  {
    if s != [] {
      ExceptBefore(s[..|s| - 1], gone, n);
    }
  }

  lemma {:induction false} ExceptOther<T>(s: seq<Intent<T>>, gone: seq<Intent<T>>, y: Intent<T>)
    requires !Numbered(Except(s, gone), y.enqueueSeq)
    ensures Except(s, gone + [y]) == Except(s, gone)
  {
    if s != [] {
      var last := s[|s| - 1];
      var before := Except(s[..|s| - 1], gone);
      forall i | 0 <= i < |before| ensures before[i].enqueueSeq != y.enqueueSeq {
        assert Except(s, gone)[i] == before[i];
      }
      ExceptOther(s[..|s| - 1], gone, y);
      NumberedOneMore(gone, y, last.enqueueSeq);
      if !Numbered(gone, last.enqueueSeq) {
        assert Except(s, gone)[|before|] == last;
      }
    }
  }

  lemma NumberedOneMore<T>(s: seq<Intent<T>>, y: Intent<T>, n: nat)
    ensures Numbered(s + [y], n) <==> Numbered(s, n) || y.enqueueSeq == n
  {
    if Numbered(s, n) {
      var i :| 0 <= i < |s| && s[i].enqueueSeq == n;
      assert (s + [y])[i].enqueueSeq == n;
    }
    assert (s + [y])[|s|] == y;
  }

  /** One more removal takes just its intent out of what is left. */
  lemma {:induction false} ExceptOneMore<T>(s: seq<Intent<T>>, gone: seq<Intent<T>>, k: nat)
    requires Increasing(Except(s, gone)) && k < |Except(s, gone)|
    ensures var left := Except(s, gone); Except(s, gone + [left[k]]) == left[..k] + left[k + 1..]
  {
    var left, before, last := Except(s, gone), Except(s[..|s| - 1], gone), s[|s| - 1];
    NumberedOneMore(gone, left[k], last.enqueueSeq);
    assert before == left[..|before|];
    if Numbered(gone, last.enqueueSeq) {
      ExceptOneMore(s[..|s| - 1], gone, k);
    } else if k < |before| {
      ExceptOneMore(s[..|s| - 1], gone, k);
      assert left[k].enqueueSeq < left[|before|].enqueueSeq;
      assert left[..k] == before[..k] && left[k + 1..] == before[k + 1..] + [last];
    } else {
      ExceptOther(s[..|s| - 1], gone, last);
      assert left[..k] + left[k + 1..] == before;
    }
  }

  lemma EnqueueOrdered<T>(h: History<T>, x: Intent<T>)
    requires Ordered(h) && x.enqueueSeq == h.queue.nextSeq
    ensures Except(h.accepted + [x], h.removed) == h.popped + (h.queue.items + [x])
    ensures Increasing(h.popped + (h.queue.items + [x]))
  {
    var left := h.popped + h.queue.items;
    ExceptBefore(h.accepted, h.removed, h.queue.nextSeq);
    assert (h.accepted + [x])[..|h.accepted|] == h.accepted;
    assert Except(h.accepted + [x], h.removed) == left + [x];
    assert left + [x] == h.popped + (h.queue.items + [x]);
  }

  lemma EnqueueKept<T>(h: History<T>, id: string, payload: T)
    requires Kept(h)
    ensures Kept(Step(h, EnqueueCommand(id, payload)))
  {
    FirstIsAt(h.queue.items, id);
    if EnqueueIn(h.queue, id, payload).1.Enqueued? {
      EnqueueOrdered(h, Intent(id, h.queue.nextSeq, payload));
    }
  }

  lemma PopKept<T>(h: History<T>)
    requires Kept(h)
    ensures Kept(Step(h, PopCommand))
  {
    var items := h.queue.items;
    if items != [] {
      assert items == [items[0]] + items[1..];
      assert (h.popped + [items[0]]) + items[1..] == h.popped + items;
    }
  }

  lemma DropOne<T>(s: seq<T>, t: seq<T>, i: nat)
    requires i < |t|
    ensures (s + t)[|s| + i] == t[i]
    ensures (s + t)[..|s| + i] + (s + t)[|s| + i + 1..] == s + (t[..i] + t[i + 1..])
    ensures multiset(t) == multiset(t[..i] + t[i + 1..]) + multiset{t[i]}
  {
    assert t == t[..i] + [t[i]] + t[i + 1..];
  }

  lemma DropKeepsOrder<T>(s: seq<Intent<T>>, i: nat)
    requires i < |s|
    ensures Increasing(s) ==> Increasing(s[..i] + s[i + 1..])
    ensures DistinctIds(s) ==> DistinctIds(s[..i] + s[i + 1..])
  {
    var rest := s[..i] + s[i + 1..];
    assert forall j :: 0 <= j < |rest| ==> rest[j] == s[if j < i then j else j + 1];
  }

  lemma RemoveOrdered<T>(h: History<T>, i: nat)
    requires Ordered(h) && i < |h.queue.items|
    ensures var y, items := h.queue.items[i], h.queue.items[..i] + h.queue.items[i + 1..];
      && Before(h.removed + [y], h.queue.nextSeq)
      && Except(h.accepted, h.removed + [y]) == h.popped + items
      && Increasing(h.popped + items)
  {
    var left, k := h.popped + h.queue.items, |h.popped| + i;
    DropOne(h.popped, h.queue.items, i);
    DropKeepsOrder(left, k);
    ExceptOneMore(h.accepted, h.removed, k);
    ExceptBefore(h.accepted, h.removed, h.queue.nextSeq);
    assert left[k].enqueueSeq < h.queue.nextSeq;
  }

  lemma RemoveKept<T>(h: History<T>, id: string)
    requires Kept(h)
    ensures Kept(Step(h, RemoveCommand(id)))
  {
    var i := First(h.queue.items, id);
    if i < |h.queue.items| {
      DropOne(h.popped, h.queue.items, i);
      DropKeepsOrder(h.queue.items, i);
      RemoveOrdered(h, i);
    }
  }

  lemma {:induction false} RunKept<T>(h: History<T>, commands: seq<Command<T>>)
    requires Kept(h)
    ensures Kept(Run(h, commands))
    decreases |commands|
  {
    if commands != [] {
      match commands[0] {
        case EnqueueCommand(id, payload) => EnqueueKept(h, id, payload);
        case PopCommand => PopKept(h);
        case RemoveCommand(id) => RemoveKept(h, id);
      }
      RunKept(Step(h, commands[0]), commands[1..]);
    }
  }

  /** Whatever is asked of a new queue. */
  lemma EveryRunKept<T>(capacity: nat, commands: seq<Command<T>>)
    ensures Kept(Run(Start(capacity), commands))
  {
    RunKept(Start(capacity), commands);
  }

  /** Intents are popped in the order they were accepted, and every intent ends up in one place only. */
  lemma FirstInFirstOut<T(!new)>(capacity: nat, commands: seq<Command<T>>)
    ensures var h := Run(Start(capacity), commands);
      && Increasing(h.popped)
      && (forall p, q :: p in h.popped && q in h.queue.items ==> p.enqueueSeq < q.enqueueSeq)
      && (forall x :: x in h.accepted ==>
            multiset(h.popped)[x] + multiset(h.removed)[x] + multiset(h.queue.items)[x] == 1)
  {
    EveryRunKept(capacity, commands);
    var h := Run(Start(capacity), commands);
    var left := h.popped + h.queue.items;
    forall i, j | 0 <= i < j < |h.popped| ensures h.popped[i].enqueueSeq < h.popped[j].enqueueSeq {
      assert left[i] == h.popped[i] && left[j] == h.popped[j];
    }
    forall p, q | p in h.popped && q in h.queue.items ensures p.enqueueSeq < q.enqueueSeq {
      var i :| 0 <= i < |h.popped| && h.popped[i] == p;
      var j :| 0 <= j < |h.queue.items| && h.queue.items[j] == q;
      assert left[i] == p && left[|h.popped| + j] == q;
    }
    forall x | x in h.accepted ensures multiset(h.popped)[x] + multiset(h.removed)[x] + multiset(h.queue.items)[x] == 1 {
      OnceOnly(h.accepted, x);
    }
  }

  lemma {:induction false} OnceOnly<T>(s: seq<Intent<T>>, x: Intent<T>)
    requires Increasing(s) && x in s
    ensures multiset(s)[x] == 1
  {
    var i :| 0 <= i < |s| && s[i] == x;
    assert s == s[..i] + [x] + s[i + 1..];
    assert x !in s[..i] && x !in s[i + 1..];
  }
}
