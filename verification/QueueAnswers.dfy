/** What the calls of the intent queue answer (bridges/http_websocket/src/lib.rs). */
module QueueAnswers {
  import opened Wrappers
  import opened IntentQueue

  predicate Holds<T>(q: Queue<T>, id: string, number: nat) {
    exists i :: 0 <= i < |q.items| && q.items[i].commandId == id && q.items[i].enqueueSeq == number
  }

  /**
    An answer always carries the revision of the queue behind the call. A duplicate is told the number under which the
    command is queued, a full queue its capacity, and an accepted command the number under which it is queued now.
   */
  lemma EnqueueAnswers<T>(q: Queue<T>, id: string, payload: T)
    ensures var (after, answer) := EnqueueIn(q, id, payload);
      && answer.revision == after.revision
      && match answer
         case DuplicateCommand(number, _) => Holds(q, id, number) && after == q
         case QueueFull(capacity, _) => !Queued(q.items, id) && capacity == q.capacity <= |q.items| && after == q
         case Enqueued(number, _) =>
           && !Queued(q.items, id) && |q.items| < q.capacity
           && after.items == q.items + [Intent(id, number, payload)] && number == q.nextSeq && after.capacity == q.capacity
  {
    FirstIsAt(q.items, id);
  }

  /** The oldest intent, or nothing from an empty queue. */
  lemma PopAnswers<T>(q: Queue<T>)
    ensures var (after, answer) := PopFrom(q);
      match answer
      case None => q.items == [] && after == q
      case Some((intent, revision)) => q.items == [intent] + after.items && revision == after.revision
  {
  }

  /** The intent under the id, or that there is none. */
  lemma RemoveAnswers<T>(q: Queue<T>, id: string)
    ensures var (after, answer) := RemoveFrom(q, id);
      && answer.revision == after.revision
      && match answer
         case Missing(_) => !Queued(q.items, id) && after == q
         case Removed(intent, _) =>
           && intent.commandId == id
           && exists i: nat ::
                i < |q.items| && q.items[i] == intent && after.items == q.items[..i] + q.items[i + 1..]
  {
    FirstIsAt(q.items, id);
    var first := First(q.items, id);
    if first < |q.items| {
      assert RemoveFrom(q, id).0.items == q.items[..first] + q.items[first + 1..];
    }
  }
}
