/** The debug counts of a session, told from its events alone (applications/timem/src/debug_session.rs). */
module EndpointHistory {
  import opened Wrappers
  import opened EndpointAccounts
  import opened EndpointSamples

  // ----- what the events say -----

  /** Where a worker's next request goes: the endpoint of its last profile, or none yet. */
  function HomeOf(events: seq<Event>, worker: string): EndpointKey {
    if events == [] then EndpointKey("unresolved", "unresolved", "pending")
    else
      match events[|events| - 1]
      case Profile(w, key) => if w == worker then key else HomeOf(events[..|events| - 1], worker)
      case _ => HomeOf(events[..|events| - 1], worker)
  }

  /** The endpoint of a worker's request that has no outcome yet. */
  function OpenAt(events: seq<Event>, worker: string): Option<EndpointKey> {
    if events == [] then None
    else
      var before := events[..|events| - 1];
      match events[|events| - 1]
      case Prompt(w) => if w == worker then Some(HomeOf(before, worker)) else OpenAt(before, worker)
      case Latency(w, _) => if w == worker then None else OpenAt(before, worker)
      case Failure(w) => if w == worker then None else OpenAt(before, worker)
      case Profile(_, _) => OpenAt(before, worker)
  }

  /** The requests made while the endpoint was home. */
  function Asked(events: seq<Event>, key: EndpointKey): nat {
    if events == [] then 0
    else
      var before, last := events[..|events| - 1], events[|events| - 1];
      Asked(before, key) + if last.Prompt? && HomeOf(before, last.worker) == key then 1 else 0
  }

  /** The latencies of the requests of the endpoint that were answered. */
  function Answered(events: seq<Event>, key: EndpointKey): seq<nat> {
    if events == [] then []
    else
      var before, last := events[..|events| - 1], events[|events| - 1];
      Answered(before, key) + if last.Latency? && OpenAt(before, last.worker) == Some(key) then [last.latency] else []
  }

  /** The requests of the endpoint that failed, or that the worker gave up by asking again. */
  function Lost(events: seq<Event>, key: EndpointKey): nat {
    if events == [] then 0
    else
      var before, last := events[..|events| - 1], events[|events| - 1];
      Lost(before, key) + if (last.Failure? || last.Prompt?) && OpenAt(before, last.worker) == Some(key) then 1 else 0
  }

  // ----- the session knows -----

  /** The session is where the events lead. */
  ghost predicate Knows(s: Session, events: seq<Event>) {
    && (forall w :: ActiveKey(s, w) == HomeOf(events, w))
    && (forall w :: OpenAt(events, w) == if w in s.inFlight then Some(s.inFlight[w]) else None)
  }

  predicate Counts(e: Endpoint, events: seq<Event>, key: EndpointKey) {
    && e.requests == Asked(events, key) && e.failures == Lost(events, key)
    && e.successes == |Answered(events, key)| && e.latencies == Oldest(Answered(events, key))
  }

  lemma NextKnows(s: Session, events: seq<Event>, event: Event)
    requires Knows(s, events)
    ensures Knows(Next(s, event), events + [event])
  {
    assert (events + [event])[..|events|] == events;
    assert ActiveKey(s, event.worker) == HomeOf(events, event.worker);
  }

  lemma NextCounts(s: Session, events: seq<Event>, event: Event, key: EndpointKey)
    requires Knows(s, events) && Counts(At(s.endpoints, key), events, key)
    ensures Counts(At(Next(s, event).endpoints, key), events + [event], key)
  {
    assert (events + [event])[..|events|] == events;
    assert ActiveKey(s, event.worker) == HomeOf(events, event.worker);
    assert OpenAt(events, event.worker) == if event.worker in s.inFlight then Some(s.inFlight[event.worker]) else None;
    assert Answered(events, key) + [] == Answered(events, key);
    if event.Latency? {
      OneMoreSample(Answered(events, key), event.latency);
    }
  }

  /**
    Main result: after any events of a new session, each endpoint counts the requests made while it was home, holds the
    oldest latencies of those that were answered, and counts those that failed or were given up.
   */
  lemma {:induction false} AccountsAre(events: seq<Event>, key: EndpointKey)
    ensures Knows(RunEvents(NEW_SESSION, events), events)
    ensures Counts(At(RunEvents(NEW_SESSION, events).endpoints, key), events, key)
    decreases |events|
  {
    if events != [] {
      var before, last := events[..|events| - 1], events[|events| - 1];
      AccountsAre(before, key);
      assert events == before + [last];
      RunEventsTwice(NEW_SESSION, before, [last]);
      assert [last][1..] == [];
      NextKnows(RunEvents(NEW_SESSION, before), before, last);
      NextCounts(RunEvents(NEW_SESSION, before), before, last, key);
    }
  }
}
