/** Requests by endpoint. */
module EndpointAccounts {
  // Request accounting in the debug statistics (applications/timem/src/debug_session.rs).

  import opened Wrappers

  datatype EndpointKey = EndpointKey(model: string, gateway: string, toolCallMode: string)

  const PENDING := EndpointKey("unresolved", "unresolved", "pending")

  const MAX_METRIC_SAMPLES: nat := 2000

  datatype Endpoint = Endpoint(requests: nat, successes: nat, failures: nat, latencies: seq<nat>)

  type Endpoints = map<EndpointKey, Endpoint>

  /** The statistics of one session; `active` is where a worker's next request goes. */
  datatype Session = Session(active: map<string, EndpointKey>, inFlight: map<string, EndpointKey>, endpoints: Endpoints)

  const NEW_SESSION := Session(map[], map[], map[])

  function At(endpoints: Endpoints, key: EndpointKey): Endpoint {
    if key in endpoints then endpoints[key] else Endpoint(0, 0, 0, [])
  }

  function ActiveKey(s: Session, worker: string): EndpointKey {
    if worker in s.active then s.active[worker] else PENDING
  }

  function Sampled(latencies: seq<nat>, latency: nat): seq<nat> {
    var longer := latencies + [latency];
    if |longer| > MAX_METRIC_SAMPLES then longer[..MAX_METRIC_SAMPLES] else longer
  }

  // ----- what one event does to the accounts -----

  function Requested(endpoints: Endpoints, key: EndpointKey): Endpoints {
    var e := At(endpoints, key);
    endpoints[key := e.(requests := e.requests + 1)]
  }

  function Succeeded(endpoints: Endpoints, key: EndpointKey, latency: nat): Endpoints {
    var e := At(endpoints, key);
    endpoints[key := e.(successes := e.successes + 1, latencies := Sampled(e.latencies, latency))]
  }

  function Failed(endpoints: Endpoints, key: EndpointKey): Endpoints {
    var e := At(endpoints, key);
    endpoints[key := e.(failures := e.failures + 1)]
  }

  datatype Event =
    | Prompt(worker: string)
    | Latency(worker: string, latency: nat)
    | Failure(worker: string)
    | Profile(worker: string, key: EndpointKey)

  /** A worker's request that got no outcome counts as failed once the worker asks again. */
  function GivenUp(s: Session, worker: string): Session {
    if worker in s.inFlight then
      s.(inFlight := s.inFlight - {worker}, endpoints := Failed(s.endpoints, s.inFlight[worker]))
    else s
  }

  function Next(s: Session, event: Event): Session {
    match event
    case Prompt(worker) =>
      var t, key := GivenUp(s, worker), ActiveKey(s, worker);
      t.(inFlight := t.inFlight[worker := key], endpoints := Requested(t.endpoints, key))
    case Latency(worker, latency) =>
      if worker in s.inFlight then
        s.(inFlight := s.inFlight - {worker}, endpoints := Succeeded(s.endpoints, s.inFlight[worker], latency))
      else s
    case Failure(worker) => GivenUp(s, worker)
    case Profile(worker, key) =>
      s.(active := s.active[worker := key], endpoints := s.endpoints[key := At(s.endpoints, key)])
  }

  class SessionDebug {
    var active: map<string, EndpointKey>
    var inFlight: map<string, EndpointKey>
    var endpoints: Endpoints

    ghost function View(): Session
      reads this
    {
      Session(active, inFlight, endpoints)
    }

    constructor ()
      ensures View() == NEW_SESSION
    {
      active, inFlight, endpoints := map[], map[], map[];
    }

    method TakeInFlight(worker: string) returns (key: Option<EndpointKey>)
      modifies this`inFlight
      ensures key == if worker in old(inFlight) then Some(old(inFlight)[worker]) else None
      ensures inFlight == old(inFlight) - {worker}
    {
      key := if worker in inFlight then Some(inFlight[worker]) else None;
      inFlight := inFlight - {worker};
    }

    method RecordPrompt(worker: string)
      modifies this
      ensures View() == Next(old(View()), Prompt(worker))
    {
      var previous := TakeInFlight(worker);
      if previous.Some? {
        var failed := At(endpoints, previous.value);
        endpoints := endpoints[previous.value := failed.(failures := failed.failures + 1)];
      }
      var key := if worker in active then active[worker] else PENDING;
      var endpoint := At(endpoints, key);
      endpoints := endpoints[key := endpoint.(requests := endpoint.requests + 1)];
      inFlight := inFlight[worker := key];
    }

    method RecordLatency(worker: string, latency: nat)
      modifies this
      ensures View() == Next(old(View()), Latency(worker, latency))
    {
      var key := TakeInFlight(worker);
      if key.Some? {
        var endpoint := At(endpoints, key.value);
        var latencies := endpoint.latencies + [latency];
        if |latencies| > MAX_METRIC_SAMPLES {
          latencies := latencies[..MAX_METRIC_SAMPLES];
        }
        endpoints := endpoints[key.value := endpoint.(successes := endpoint.successes + 1, latencies := latencies)];
      }
    }

    method RecordFailure(worker: string)
      modifies this
      ensures View() == Next(old(View()), Failure(worker))
    {
      var key := TakeInFlight(worker);
      if key.Some? {
        var endpoint := At(endpoints, key.value);
        endpoints := endpoints[key.value := endpoint.(failures := endpoint.failures + 1)];
      }
    }

    method RecordProfile(worker: string, key: EndpointKey)
      modifies this
      ensures View() == Next(old(View()), Profile(worker, key))
    {
      active := active[worker := key];
      endpoints := endpoints[key := At(endpoints, key)];
    }

    method Reset()
      modifies this
      ensures View() == NEW_SESSION
    {
      active, inFlight, endpoints := map[], map[], map[];
    }

    /** Takes up persisted endpoints; what was in flight is forgotten. */
    method Load(persisted: Endpoints)
      modifies this
      ensures View() == Session(map[], map[], persisted)
    {
      active, inFlight, endpoints := map[], map[], persisted;
    }
  }

  // ----- the balance -----

  function Workers(inFlight: map<string, EndpointKey>, key: EndpointKey): set<string> {
    set w | w in inFlight && inFlight[w] == key
  }

  /** What the requests of an endpoint have over its successes, its failures and its workers in flight. */
  function Missing(s: Session, key: EndpointKey): int {
    var e := At(s.endpoints, key);
    e.requests - (e.successes + e.failures + |Workers(s.inFlight, key)|)
  }

  /** At every endpoint: requests = successes + failures + workers in flight. */
  ghost predicate Balanced(s: Session) {
    forall key :: Missing(s, key) == 0
  }

  /** At every endpoint: requests >= successes + failures + workers in flight. */
  ghost predicate Covered(s: Session) {
    forall key :: Missing(s, key) >= 0
  }

  lemma WorkerStarts(inFlight: map<string, EndpointKey>, worker: string, at: EndpointKey, key: EndpointKey)
    requires worker !in inFlight
    ensures |Workers(inFlight[worker := at], key)| == |Workers(inFlight, key)| + if at == key then 1 else 0
  {
    var before, after := Workers(inFlight, key), Workers(inFlight[worker := at], key);
    if at == key {
      assert after == before + {worker};
    } else {
      assert after == before;
    }
  }

  lemma WorkerEnds(inFlight: map<string, EndpointKey>, worker: string, key: EndpointKey)
    requires worker in inFlight
    ensures |Workers(inFlight - {worker}, key)| == |Workers(inFlight, key)| - if inFlight[worker] == key then 1 else 0
  {
    var before, after := Workers(inFlight, key), Workers(inFlight - {worker}, key);
    if inFlight[worker] == key {
      assert before == after + {worker};
    } else {
      assert after == before;
    }
  }

  lemma GivenUpKeeps(s: Session, worker: string, key: EndpointKey)
    ensures Missing(GivenUp(s, worker), key) == Missing(s, key)
    ensures worker !in GivenUp(s, worker).inFlight
  {
    if worker in s.inFlight {
      WorkerEnds(s.inFlight, worker, key);
    }
  }

  /** No event changes what an endpoint misses. */
  lemma NextKeeps(s: Session, event: Event, key: EndpointKey)
    ensures Missing(Next(s, event), key) == Missing(s, key)
  {
    match event
    case Prompt(worker) =>
      GivenUpKeeps(s, worker, key);
      WorkerStarts(GivenUp(s, worker).inFlight, worker, ActiveKey(s, worker), key);
    case Latency(worker, _) =>
      if worker in s.inFlight {
        WorkerEnds(s.inFlight, worker, key);
      }
    case Failure(worker) => GivenUpKeeps(s, worker, key);
    case Profile(_, _) =>
  }

  // ----- runs of the whole store -----

  /** All sessions, and the endpoints of each as they were last saved. */
  datatype Store = Store(sessions: map<string, Session>, saved: map<string, Endpoints>)

  datatype Operation =
    | Record(session: string, event: Event)
    | ResetStatistics(session: string)
    | Save
    | Reload

  function Opened(store: Store, id: string): Session {
    if id in store.sessions then store.sessions[id] else NEW_SESSION
  }

  function Step(store: Store, op: Operation): Store {
    match op
    case Record(id, event) => store.(sessions := store.sessions[id := Next(Opened(store, id), event)])
    case ResetStatistics(id) =>
      if id in store.sessions then store.(sessions := store.sessions[id := NEW_SESSION]) else store
    case Save => store.(saved := map id | id in store.sessions :: store.sessions[id].endpoints)
    case Reload => store.(sessions := map id | id in store.saved :: Session(map[], map[], store.saved[id]))
  }

  function Run(store: Store, ops: seq<Operation>): Store
    decreases |ops|
  {
    if ops == [] then store else Run(Step(store, ops[0]), ops[1..])
  }

  function Forgotten(endpoints: Endpoints): Session {
    Session(map[], map[], endpoints)
  }

  ghost predicate AllBalanced(store: Store) {
    forall id :: id in store.sessions ==> Balanced(store.sessions[id])
  }

  ghost predicate AllCovered(store: Store) {
    && (forall id :: id in store.sessions ==> Covered(store.sessions[id]))
    && (forall id :: id in store.saved ==> Covered(Forgotten(store.saved[id])))
  }

  lemma EventKeeps(s: Session, event: Event)
    ensures Balanced(s) ==> Balanced(Next(s, event))
    ensures Covered(s) ==> Covered(Next(s, event))
  {
    forall key ensures Missing(Next(s, event), key) == Missing(s, key) {
      NextKeeps(s, event, key);
    }
  }

  /** Until a reload every endpoint of every session balances. */
  lemma {:induction false} RunBalances(store: Store, ops: seq<Operation>)
    requires AllBalanced(store)
    requires forall i :: 0 <= i < |ops| ==> ops[i] != Reload
    ensures AllBalanced(Run(store, ops))
    decreases |ops|
  {
    if ops != [] {
      if ops[0].Record? {
        EventKeeps(Opened(store, ops[0].session), ops[0].event);
      }
      assert ops[0] != Reload;
      RunBalances(Step(store, ops[0]), ops[1..]);
    }
  }

  /** What a reload forgets is what was in flight: every endpoint misses that much more than when it was saved. */
  lemma ReloadMisses(s: Session, key: EndpointKey)
    ensures Missing(Forgotten(s.endpoints), key) == Missing(s, key) + |Workers(s.inFlight, key)|
  {
    assert Workers(map[], key) == {};
  }

  lemma SavedCovered(s: Session)
    requires Covered(s)
    ensures Covered(Forgotten(s.endpoints))
  {
    forall key ensures Missing(Forgotten(s.endpoints), key) >= 0 {
      ReloadMisses(s, key);
      assert Missing(s, key) >= 0;
    }
  }

  /** Saves and reloads included, an endpoint never has more outcomes and workers in flight than requests. */
  lemma {:induction false} RunCovers(store: Store, ops: seq<Operation>)
    requires AllCovered(store)
    ensures AllCovered(Run(store, ops))
    decreases |ops|
  {
    if ops != [] {
      match ops[0] {
        case Record(id, event) => EventKeeps(Opened(store, id), event);
        case Save =>
          forall id | id in store.sessions ensures Covered(Forgotten(store.sessions[id].endpoints)) {
            SavedCovered(store.sessions[id]);
          }
        case _ =>
      }
      RunCovers(Step(store, ops[0]), ops[1..]);
    }
  }

  // ----- outcomes find the endpoint of their request -----

  function RunEvents(s: Session, events: seq<Event>): Session
    decreases |events|
  {
    if events == [] then s else RunEvents(Next(s, events[0]), events[1..])
  }

  /** An event that neither starts nor ends a request of this worker. */
  predicate LeavesAlone(event: Event, worker: string) {
    event.Profile? || event.worker != worker
  }

  lemma {:induction false} StaysInFlight(s: Session, events: seq<Event>, worker: string)
    requires worker in s.inFlight
    requires forall i :: 0 <= i < |events| ==> LeavesAlone(events[i], worker)
    ensures var t := RunEvents(s, events); worker in t.inFlight && t.inFlight[worker] == s.inFlight[worker]
    decreases |events|
  {
    if events != [] {
      assert LeavesAlone(events[0], worker);
      StaysInFlight(Next(s, events[0]), events[1..], worker);
    }
  }

  /** A success is credited to the endpoint that counted the request, wherever its worker has moved in the meantime. */
  lemma SuccessGoesHome(s: Session, events: seq<Event>, worker: string, latency: nat, key: EndpointKey)
    requires forall i :: 0 <= i < |events| ==> LeavesAlone(events[i], worker)
    ensures var before := RunEvents(Next(s, Prompt(worker)), events); var after := Next(before, Latency(worker, latency));
      At(after.endpoints, key).successes == At(before.endpoints, key).successes + if key == ActiveKey(s, worker) then 1 else 0
  {
    StaysInFlight(Next(s, Prompt(worker)), events, worker);
  }

  /** So is a failure, and so is a request that is given up for the next one. */
  lemma FailureGoesHome(s: Session, events: seq<Event>, worker: string, again: bool, key: EndpointKey)
    requires forall i :: 0 <= i < |events| ==> LeavesAlone(events[i], worker)
    ensures var before := RunEvents(Next(s, Prompt(worker)), events);
      var after := Next(before, if again then Prompt(worker) else Failure(worker));
      At(after.endpoints, key).failures == At(before.endpoints, key).failures + if key == ActiveKey(s, worker) then 1 else 0
  {
    StaysInFlight(Next(s, Prompt(worker)), events, worker);
  }
}
