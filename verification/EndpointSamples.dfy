/** The latency samples kept. */
module EndpointSamples {
  // Those of the debug statistics (applications/timem/src/debug_session.rs): the ring is cut at its new end, so it keeps
  // the first samples and not the last.

  import opened Wrappers
  import opened EndpointAccounts

  /** The latencies of all successes credited to each endpoint, in order. */
  type Heard = map<EndpointKey, seq<nat>>

  function HeardAt(heard: Heard, key: EndpointKey): seq<nat> {
    if key in heard then heard[key] else []
  }

  function HeardNext(heard: Heard, s: Session, event: Event): Heard {
    if event.Latency? && event.worker in s.inFlight then
      var key := s.inFlight[event.worker];
      heard[key := HeardAt(heard, key) + [event.latency]]
    else heard
  }

  function Oldest(all: seq<nat>): seq<nat> {
    if |all| <= MAX_METRIC_SAMPLES then all else all[..MAX_METRIC_SAMPLES]
  }

  function Newest(all: seq<nat>): seq<nat> {
    if |all| <= MAX_METRIC_SAMPLES then all else all[|all| - MAX_METRIC_SAMPLES..]
  }

  /** What was heard in each session since it began, was reset or was reloaded, and what was heard when it was saved. */
  datatype History = History(sessions: map<string, Heard>, saved: map<string, Heard>)

  function HeardIn(h: History, id: string): Heard {
    if id in h.sessions then h.sessions[id] else map[]
  }

  function HistoryStep(h: History, store: Store, op: Operation): History {
    match op
    case Record(id, event) => h.(sessions := h.sessions[id := HeardNext(HeardIn(h, id), Opened(store, id), event)])
    case ResetStatistics(id) => if id in store.sessions then h.(sessions := h.sessions[id := map[]]) else h
    case Save => h.(saved := h.sessions)
    case Reload => h.(sessions := h.saved)
  }

  function HistoryRun(h: History, store: Store, ops: seq<Operation>): History
    decreases |ops|
  {
    if ops == [] then h else HistoryRun(HistoryStep(h, store, ops[0]), Step(store, ops[0]), ops[1..])
  }

  /** An endpoint counts its successes and holds the oldest of their latencies. */
  predicate HoldsOldest(e: Endpoint, all: seq<nat>) {
    e.successes == |all| && e.latencies == Oldest(all)
  }

  ghost predicate Sampled(endpoints: Endpoints, heard: Heard) {
    forall key :: HoldsOldest(At(endpoints, key), HeardAt(heard, key))
  }

  ghost predicate AllSampled(store: Store, h: History) {
    && h.sessions.Keys == store.sessions.Keys && h.saved.Keys == store.saved.Keys
    && (forall id :: id in store.sessions ==> Sampled(store.sessions[id].endpoints, h.sessions[id]))
    && (forall id :: id in store.saved ==> Sampled(store.saved[id], h.saved[id]))
  }

  lemma OneMoreSample(all: seq<nat>, latency: nat)
    ensures EndpointAccounts.Sampled(Oldest(all), latency) == Oldest(all + [latency])
  {
    if |all| >= MAX_METRIC_SAMPLES {
      assert Oldest(all) == all[..MAX_METRIC_SAMPLES] == (all + [latency])[..MAX_METRIC_SAMPLES];
      assert (Oldest(all) + [latency])[..MAX_METRIC_SAMPLES] == Oldest(all);
    }
  }

  lemma EventSamples(s: Session, heard: Heard, event: Event)
    requires Sampled(s.endpoints, heard)
    ensures Sampled(Next(s, event).endpoints, HeardNext(heard, s, event))
  {
    var t, longer := Next(s, event), HeardNext(heard, s, event);
    forall key ensures HoldsOldest(At(t.endpoints, key), HeardAt(longer, key)) {
      assert HoldsOldest(At(s.endpoints, key), HeardAt(heard, key));
      if event.Latency? {
        OneMoreSample(HeardAt(heard, key), event.latency);
      }
    }
  }

  lemma NothingHeard()
    ensures Sampled(NEW_SESSION.endpoints, map[])
  {
  }

  lemma StepSamples(store: Store, h: History, op: Operation)
    requires AllSampled(store, h)
    ensures AllSampled(Step(store, op), HistoryStep(h, store, op))
  {
    NothingHeard();
    if op.Record? {
      EventSamples(Opened(store, op.session), HeardIn(h, op.session), op.event);
    }
  }

  /**
    Over every run, saves, reloads and resets included: each endpoint holds exactly the latencies of its oldest
    successes, up to the limit, in the order in which they came.
   */
  lemma {:induction false} RunSamples(store: Store, h: History, ops: seq<Operation>)
    requires AllSampled(store, h)
    ensures AllSampled(Run(store, ops), HistoryRun(h, store, ops))
    decreases |ops|
  {
    if ops != [] {
      StepSamples(store, h, ops[0]);
      RunSamples(Step(store, ops[0]), HistoryStep(h, store, ops[0]), ops[1..]);
    }
  }

  /**
    These are the newest samples exactly while the limit is not passed, or when each sample is the one that came as many
    successes later as there are too many.
   */
  lemma OldestAreNewestIff(all: seq<nat>)
    ensures Oldest(all) == Newest(all) <==>
      (|all| <= MAX_METRIC_SAMPLES || forall i :: 0 <= i < MAX_METRIC_SAMPLES ==> all[i] == all[i + (|all| - MAX_METRIC_SAMPLES)])
  {
    if |all| > MAX_METRIC_SAMPLES {
      var late := |all| - MAX_METRIC_SAMPLES;
      assert forall i :: 0 <= i < MAX_METRIC_SAMPLES ==> Newest(all)[i] == all[i + late] && Oldest(all)[i] == all[i];
    }
  }

  /** So, over every run: an endpoint holds its newest samples exactly in those two cases. */
  lemma RunKeepsNewestIff(store: Store, h: History, ops: seq<Operation>, id: string, key: EndpointKey)
    requires AllSampled(store, h) && id in Run(store, ops).sessions
    ensures id in HistoryRun(h, store, ops).sessions
    ensures var all := HeardAt(HistoryRun(h, store, ops).sessions[id], key);
      At(Run(store, ops).sessions[id].endpoints, key).latencies == Newest(all) <==>
        (|all| <= MAX_METRIC_SAMPLES || forall i :: 0 <= i < MAX_METRIC_SAMPLES ==> all[i] == all[i + (|all| - MAX_METRIC_SAMPLES)])
  {
    RunSamples(store, h, ops);
    var all := HeardAt(HistoryRun(h, store, ops).sessions[id], key);
    assert HoldsOldest(At(Run(store, ops).sessions[id].endpoints, key), all);
    OldestAreNewestIff(all);
  }

  // ----- a run that loses its newest sample -----

  /** One worker, `n` requests that take 0, 1, 2, ... milliseconds. */
  function Requests(worker: string, n: nat): seq<Event> {
    if n == 0 then [] else Requests(worker, n - 1) + [Prompt(worker), Latency(worker, n - 1)]
  }

  function Counting(n: nat): (s: seq<nat>)
    ensures |s| == n && forall i :: 0 <= i < n ==> s[i] == i
  {
    if n == 0 then [] else Counting(n - 1) + [n - 1]
  }

  lemma {:induction false} RunEventsTwice(s: Session, a: seq<Event>, b: seq<Event>)
    ensures RunEvents(s, a + b) == RunEvents(RunEvents(s, a), b)
    decreases |a|
  {
    if a == [] {
      assert a + b == b;
    } else {
      assert (a + b)[1..] == a[1..] + b;
      RunEventsTwice(Next(s, a[0]), a[1..], b);
    }
  }

  lemma OneRequest(s: Session, worker: string, latency: nat)
    requires s.active == map[] && s.inFlight == map[]
    ensures var t := RunEvents(s, [Prompt(worker), Latency(worker, latency)]);
      && t.active == map[] && t.inFlight == map[]
      && At(t.endpoints, PENDING).latencies == EndpointAccounts.Sampled(At(s.endpoints, PENDING).latencies, latency)
  {
    var events := [Prompt(worker), Latency(worker, latency)];
    var asked := Next(s, events[0]);
    assert events[1..][0] == Latency(worker, latency) && events[1..][1..] == [];
    assert asked.inFlight - {worker} == map[];
    assert RunEvents(asked, events[1..]) == Next(asked, Latency(worker, latency));
  }

  lemma {:induction false} RequestsSample(worker: string, n: nat)
    ensures var t := RunEvents(NEW_SESSION, Requests(worker, n));
      t.active == map[] && t.inFlight == map[] && At(t.endpoints, PENDING).latencies == Oldest(Counting(n))
  {
    if n > 0 {
      RequestsSample(worker, n - 1);
      RunEventsTwice(NEW_SESSION, Requests(worker, n - 1), [Prompt(worker), Latency(worker, n - 1)]);
      OneRequest(RunEvents(NEW_SESSION, Requests(worker, n - 1)), worker, n - 1);
      OneMoreSample(Counting(n - 1), n - 1);
    }
  }

  /** After 2,001 requests the first latency is kept and the last is not. */
  lemma NewestSampleIsLost(worker: string)
    ensures var latencies := At(RunEvents(NEW_SESSION, Requests(worker, MAX_METRIC_SAMPLES + 1)).endpoints, PENDING).latencies;
      0 in latencies && MAX_METRIC_SAMPLES !in latencies && latencies != Newest(Counting(MAX_METRIC_SAMPLES + 1))
  {
    var all := Counting(MAX_METRIC_SAMPLES + 1);
    RequestsSample(worker, MAX_METRIC_SAMPLES + 1);
    assert Oldest(all)[0] == 0 && Newest(all)[0] == 1;
  }
}
