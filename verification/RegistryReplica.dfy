/** The in-memory registry and the capability cache that replays its events.

    The registry changes under its lock and broadcasts into a bounded channel; one
    goroutine takes events out and applies them to the cache in several critical
    sections. A run is any interleaving of discovery events, staleness sweeps (one
    worker at a time), subscriber probes and steps of the cache's event loop. */
module RegistryReplica {
  import opened Ordering
  import opened Protocol

  datatype Entry = Entry(info: WorkerInfo, lastSeen: int, available: bool)

  /** Registry events; `Probe` is the zero event that pruneSubs sends. */
  datatype Event =
    | Added(worker: WorkerInfo)
    | Updated(worker: WorkerInfo)
    | BecameUnavailable(worker: WorkerInfo)
    | Removed(worker: WorkerInfo)
    | Probe

  datatype DiscoveryKind = EventAdded | EventUpdated | EventRemoved | EventExpired

  datatype Config = Config(unavailableTTL: int, removeTTL: int)

  /** The registry with the cache as its subscriber; `announced` and `delivered` record
      each worker's latest announcement and the latest one that reached the channel. */
  datatype Registry = Registry(
    cfg: Config,
    workers: map<string, Entry>,
    subscribed: bool,
    queue: seq<Event>,
    failures: nat,
    announced: map<string, Event>,
    delivered: map<string, Event>)

  datatype WorkerStats = WorkerStats(workerId: string, snapshot: StatsSnapshot)

  datatype Cache = Cache(cache: map<string, WorkerInfo>, stats: map<string, map<string, WorkerStats>>)

  /** Where the event loop is: holding an event, waiting for a capability fetch,
      about to store statistics, or about to drop a departed worker's statistics. */
  datatype Hand =
    | Idle
    | Holding(event: Event)
    | Fetching(worker: WorkerInfo)
    | Hydrating(id: string, snaps: seq<StatsSnapshot>)
    | Dropping(id: string)

  datatype System = System(reg: Registry, replica: Cache, hand: Hand)

  datatype Label =
    | Discover(kind: DiscoveryKind, worker: WorkerInfo, now: int)
    | Stale(id: string, now: int)
    | PruneSubs
    | Take
    | Work(fetched: Option<Capabilities>)

  const CHANNEL_CAP := 32
  const MAX_SUB_FAILURES := 12

  function Start(cfg: Config): System {
    System(Registry(cfg, map[], true, [], 0, map[], map[]), Cache(map[], map[]), Idle)
  }

  function Broadcast(r: Registry, e: Event): Registry
    requires !e.Probe?
  {
    var told := r.(announced := r.announced[e.worker.id := e]);
    if r.subscribed && |r.queue| < CHANNEL_CAP
    then told.(queue := r.queue + [e], delivered := r.delivered[e.worker.id := e])
    else told
  }

  function HandleEvent(r: Registry, kind: DiscoveryKind, event: WorkerInfo, now: int): Registry {
    var worker := event.(lastSeen := now);
    var id := worker.id;
    match kind
    case EventAdded | EventUpdated =>
      var again := id in r.workers && r.workers[id].info.status == Available;
      Broadcast(r.(workers := r.workers[id := Entry(worker, now, true)]),
                if again then Updated(worker) else Added(worker))
    case EventRemoved =>
      if id in r.workers then Broadcast(r.(workers := r.workers - {id}), Removed(worker)) else r
    case EventExpired =>
      if id in r.workers && r.workers[id].available then MarkUnavailable(r, id) else r
  }

  function MarkUnavailable(r: Registry, id: string): Registry
    requires id in r.workers
  {
    var info := r.workers[id].info.(status := Unavailable);
    Broadcast(r.(workers := r.workers[id := Entry(info, r.workers[id].lastSeen, false)]), BecameUnavailable(info))
  }

  /** One worker's turn in checkStale. */
  function Sweep(r: Registry, id: string, now: int): Registry {
    if id !in r.workers then r
    else
      var since := now - r.workers[id].lastSeen;
      if since >= r.cfg.removeTTL then Broadcast(r.(workers := r.workers - {id}), Removed(r.workers[id].info))
      else if since >= r.cfg.unavailableTTL && r.workers[id].available then MarkUnavailable(r, id)
      else r
  }

  function Prune(r: Registry): Registry {
    if !r.subscribed then r
    else if |r.queue| < CHANNEL_CAP then r.(queue := r.queue + [Probe], failures := 0)
    else if r.failures < MAX_SUB_FAILURES then r.(failures := r.failures + 1)
    else r.(subscribed := false, failures := 0)
  }

  /** fetchCapabilities: a WebSocket worker has pushed its capabilities already. */
  function Fetch(worker: WorkerInfo, answer: Option<Capabilities>): Option<Capabilities> {
    if worker.transport == WebSocket then Some(worker.capabilities) else answer
  }

  function ByModel(id: string, snaps: seq<StatsSnapshot>): map<string, WorkerStats> {
    if snaps == [] then map[]
    else
      var s := snaps[|snaps| - 1];
      ByModel(id, snaps[..|snaps| - 1])[s.model := WorkerStats(id, s)]
  }

  function SetStats(c: Cache, id: string, snaps: seq<StatsSnapshot>): Cache {
    c.(stats := if snaps == [] then c.stats - {id} else c.stats[id := ByModel(id, snaps)])
  }

  /** The next critical section of the event loop. */
  function LoopStep(c: Cache, hand: Hand, fetched: Option<Capabilities>): (Cache, Hand) {
    match hand
    case Idle => (c, Idle)
    case Holding(Probe) => (c, Idle)
    case Holding(Added(w)) => (c.(cache := c.cache[w.id := w]), Fetching(w))
    case Holding(Updated(w)) => (c.(cache := c.cache[w.id := w]), Fetching(w))
    case Holding(BecameUnavailable(w)) => (c.(cache := c.cache - {w.id}), Dropping(w.id))
    case Holding(Removed(w)) => (c.(cache := c.cache - {w.id}), Dropping(w.id))
    case Fetching(w) =>
      (match Fetch(w, fetched)
       case None => (c, Idle)
       case Some(caps) => (c.(cache := c.cache[w.id := w.(capabilities := caps)]), Hydrating(w.id, caps.inferenceStats)))
    case Hydrating(id, snaps) => (SetStats(c, id, snaps), Idle)
    case Dropping(id) => (c.(stats := c.stats - {id}), Idle)
  }

  function Apply(s: System, l: Label): System {
    match l
    case Discover(kind, worker, now) => s.(reg := HandleEvent(s.reg, kind, worker, now))
    case Stale(id, now) => s.(reg := Sweep(s.reg, id, now))
    case PruneSubs => s.(reg := Prune(s.reg))
    case Take =>
      if s.hand == Idle && s.reg.queue != [] then
        s.(reg := s.reg.(queue := s.reg.queue[1..]), hand := Holding(s.reg.queue[0]))
      else s
    case Work(fetched) =>
      var (c, h) := LoopStep(s.replica, s.hand, fetched);
      s.(replica := c, hand := h)
  }

  function Run(cfg: Config, labels: seq<Label>): System {
    if labels == [] then Start(cfg)
    else Apply(Run(cfg, labels[..|labels| - 1]), labels[|labels| - 1])
  }

  // What the still-undelivered events will make of the cache.

  function ReplayOne(cache: map<string, WorkerInfo>, e: Event): map<string, WorkerInfo> {
    match e
    case Added(w) => cache[w.id := w]
    case Updated(w) => cache[w.id := w]
    case BecameUnavailable(w) => cache - {w.id}
    case Removed(w) => cache - {w.id}
    case Probe => cache
  }

  function Replay(cache: map<string, WorkerInfo>, events: seq<Event>): map<string, WorkerInfo> {
    if events == [] then cache
    else ReplayOne(Replay(cache, events[..|events| - 1]), events[|events| - 1])
  }

  function Backlog(s: System): seq<Event> {
    (if s.hand.Holding? then [s.hand.event] else []) + s.reg.queue
  }

  /** The cached record is the registry's up to capabilities, and exactly the
      registry's for a WebSocket worker. */
  predicate Agrees(cached: WorkerInfo, registered: WorkerInfo) {
    && cached.(capabilities := registered.capabilities) == registered
    && (registered.transport == WebSocket ==> cached == registered)
  }

  predicate MirrorsAt(cache: map<string, WorkerInfo>, workers: map<string, Entry>, id: string) {
    && (id in cache <==> id in workers && workers[id].available)
    && (id in cache ==> Agrees(cache[id], workers[id].info))
  }

  /** `cache` holds exactly the available workers, with agreeing records. */
  ghost predicate Mirrors(cache: map<string, WorkerInfo>, workers: map<string, Entry>) {
    forall id :: MirrorsAt(cache, workers, id)
  }

  ghost predicate KeysMatch(r: Registry) {
    forall id | id in r.workers :: r.workers[id].info.id == id
  }

  /** The event loop's own bookkeeping, which needs no assumption about drops. */
  ghost predicate LoopInv(s: System) {
    && KeysMatch(s.reg)
    && (forall id | id in s.replica.cache :: s.replica.cache[id].id == id)
    && (s.hand.Fetching? ==> s.hand.worker.id in s.replica.cache && s.replica.cache[s.hand.worker.id] == s.hand.worker)
    && (s.hand.Hydrating? ==> s.hand.id in s.replica.cache)
    && (forall id | id in s.replica.stats :: id in s.replica.cache || s.hand == Dropping(id))
  }

  /** What an announcement says of a worker: its record, or that it is gone. */
  function Effect(events: map<string, Event>, id: string): Option<WorkerInfo> {
    if id in events && (events[id].Added? || events[id].Updated?) then Some(events[id].worker) else None
  }

  /** The registry is what was announced. */
  predicate RegistryAt(workers: map<string, Entry>, announced: map<string, Event>, id: string) {
    var a := Effect(announced, id);
    && (id in workers && workers[id].available <==> a.Some?)
    && (a.Some? ==> workers[id].info == a.value)
  }

  /** The cache, backlog included, is what was delivered, up to fetched capabilities. */
  predicate ReplicaAt(cache: map<string, WorkerInfo>, delivered: map<string, Event>, id: string) {
    var d := Effect(delivered, id);
    && (id in cache <==> d.Some?)
    && (d.Some? ==> Refreshed(d.value, cache[id]))
  }

  ghost predicate RegistryInv(r: Registry) {
    forall id :: RegistryAt(r.workers, r.announced, id)
  }

  ghost predicate ReplicaInv(s: System) {
    forall id :: ReplicaAt(Replay(s.replica.cache, Backlog(s)), s.reg.delivered, id)
  }

  lemma ReplayAppend(cache: map<string, WorkerInfo>, events: seq<Event>, e: Event)
    ensures Replay(cache, events + [e]) == ReplayOne(Replay(cache, events), e)
  {
    assert (events + [e])[..|events|] == events;
  }

  lemma {:induction false} ReplayFront(cache: map<string, WorkerInfo>, e: Event, events: seq<Event>)
    ensures Replay(cache, [e] + events) == Replay(ReplayOne(cache, e), events)
  {
    if events == [] {
      assert [e] + events == [e] && [e][..0] == [];
    } else {
      var n := |events| - 1;
      ReplayFront(cache, e, events[..n]);
      assert ([e] + events)[..|events|] == [e] + events[..n];
    }
  }

  /** `b` is `a`, or `a` with fetched capabilities, which only an HTTP worker gets. */
  predicate Refreshed(a: WorkerInfo, b: WorkerInfo) {
    b == a || (a.transport == Http && b == a.(capabilities := b.capabilities))
  }

  lemma {:induction false} ReplayKeepsRefreshed(a: map<string, WorkerInfo>, b: map<string, WorkerInfo>, events: seq<Event>)
    requires a.Keys == b.Keys && forall id | id in a :: Refreshed(a[id], b[id])
    ensures Replay(a, events).Keys == Replay(b, events).Keys
    ensures forall id | id in Replay(a, events) :: Refreshed(Replay(a, events)[id], Replay(b, events)[id])
  {
    if events != [] {
      ReplayKeepsRefreshed(a, b, events[..|events| - 1]);
    }
  }

  lemma RefreshedTwice(a: map<string, WorkerInfo>, b: map<string, WorkerInfo>, delivered: map<string, Event>, id: string)
    requires a.Keys == b.Keys && (id in a ==> Refreshed(a[id], b[id])) && ReplicaAt(a, delivered, id)
    ensures ReplicaAt(b, delivered, id)
  {
  }

  /** The registry's change at one worker, and the event that announces it. */
  ghost predicate Announces(workers: map<string, Entry>, workers': map<string, Entry>, e: Event) {
    && !e.Probe?
    && (var id := e.worker.id;
        && workers' - {id} == workers - {id}
        && (if e.Added? || e.Updated?
            then id in workers' && workers'[id].available && workers'[id].info == e.worker
            else id in workers' ==> !workers'[id].available))
  }

  lemma AnnouncedAt(workers: map<string, Entry>, workers': map<string, Entry>, announced: map<string, Event>, e: Event, id: string)
    requires Announces(workers, workers', e) && RegistryAt(workers, announced, id)
    ensures RegistryAt(workers', announced[e.worker.id := e], id)
  {
    if id != e.worker.id {
      assert id in workers' <==> id in workers' - {e.worker.id};
      assert id in workers <==> id in workers - {e.worker.id};
      assert id in workers ==> workers'[id] == (workers' - {e.worker.id})[id] == (workers - {e.worker.id})[id];
    }
  }

  lemma DeliveredAt(cache: map<string, WorkerInfo>, delivered: map<string, Event>, e: Event, id: string)
    requires !e.Probe? && ReplicaAt(cache, delivered, id)
    ensures ReplicaAt(ReplayOne(cache, e), delivered[e.worker.id := e], id)
  {
  }

  ghost predicate Agreeing(s: System) {
    RegistryInv(s.reg) && ReplicaInv(s)
  }

  /** A broadcast moves what was announced the way the registry moved, and, if it gets
      through, what was delivered the way the cache will move. */
  lemma BroadcastKeepsReplica(s: System, workers': map<string, Entry>, e: Event)
    requires Agreeing(s) && Announces(s.reg.workers, workers', e)
    ensures Agreeing(s.(reg := Broadcast(s.reg.(workers := workers'), e)))
  {
    var s' := s.(reg := Broadcast(s.reg.(workers := workers'), e));
    forall id
      ensures RegistryAt(s'.reg.workers, s'.reg.announced, id)
    {
      AnnouncedAt(s.reg.workers, workers', s.reg.announced, e, id);
    }
    BroadcastReplays(s, workers', e);
  }

  lemma BroadcastReplays(s: System, workers': map<string, Entry>, e: Event)
    requires ReplicaInv(s) && !e.Probe?
    ensures ReplicaInv(s.(reg := Broadcast(s.reg.(workers := workers'), e)))
  {
    var s' := s.(reg := Broadcast(s.reg.(workers := workers'), e));
    if s.reg.subscribed && |s.reg.queue| < CHANNEL_CAP {
      assert Backlog(s') == Backlog(s) + [e];
      ReplayAppend(s.replica.cache, Backlog(s), e);
      forall id
        ensures ReplicaAt(Replay(s'.replica.cache, Backlog(s')), s'.reg.delivered, id)
      {
        DeliveredAt(Replay(s.replica.cache, Backlog(s)), s.reg.delivered, e, id);
      }
    } else {
      assert Backlog(s') == Backlog(s);
    }
  }

  lemma SweepKeepsReplica(s: System, id: string, now: int)
    requires Agreeing(s) && KeysMatch(s.reg)
    ensures Agreeing(s.(reg := Sweep(s.reg, id, now)))
  {
    if id in s.reg.workers {
      var since := now - s.reg.workers[id].lastSeen;
      if since >= s.reg.cfg.removeTTL {
        BroadcastKeepsReplica(s, s.reg.workers - {id}, Removed(s.reg.workers[id].info));
      } else if since >= s.reg.cfg.unavailableTTL && s.reg.workers[id].available {
        MarkUnavailableKeepsReplica(s, id);
      }
    }
  }

  lemma MarkUnavailableKeepsReplica(s: System, id: string)
    requires Agreeing(s) && KeysMatch(s.reg) && id in s.reg.workers
    ensures Agreeing(s.(reg := MarkUnavailable(s.reg, id)))
  {
    var info := s.reg.workers[id].info.(status := Unavailable);
    BroadcastKeepsReplica(s, s.reg.workers[id := Entry(info, s.reg.workers[id].lastSeen, false)], BecameUnavailable(info));
  }

  lemma DiscoverKeepsReplica(s: System, kind: DiscoveryKind, event: WorkerInfo, now: int)
    requires Agreeing(s) && KeysMatch(s.reg)
    ensures Agreeing(s.(reg := HandleEvent(s.reg, kind, event, now)))
  {
    var worker := event.(lastSeen := now);
    var id := worker.id;
    match kind
    case EventAdded | EventUpdated =>
      var again := id in s.reg.workers && s.reg.workers[id].info.status == Available;
      BroadcastKeepsReplica(s, s.reg.workers[id := Entry(worker, now, true)], if again then Updated(worker) else Added(worker));
    case EventRemoved =>
      if id in s.reg.workers {
        BroadcastKeepsReplica(s, s.reg.workers - {id}, Removed(worker));
      }
    case EventExpired =>
      if id in s.reg.workers {
        MarkUnavailableKeepsReplica(s, id);
      }
  }

  lemma SameBacklog(s: System, s': System)
    requires ReplicaInv(s) && s'.reg.delivered == s.reg.delivered
    requires Replay(s'.replica.cache, Backlog(s')) == Replay(s.replica.cache, Backlog(s))
    ensures ReplicaInv(s')
  {
    forall id
      ensures ReplicaAt(Replay(s'.replica.cache, Backlog(s')), s'.reg.delivered, id)
    {
      assert ReplicaAt(Replay(s.replica.cache, Backlog(s)), s.reg.delivered, id);
    }
  }

  lemma HoldingKeepsReplica(s: System, fetched: Option<Capabilities>)
    requires ReplicaInv(s) && s.hand.Holding?
    ensures ReplicaInv(Apply(s, Work(fetched)))
  {
    var s' := Apply(s, Work(fetched));
    ReplayFront(s.replica.cache, s.hand.event, s.reg.queue);
    assert Backlog(s') == s.reg.queue;
    assert s'.replica.cache == ReplayOne(s.replica.cache, s.hand.event);
    SameBacklog(s, s');
  }

  lemma FetchKeepsReplica(s: System, fetched: Option<Capabilities>)
    requires ReplicaInv(s) && LoopInv(s) && s.hand.Fetching?
    ensures ReplicaInv(Apply(s, Work(fetched)))
  {
    var s' := Apply(s, Work(fetched));
    assert Backlog(s') == Backlog(s);
    ReplayKeepsRefreshed(s.replica.cache, s'.replica.cache, Backlog(s));
    forall id
      ensures ReplicaAt(Replay(s'.replica.cache, Backlog(s')), s'.reg.delivered, id)
    {
      RefreshedTwice(Replay(s.replica.cache, Backlog(s)), Replay(s'.replica.cache, Backlog(s)), s.reg.delivered, id);
    }
  }

  lemma WorkKeepsReplica(s: System, fetched: Option<Capabilities>)
    requires ReplicaInv(s) && LoopInv(s)
    ensures ReplicaInv(Apply(s, Work(fetched)))
  {
    if s.hand.Holding? {
      HoldingKeepsReplica(s, fetched);
    } else if s.hand.Fetching? {
      FetchKeepsReplica(s, fetched);
    } else {
      var s' := Apply(s, Work(fetched));
      assert Backlog(s') == Backlog(s);
      SameBacklog(s, s');
    }
  }

  lemma ProbeKeepsReplica(s: System)
    requires ReplicaInv(s) && s.reg.subscribed && |s.reg.queue| < CHANNEL_CAP
    ensures ReplicaInv(Apply(s, PruneSubs))
  {
    ProbeBacklog(s);
    ReplayAppend(s.replica.cache, Backlog(s), Probe);
    SameBacklog(s, Apply(s, PruneSubs));
  }

  lemma ProbeBacklog(s: System)
    requires s.reg.subscribed && |s.reg.queue| < CHANNEL_CAP
    ensures var s' := Apply(s, PruneSubs);
      Backlog(s') == Backlog(s) + [Probe] && s'.replica == s.replica && s'.reg.delivered == s.reg.delivered
  {
  }

  lemma PruneKeepsReplica(s: System)
    requires ReplicaInv(s)
    ensures ReplicaInv(Apply(s, PruneSubs))
  {
    if s.reg.subscribed && |s.reg.queue| < CHANNEL_CAP {
      ProbeKeepsReplica(s);
    } else {
      var s' := Apply(s, PruneSubs);
      assert Backlog(s') == Backlog(s);
      SameBacklog(s, s');
    }
  }

  lemma TakeKeepsReplica(s: System)
    requires ReplicaInv(s)
    ensures ReplicaInv(Apply(s, Take))
  {
    var s' := Apply(s, Take);
    assert Backlog(s') == Backlog(s);
    SameBacklog(s, s');
  }

  lemma StepKeepsReplica(s: System, l: Label)
    requires Agreeing(s) && LoopInv(s)
    ensures Agreeing(Apply(s, l))
  {
    match l
    case Discover(kind, worker, now) => DiscoverKeepsReplica(s, kind, worker, now);
    case Stale(id, now) => SweepKeepsReplica(s, id, now);
    case PruneSubs => PruneKeepsReplica(s);
    case Take => TakeKeepsReplica(s);
    case Work(fetched) => WorkKeepsReplica(s, fetched);
  }

  lemma StepKeepsKeys(s: System, l: Label)
    requires KeysMatch(s.reg)
    ensures KeysMatch(Apply(s, l).reg)
  {
  }

  lemma StepKeepsLoop(s: System, l: Label)
    requires LoopInv(s)
    ensures LoopInv(Apply(s, l))
  {
    StepKeepsKeys(s, l);
  }

  /** In every run from an empty registry, dropped broadcasts included: the registry's
      available workers are the latest announcements, the cache with its backlog is the
      latest delivered announcements, and statistics are held only for cached workers (or
      one being dropped right now). */
  lemma {:induction false} RunsMirror(cfg: Config, labels: seq<Label>)
    ensures Agreeing(Run(cfg, labels)) && LoopInv(Run(cfg, labels))
  {
    if labels != [] {
      var n := |labels| - 1;
      RunsMirror(cfg, labels[..n]);
      StepKeepsReplica(Run(cfg, labels[..n]), labels[n]);
      StepKeepsLoop(Run(cfg, labels[..n]), labels[n]);
    }
  }

  /** The latest announcement of the worker that got through says the same of it as the
      latest one. */
  predicate InStep(r: Registry, id: string) {
    var d, a := Effect(r.delivered, id), Effect(r.announced, id);
    (d.Some? <==> a.Some?) && (d.Some? ==> Agrees(d.value, a.value))
  }

  /** Fetching capabilities decides nothing about agreement. */
  lemma AgreesRefreshed(d: WorkerInfo, cached: WorkerInfo, a: WorkerInfo)
    requires Refreshed(d, cached)
    ensures Agrees(cached, a) <==> Agrees(d, a)
  {
    if d.transport == Http {
      assert cached.(capabilities := a.capabilities) == d.(capabilities := a.capabilities);
    }
  }

  /** In every run, for every worker: the cache with its backlog mirrors the registry at
      this worker exactly when the worker is in step, whatever was dropped for others. */
  lemma MirrorsExactlyInStep(cfg: Config, labels: seq<Label>, id: string)
    ensures var s := Run(cfg, labels);
      MirrorsAt(Replay(s.replica.cache, Backlog(s)), s.reg.workers, id) <==> InStep(s.reg, id)
  {
    var s := Run(cfg, labels);
    RunsMirror(cfg, labels);
    var cache := Replay(s.replica.cache, Backlog(s));
    assert ReplicaAt(cache, s.reg.delivered, id) && RegistryAt(s.reg.workers, s.reg.announced, id);
    var d, a := Effect(s.reg.delivered, id), Effect(s.reg.announced, id);
    if d.Some? && a.Some? {
      AgreesRefreshed(d.value, cache[id], a.value);
    }
  }

  /** In particular when its latest announcement was delivered. */
  lemma DeliveredMirrors(cfg: Config, labels: seq<Label>, id: string)
    requires var r := Run(cfg, labels).reg;
      id in r.announced ==> id in r.delivered && r.delivered[id] == r.announced[id]
    ensures var s := Run(cfg, labels); MirrorsAt(Replay(s.replica.cache, Backlog(s)), s.reg.workers, id)
  {
    MirrorsExactlyInStep(cfg, labels, id);
    DeliveredWasAnnounced(cfg, labels, id);
  }

  lemma {:induction false} DeliveredWasAnnounced(cfg: Config, labels: seq<Label>, id: string)
    ensures id in Run(cfg, labels).reg.delivered ==> id in Run(cfg, labels).reg.announced
  {
    if labels != [] {
      DeliveredWasAnnounced(cfg, labels[..|labels| - 1], id);
      AnnouncementsGrow(Run(cfg, labels[..|labels| - 1]), labels[|labels| - 1], id);
    }
  }

  lemma AnnouncementsGrow(s: System, l: Label, id: string)
    requires id in s.reg.delivered ==> id in s.reg.announced
    ensures id in Apply(s, l).reg.delivered ==> id in Apply(s, l).reg.announced
  {
  }

  /** Once the event loop has caught up, the cache itself mirrors exactly the workers in
      step, and every worker holding statistics is cached. */
  lemma CaughtUp(cfg: Config, labels: seq<Label>)
    requires var s := Run(cfg, labels); s.reg.queue == [] && s.hand == Idle
    ensures var s := Run(cfg, labels);
      && (forall id :: MirrorsAt(s.replica.cache, s.reg.workers, id) <==> InStep(s.reg, id))
      && s.replica.stats.Keys <= s.replica.cache.Keys
  {
    var s := Run(cfg, labels);
    RunsMirror(cfg, labels);
    assert Backlog(s) == [];
    forall id
      ensures MirrorsAt(s.replica.cache, s.reg.workers, id) <==> InStep(s.reg, id)
    {
      MirrorsExactlyInStep(cfg, labels, id);
    }
  }

  lemma {:induction false} ProbesFillTheChannel(cfg: Config, n: nat)
    requires n <= CHANNEL_CAP
    ensures Run(cfg, seq(n, _ => PruneSubs)) == Start(cfg).(reg := Start(cfg).reg.(queue := seq(n, _ => Probe)))
  {
    if n > 0 {
      ProbesFillTheChannel(cfg, n - 1);
      assert seq(n, _ => PruneSubs)[..n - 1] == seq(n - 1, _ => PruneSubs);
      assert seq(n - 1, _ => Probe) + [Probe] == seq(n, _ => Probe);
    } else {
      assert seq(0, _ => PruneSubs) == [];
    }
  }

  lemma {:induction false} ProbesReplayToNothing(n: nat)
    ensures Replay(map[], seq(n, _ => Probe)) == map[]
  {
    if n > 0 {
      ProbesReplayToNothing(n - 1);
      assert seq(n, _ => Probe)[..n - 1] == seq(n - 1, _ => Probe);
    }
  }

  function Flooded(worker: WorkerInfo, now: int): seq<Label> {
    seq(CHANNEL_CAP, _ => PruneSubs) + [Discover(EventAdded, worker, now)]
  }

  /** A worker can fall out of step: behind a channel full of probes, its registration is
      dropped. */
  lemma MissedBroadcastBreaksMirror(cfg: Config, worker: WorkerInfo, now: int)
    ensures var s := Run(cfg, Flooded(worker, now));
      !InStep(s.reg, worker.id) && !MirrorsAt(Replay(s.replica.cache, Backlog(s)), s.reg.workers, worker.id)
  {
    FloodedRun(cfg, worker, now);
    MirrorsExactlyInStep(cfg, Flooded(worker, now), worker.id);
  }

  lemma FloodedRun(cfg: Config, worker: WorkerInfo, now: int)
    ensures var w := worker.(lastSeen := now);
      Run(cfg, Flooded(worker, now)) == Start(cfg).(reg := Registry(
        cfg, map[w.id := Entry(w, now, true)], true, seq(CHANNEL_CAP, _ => Probe), 0, map[w.id := Added(w)], map[]))
  {
    ProbesFillTheChannel(cfg, CHANNEL_CAP);
    assert Flooded(worker, now)[..CHANNEL_CAP] == seq(CHANNEL_CAP, _ => PruneSubs);
  }

  /** And back in: its next update, once there is room, repairs the mirror. */
  lemma NextUpdateHeals(cfg: Config, worker: WorkerInfo, now: int, later: int)
    ensures var s := Run(cfg, Flooded(worker, now) + [Take] + [Discover(EventUpdated, worker, later)]);
      MirrorsAt(Replay(s.replica.cache, Backlog(s)), s.reg.workers, worker.id)
  {
    var labels := Flooded(worker, now) + [Take] + [Discover(EventUpdated, worker, later)];
    FloodedRun(cfg, worker, now);
    assert (Flooded(worker, now) + [Take])[..CHANNEL_CAP + 1] == Flooded(worker, now);
    assert labels[..CHANNEL_CAP + 2] == Flooded(worker, now) + [Take];
    DeliveredMirrors(cfg, labels, worker.id);
  }

  function SweepAll(r: Registry, order: seq<string>, now: int): Registry {
    if order == [] then r else Sweep(SweepAll(r, order[..|order| - 1], now), order[|order| - 1], now)
  }

  lemma SweepSnoc(r: Registry, order: seq<string>, id: string, now: int)
    ensures SweepAll(r, order + [id], now) == Sweep(SweepAll(r, order, now), id, now)
  {
    assert (order + [id])[..|order|] == order;
  }

  /** What one sweep makes of a worker: gone, unavailable, or as it was. */
  function Swept(cfg: Config, e: Entry, now: int): Option<Entry> {
    if now - e.lastSeen >= cfg.removeTTL then None
    else if now - e.lastSeen >= cfg.unavailableTTL && e.available
    then Some(Entry(e.info.(status := Unavailable), e.lastSeen, false))
    else Some(e)
  }

  /** Whatever the map iteration order, a sweep treats every worker exactly once. */
  lemma {:induction false} SweepIsOrderFree(r: Registry, order: seq<string>, now: int, id: string)
    requires Distinct(order)
    ensures var after := SweepAll(r, order, now);
      after.cfg == r.cfg && (if id in after.workers then Some(after.workers[id]) else None) ==
      (if id !in r.workers then None else if id in order then Swept(r.cfg, r.workers[id], now) else Some(r.workers[id]))
  {
    if order != [] {
      var n := |order| - 1;
      SweepIsOrderFree(r, order[..n], now, id);
      assert id in order <==> id in order[..n] || id == order[n];
    }
  }

  /** The workers visited so far, in order, and those still to visit. */
  ghost predicate Sweeping(ids: set<string>, order: seq<string>, todo: set<string>) {
    todo <= ids && IsOrder(order, ids - todo)
  }

  lemma SweepNext(r: Registry, order: seq<string>, todo: set<string>, id: string, now: int)
    requires Sweeping(r.workers.Keys, order, todo) && id in todo
    ensures id in SweepAll(r, order, now).workers && Sweeping(r.workers.Keys, order + [id], todo - {id})
    ensures SweepAll(r, order + [id], now) == Sweep(SweepAll(r, order, now), id, now)
  {
    SweepIsOrderFree(r, order, now, id);
    SweepSnoc(r, order, id, now);
    OrderExtends(order, r.workers.Keys - todo, id);
    assert r.workers.Keys - (todo - {id}) == r.workers.Keys - todo + {id};
  }

  // The registry, told from the history of labels.

  /** The label reports the worker: an added or updated event. */
  predicate Reports(l: Label, id: string) {
    l.Discover? && (l.kind == EventAdded || l.kind == EventUpdated) && l.worker.id == id
  }

  /** The label takes the worker out, if it was last reported at `seen`. */
  predicate TakesOut(cfg: Config, l: Label, id: string, seen: int) {
    || (l.Discover? && l.kind == EventRemoved && l.worker.id == id)
    || (l.Stale? && l.id == id && l.now - seen >= cfg.removeTTL)
  }

  /** The label makes it unavailable, or takes it out. */
  predicate TakesDown(cfg: Config, l: Label, id: string, seen: int) {
    || TakesOut(cfg, l, id, seen)
    || (l.Discover? && l.kind == EventExpired && l.worker.id == id)
    || (l.Stale? && l.id == id && l.now - seen >= cfg.unavailableTTL)
  }

  /** The k-th label is the latest report of the worker. */
  ghost predicate LatestReport(labels: seq<Label>, id: string, k: nat) {
    k < |labels| && Reports(labels[k], id) && forall j | k < j < |labels| :: !Reports(labels[j], id)
  }

  ghost predicate OutSince(cfg: Config, labels: seq<Label>, id: string, k: nat)
    requires k < |labels| && labels[k].Discover?
  {
    exists j :: k < j < |labels| && TakesOut(cfg, labels[j], id, labels[k].now)
  }

  ghost predicate DownSince(cfg: Config, labels: seq<Label>, id: string, k: nat)
    requires k < |labels| && labels[k].Discover?
  {
    exists j :: k < j < |labels| && TakesDown(cfg, labels[j], id, labels[k].now)
  }

  /** What the latest report and the labels after it make of a worker. */
  function FateOf(worker: WorkerInfo, seen: int, out: bool, down: bool): Option<Entry> {
    var info := worker.(lastSeen := seen);
    if out then None
    else if down then Some(Entry(info.(status := Unavailable), seen, false))
    else Some(Entry(info, seen, true))
  }

  function EntryOf(workers: map<string, Entry>, id: string): Option<Entry> {
    if id in workers then Some(workers[id]) else None
  }

  lemma ReportStep(r: Registry, l: Label, id: string)
    requires Reports(l, id)
    ensures EntryOf(HandleEvent(r, l.kind, l.worker, l.now).workers, id) == FateOf(l.worker, l.now, false, false)
  {
  }

  lemma DiscoverFate(r: Registry, l: Label, id: string, worker: WorkerInfo, seen: int, out: bool, down: bool)
    requires l.Discover? && !Reports(l, id) && EntryOf(r.workers, id) == FateOf(worker, seen, out, down)
    ensures EntryOf(HandleEvent(r, l.kind, l.worker, l.now).workers, id)
      == FateOf(worker, seen, out || TakesOut(r.cfg, l, id, seen), down || TakesDown(r.cfg, l, id, seen))
  {
  }

  lemma SweepFate(r: Registry, l: Label, id: string, worker: WorkerInfo, seen: int, out: bool, down: bool)
    requires l.Stale? && EntryOf(r.workers, id) == FateOf(worker, seen, out, down)
    ensures EntryOf(Sweep(r, l.id, l.now).workers, id)
      == FateOf(worker, seen, out || TakesOut(r.cfg, l, id, seen), down || TakesDown(r.cfg, l, id, seen))
  {
  }

  /** A label that does not report the worker takes it out, or down, or leaves it alone. */
  lemma FateStep(s: System, l: Label, id: string, worker: WorkerInfo, seen: int, out: bool, down: bool)
    requires !Reports(l, id) && EntryOf(s.reg.workers, id) == FateOf(worker, seen, out, down)
    ensures EntryOf(Apply(s, l).reg.workers, id)
      == FateOf(worker, seen, out || TakesOut(s.reg.cfg, l, id, seen), down || TakesDown(s.reg.cfg, l, id, seen))
  {
    if l.Discover? {
      DiscoverFate(s.reg, l, id, worker, seen, out, down);
    } else if l.Stale? {
      SweepFate(s.reg, l, id, worker, seen, out, down);
    }
  }

  lemma AbsentStep(s: System, l: Label, id: string)
    requires !Reports(l, id) && id !in s.reg.workers
    ensures id !in Apply(s, l).reg.workers
  {
  }

  lemma {:induction false} CfgStays(cfg: Config, labels: seq<Label>)
    ensures Run(cfg, labels).reg.cfg == cfg
  {
    if labels != [] {
      CfgStays(cfg, labels[..|labels| - 1]);
    }
  }

  /** In every run, for every worker reported so far: it is absent exactly when a removal,
      or a sweep that found it too old to keep, came after its latest report; present and
      unavailable exactly when only an expiry, or a sweep that found it stale, did; and
      otherwise available with the reported record, last seen at the report. */
  lemma {:induction false} RegistryHistory(cfg: Config, labels: seq<Label>, id: string, k: nat)
    requires LatestReport(labels, id, k)
    ensures EntryOf(Run(cfg, labels).reg.workers, id)
      == FateOf(labels[k].worker, labels[k].now, OutSince(cfg, labels, id, k), DownSince(cfg, labels, id, k))
  {
    var n := |labels| - 1;
    var before, s := labels[..n], Run(cfg, labels[..n]);
    if k == n {
      ReportStep(s.reg, labels[n], id);
    } else {
      assert before[k] == labels[k] && forall j | k < j < n :: before[j] == labels[j];
      RegistryHistory(cfg, before, id, k);
      CfgStays(cfg, before);
      FateStep(s, labels[n], id, labels[k].worker, labels[k].now, OutSince(cfg, before, id, k), DownSince(cfg, before, id, k));
      SinceStep(cfg, labels, id, k);
    }
  }

  lemma SinceStep(cfg: Config, labels: seq<Label>, id: string, k: nat)
    requires k < |labels| - 1 && labels[k].Discover?
    ensures var n := |labels| - 1; var before := labels[..n];
      && (OutSince(cfg, labels, id, k) <==> OutSince(cfg, before, id, k) || TakesOut(cfg, labels[n], id, labels[k].now))
      && (DownSince(cfg, labels, id, k) <==> DownSince(cfg, before, id, k) || TakesDown(cfg, labels[n], id, labels[k].now))
  {
    var n := |labels| - 1;
    assert forall j | k <= j < n :: labels[..n][j] == labels[j];
  }

  /** A report is announced as an update exactly when the worker was there with status
      available, else as an addition. */
  lemma ReportAnnounced(r: Registry, kind: DiscoveryKind, w: WorkerInfo, now: int)
    requires kind == EventAdded || kind == EventUpdated
    ensures var r' := HandleEvent(r, kind, w, now); var seen := w.(lastSeen := now);
      && w.id in r'.announced
      && (r'.announced[w.id] == Updated(seen) <==> w.id in r.workers && r.workers[w.id].info.status == Available)
      && (r'.announced[w.id] == Added(seen) <==> w.id !in r.workers || r.workers[w.id].info.status != Available)
  {
  }

  /** And a worker that was never reported is absent. */
  lemma {:induction false} NeverReported(cfg: Config, labels: seq<Label>, id: string)
    requires forall j | 0 <= j < |labels| :: !Reports(labels[j], id)
    ensures id !in Run(cfg, labels).reg.workers
  {
    if labels != [] {
      var n := |labels| - 1;
      assert forall j | 0 <= j < n :: labels[..n][j] == labels[j];
      NeverReported(cfg, labels[..n], id);
      AbsentStep(Run(cfg, labels[..n]), labels[n], id);
    }
  }

  // What one event makes of the cache and the statistics.

  /** A reported worker is cached with the capabilities that were pushed or fetched, or, if
      the fetch fails, as it was reported. */
  lemma ReportIsCached(c: Cache, w: WorkerInfo, answer: Option<Capabilities>)
    ensures forall e | e in {Added(w), Updated(w)} :: (
      Consume(c, e, answer).0.cache == c.cache[w.id :=
        if w.transport == Http && answer.Some? then w.(capabilities := answer.value) else w])
  {
  }

  /** Its statistics become those of the same capabilities, the last snapshot for a model
      counting, and go away if there are none; a failed fetch leaves them. */
  lemma ReportHydrates(c: Cache, w: WorkerInfo, answer: Option<Capabilities>, e: Event, id: string)
    requires e in {Added(w), Updated(w)}
    ensures var stats := Consume(c, e, answer).0.stats;
      var snaps := if w.transport == WebSocket then w.capabilities.inferenceStats
                   else if answer.Some? then answer.value.inferenceStats else [];
      && (id != w.id || (w.transport == Http && answer.None?) ==>
          (id in stats <==> id in c.stats) && (id in stats ==> stats[id] == c.stats[id]))
      && (id == w.id && (w.transport == WebSocket || answer.Some?) ==> (id in stats <==> snaps != []))
      && (id == w.id && (w.transport == WebSocket || answer.Some?) && id in stats ==>
          forall i | 0 <= i < |snaps| && LastForModel(snaps, i) ::
            snaps[i].model in stats[id] && stats[id][snaps[i].model] == WorkerStats(id, snaps[i]))
  {
    var snaps := if w.transport == WebSocket then w.capabilities.inferenceStats
                 else if answer.Some? then answer.value.inferenceStats else [];
    LastSnapshotCounts(w.id, snaps);
  }

  predicate LastForModel(snaps: seq<StatsSnapshot>, i: nat)
    requires i < |snaps|
  {
    forall j | i < j < |snaps| :: snaps[j].model != snaps[i].model
  }

  lemma {:induction false} LastSnapshotCounts(id: string, snaps: seq<StatsSnapshot>)
    ensures forall i | 0 <= i < |snaps| && LastForModel(snaps, i) ::
      snaps[i].model in ByModel(id, snaps) && ByModel(id, snaps)[snaps[i].model] == WorkerStats(id, snaps[i])
  {
    if snaps != [] {
      var n := |snaps| - 1;
      LastSnapshotCounts(id, snaps[..n]);
      forall i | 0 <= i < |snaps| && LastForModel(snaps, i)
        ensures snaps[i].model in ByModel(id, snaps) && ByModel(id, snaps)[snaps[i].model] == WorkerStats(id, snaps[i])
      {
        if i < n {
          assert LastForModel(snaps[..n], i);
          assert snaps[n].model != snaps[i].model;
        }
      }
    }
  }

  /** A worker that left is neither cached nor in the statistics; the others stay. */
  lemma DepartureIsForgotten(c: Cache, w: WorkerInfo, answer: Option<Capabilities>)
    ensures forall e | e in {BecameUnavailable(w), Removed(w)} ::
      Consume(c, e, answer).0 == Cache(c.cache - {w.id}, c.stats - {w.id})
  {
  }

  /** An announcement is queued exactly when there is a subscriber with fewer than 32 events
      waiting. */
  lemma BroadcastMeans(r: Registry, e: Event)
    requires !e.Probe?
    ensures Broadcast(r, e).queue == if r.subscribed && |r.queue| < 32 then r.queue + [e] else r.queue
    ensures Broadcast(r, e).workers == r.workers
  {
  }

  /** Probes that find the channel full drop the subscriber at the thirteenth in a row. */
  lemma {:induction false} ThirteenthProbeDrops(r: Registry, n: nat)
    requires r.subscribed && |r.queue| == 32 && r.failures == 0 && n <= 13
    ensures var r' := Probed(r, n); r'.queue == r.queue && (r'.subscribed <==> n < 13) && (n < 13 ==> r'.failures == n)
  {
    if n > 0 {
      ThirteenthProbeDrops(r, n - 1);
    }
  }

  function Probed(r: Registry, n: nat): Registry {
    if n == 0 then r else Prune(Probed(r, n - 1))
  }

  /** An iteration of the event loop with nothing in between. */
  function Consume(c: Cache, e: Event, fetched: Option<Capabilities>): (Cache, Hand) {
    var (c1, h1) := LoopStep(c, Holding(e), fetched);
    var (c2, h2) := LoopStep(c1, h1, fetched);
    LoopStep(c2, h2, fetched)
  }

  class MemoryRegistry {
    const cfg: Config
    var workers: map<string, Entry>
    var subscribed: bool
    var sub: seq<Event>
    var subFailures: nat
    ghost var announced: map<string, Event>
    ghost var delivered: map<string, Event>

    ghost function View(): Registry
      reads this
    {
      Registry(cfg, workers, subscribed, sub, subFailures, announced, delivered)
    }

    constructor (cfg: Config)
      ensures View() == Start(cfg).reg
    {
      this.cfg := cfg;
      workers, subscribed, sub, subFailures, announced, delivered := map[], true, [], 0, map[], map[];
    }

    method BroadcastEvent(e: Event)
      requires !e.Probe?
      modifies this`sub, this`announced, this`delivered
      ensures View() == Broadcast(old(View()), e)
    {
      announced := announced[e.worker.id := e];
      if subscribed && |sub| < CHANNEL_CAP {
        sub := sub + [e];
        delivered := delivered[e.worker.id := e];
      }
    }

    method Handle(kind: DiscoveryKind, event: WorkerInfo, now: int)
      modifies this
      ensures View() == HandleEvent(old(View()), kind, event, now)
    {
      var worker := event.(lastSeen := now);
      var exists' := worker.id in workers;
      match kind {
        case EventAdded | EventUpdated =>
          if !exists' {
            workers := workers[worker.id := Entry(worker, now, true)];
            BroadcastEvent(Added(worker));
          } else {
            var oldStatus := workers[worker.id].info.status;
            workers := workers[worker.id := Entry(worker, now, true)];
            if oldStatus != Available {
              BroadcastEvent(Added(worker));
            } else {
              BroadcastEvent(Updated(worker));
            }
          }
        case EventRemoved =>
          if exists' {
            workers := workers - {worker.id};
            BroadcastEvent(Removed(worker));
          }
        case EventExpired =>
          if exists' && workers[worker.id].available {
            Expire(worker.id);
          }
      }
    }

    method Expire(id: string)
      requires id in workers
      modifies this
      ensures View() == MarkUnavailable(old(View()), id)
    {
      var info := workers[id].info.(status := Unavailable);
      workers := workers[id := Entry(info, workers[id].lastSeen, false)];
      BroadcastEvent(BecameUnavailable(info));
    }

    /** The body of the sweep's loop. */
    method SweepOne(id: string, now: int)
      requires id in workers
      modifies this
      ensures View() == Sweep(old(View()), id, now)
    {
      var since := now - workers[id].lastSeen;
      if since >= cfg.removeTTL {
        BroadcastEvent(Removed(workers[id].info));
        workers := workers - {id};
      } else if since >= cfg.unavailableTTL && workers[id].available {
        Expire(id);
      }
    }

    /** The sweep ranges over the map; `order` is the order it happened to use. */
    method CheckStale(now: int) returns (order: seq<string>)
      modifies this
      ensures IsOrder(order, old(workers).Keys)
      ensures View() == SweepAll(old(View()), order, now)
    {
      order := [];
      ghost var before := View();
      var todo := workers.Keys;
      while todo != {}
        invariant Sweeping(before.workers.Keys, order, todo) && View() == SweepAll(before, order, now)
        decreases |todo|
      {
        var id :| id in todo;
        SweepNext(before, order, todo, id, now);
        SweepOne(id, now);
        todo, order := todo - {id}, order + [id];
      }
      assert before.workers.Keys - {} == before.workers.Keys;
    }

    method PruneSubscriber()
      modifies this
      ensures View() == Prune(old(View()))
    {
      if !subscribed {
        return;
      }
      if |sub| < CHANNEL_CAP {
        sub := sub + [Probe];
        subFailures := 0;
      } else if subFailures < MAX_SUB_FAILURES {
        subFailures := subFailures + 1;
      } else {
        subscribed := false;
        subFailures := 0;
      }
    }
  }

  class CapabilityCache {
    var cache: map<string, WorkerInfo>
    var inferenceStats: map<string, map<string, WorkerStats>>

    ghost function View(): Cache
      reads this
    {
      Cache(cache, inferenceStats)
    }

    constructor ()
      ensures View() == Cache(map[], map[])
    {
      cache, inferenceStats := map[], map[];
    }

    method SetInferenceStats(id: string, snaps: seq<StatsSnapshot>)
      modifies this`inferenceStats
      ensures View() == SetStats(old(View()), id, snaps)
    {
      if |snaps| == 0 {
        inferenceStats := inferenceStats - {id};
        return;
      }
      var byModel: map<string, WorkerStats> := map[];
      for i := 0 to |snaps|
        invariant byModel == ByModel(id, snaps[..i])
      {
        var s := snaps[i];
        assert snaps[..i + 1][..i] == snaps[..i];
        byModel := byModel[s.model := WorkerStats(id, s)];
      }
      assert snaps[..|snaps|] == snaps;
      inferenceStats := inferenceStats[id := byModel];
    }

    /** Seed, fetch, store the fetched capabilities, hydrate the statistics. */
    method Update(worker: WorkerInfo, answer: Option<Capabilities>)
      modifies this
      ensures (View(), Idle) == Consume(old(View()), Updated(worker), answer)
    {
      cache := cache[worker.id := worker];
      var caps := Fetch(worker, answer);
      if caps.Some? {
        cache := cache[worker.id := worker.(capabilities := caps.value)];
        SetInferenceStats(worker.id, caps.value.inferenceStats);
      }
    }

    /** One turn of the event loop. */
    method OnEvent(e: Event, answer: Option<Capabilities>)
      modifies this
      ensures (View(), Idle) == Consume(old(View()), e, answer)
    {
      match e {
        case Added(w) => Update(w, answer);
        case Updated(w) => Update(w, answer);
        case Removed(w) =>
          cache := cache - {w.id};
          inferenceStats := inferenceStats - {w.id};
        case BecameUnavailable(w) =>
          cache := cache - {w.id};
          inferenceStats := inferenceStats - {w.id};
        case Probe =>
      }
    }
  }
}
