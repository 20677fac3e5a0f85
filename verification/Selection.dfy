/** Building the candidate list and selecting a worker, with the exclusion set of the
    failover loop and the model opt-out rules on every path.

    Each range over the cache map may use its own iteration order; `Orders` names
    them, and `Enumerates` is all that is known about them. */
module Selection {
  import opened Ordering
  import opened Protocol
  import opened Scheduling
  import opened Sequences

  datatype QueueStats = QueueStats(queueDepth: int, inFlight: int, maxInFlight: int, avgWaitMs: real)

  /** What a selection reads at one time: the cache, the scorer in use, the queue-load snapshot,
      the throughput table, the clock, and the outcome of asking a worker to load its
      k-th model entry. */
  datatype Env = Env(
    cache: map<string, WorkerInfo>,
    scorer: Option<Scorer>,
    includeUnloaded: bool,
    load: map<string, QueueStats>,
    throughput: map<string, map<string, real>>,
    loadOk: (string, nat) -> bool,
    now: int)

  datatype Orders = Orders(loaded: seq<string>, autoload: seq<string>, unloaded: seq<string>, fallback: seq<string>)

  ghost predicate Enumerates(order: seq<string>, cache: map<string, WorkerInfo>) {
    IsOrder(order, cache.Keys)
  }

  ghost predicate Admissible(env: Env, o: Orders) {
    && (forall id | id in env.cache :: env.cache[id].id == id)
    && Enumerates(o.loaded, env.cache) && Enumerates(o.autoload, env.cache)
    && Enumerates(o.unloaded, env.cache) && Enumerates(o.fallback, env.cache)
  }

  /** toSchedulerWorker. */
  function ToSched(env: Env, w: WorkerInfo, load: Option<QueueStats>, model: string): SchedWorker {
    var c := w.capabilities;
    SchedWorker(
      w.id, c.models,
      if c.vramTotalMB > 0 then c.vramTotalMB else 0,
      if c.vramTotalMB > 0 then c.vramFreeMB else 0,
      -1.0,
      if load.Some? then load.value.queueDepth else -1,
      if load.Some? then load.value.inFlight else -1,
      if load.Some? && load.value.maxInFlight > 0 then load.value.maxInFlight
      else if c.concurrencyCap > 0 then c.concurrencyCap
      else if load.Some? then load.value.maxInFlight
      else -1,
      if load.Some? && load.value.avgWaitMs >= 0.0 then load.value.avgWaitMs else -1.0,
      w.lastSeen,
      if model != "" && w.id in env.throughput && model in env.throughput[w.id] then env.throughput[w.id][model] else 0.0,
      c.allowedModels, c.excludedModels)
  }

  predicate HasLoaded(w: WorkerInfo, model: string) {
    exists m | m in w.capabilities.models :: m.name == model && m.loaded
  }

  predicate Advertises(w: WorkerInfo, model: string) {
    exists m | m in w.capabilities.models :: m.name == model
  }

  /** Entries for the model are tried in turn until one load succeeds. */
  predicate AutoLoads(env: Env, w: WorkerInfo, model: string) {
    exists k | 0 <= k < |w.capabilities.models| :: w.capabilities.models[k].name == model && env.loadOk(w.id, k)
  }

  /** The candidate's own copy with the first entry for the model marked loaded. */
  function MarkLoaded(w: WorkerInfo, model: string): WorkerInfo {
    var ms := w.capabilities.models;
    var i := FirstIndex(ms, model);
    if i < |ms| then w.(capabilities := w.capabilities.(models := ms[i := ms[i].(loaded := true)])) else w
  }

  predicate WillingWorker(w: WorkerInfo, model: string) {
    WillingLists(w.capabilities.allowedModels, w.capabilities.excludedModels, model)
  }

  ghost predicate NoneLoaded(env: Env, model: string) {
    forall id | id in env.cache :: !HasLoaded(env.cache[id], model)
  }

  /** What the candidate list holds for a cached worker, if anything. */
  function Candidate(env: Env, w: WorkerInfo, model: string, noneLoaded: bool): Option<WorkerInfo> {
    if HasLoaded(w, model) then Some(w)
    else if noneLoaded && AutoLoads(env, w, model) then Some(MarkLoaded(w, model))
    else if env.includeUnloaded && Advertises(w, model) then Some(w)
    else None
  }

  ghost predicate IsCandidate(env: Env, model: string, w: WorkerInfo) {
    w.id in env.cache && Candidate(env, env.cache[w.id], model, NoneLoaded(env, model)) == Some(w)
  }

  ghost predicate DistinctIds(ws: seq<WorkerInfo>) {
    forall i, j | 0 <= i < j < |ws| :: ws[i].id != ws[j].id
  }

  ghost predicate StrictById(ws: seq<WorkerInfo>) {
    forall i, j | 0 <= i < j < |ws| :: Below(ws[i].id, ws[j].id)
  }

  function ById(): (WorkerInfo, WorkerInfo) -> bool {
    (a: WorkerInfo, b: WorkerInfo) => AtMost(a.id, b.id)
  }

  lemma {:induction false} InsertStrict(s: seq<WorkerInfo>, x: WorkerInfo)
    requires StrictById(s) && forall w | w in s :: w.id != x.id
    ensures StrictById(Insert(s, x, ById()))
    ensures forall w :: w in Insert(s, x, ById()) <==> w in s || w == x
  {
    if s != [] {
      var n := |s| - 1;
      Trichotomy(s[n].id, x.id);
      if Below(s[n].id, x.id) {
        forall i | 0 <= i < n
          ensures Below(s[i].id, x.id)
        {
          Transitive(s[i].id, s[n].id, x.id);
        }
      } else {
        InsertStrict(s[..n], x);
        var t := Insert(s[..n], x, ById());
        forall i | 0 <= i < |t|
          ensures Below(t[i].id, s[n].id)
        {
          assert t[i] in t;
        }
        assert s == s[..n] + [s[n]];
      }
    }
  }

  /** Sorting workers with distinct IDs gives the one strictly increasing list of them. */
  lemma {:induction false} SortStrict(s: seq<WorkerInfo>)
    requires DistinctIds(s)
    ensures StrictById(SortBy(s, ById()))
    ensures forall w :: w in SortBy(s, ById()) <==> w in s
  {
    if s != [] {
      var n := |s| - 1;
      SortStrict(s[..n]);
      InsertStrict(SortBy(s[..n], ById()), s[n]);
      assert s == s[..n] + [s[n]];
    }
  }

  /** Every candidate found so far is genuine, once only, and recorded in `added`. */
  ghost predicate Collected(env: Env, model: string, cs: seq<WorkerInfo>, added: set<string>) {
    && DistinctIds(cs)
    && (forall w | w in cs :: w.id in added && IsCandidate(env, model, w))
    && (forall id | id in added :: exists w :: w in cs && w.id == id)
  }

  lemma Collect(env: Env, model: string, cs: seq<WorkerInfo>, added: set<string>, w: WorkerInfo)
    requires Collected(env, model, cs, added) && w.id !in added && IsCandidate(env, model, w)
    ensures Collected(env, model, cs + [w], added + {w.id})
  {
    var cs' := cs + [w];
    assert cs'[|cs|] == w;
    forall id | id in added + {w.id}
      ensures exists v :: v in cs' && v.id == id
    {
      if id in added {
        var v :| v in cs && v.id == id;
        assert v in cs';
      } else {
        assert w in cs' && w.id == id;
      }
    }
  }

  /** First pass: workers with the model loaded. */
  method CollectLoaded(env: Env, model: string, o: Orders) returns (cs: seq<WorkerInfo>, added: set<string>)
    requires Admissible(env, o)
    ensures Collected(env, model, cs, added)
    ensures forall id :: id in added <==> id in env.cache && HasLoaded(env.cache[id], model)
  {
    cs, added := [], {};
    for i := 0 to |o.loaded|
      invariant Collected(env, model, cs, added)
      invariant forall id :: id in added <==> id in o.loaded[..i] && HasLoaded(env.cache[id], model)
    {
      var w := env.cache[o.loaded[i]];
      if HasLoaded(w, model) {
        Collect(env, model, cs, added, w);
        cs, added := cs + [w], added + {w.id};
      }
    }
  }

  lemma AutoLoadedIsCandidate(env: Env, model: string, id: string)
    requires NoneLoaded(env, model) && id in env.cache && env.cache[id].id == id && AutoLoads(env, env.cache[id], model)
    ensures MarkLoaded(env.cache[id], model).id == id && IsCandidate(env, model, MarkLoaded(env.cache[id], model))
  {
  }

  /** Second pass, only when the first found nothing: ask advertisers to load. */
  method CollectAutoLoaded(env: Env, model: string, o: Orders) returns (cs: seq<WorkerInfo>, added: set<string>)
    requires Admissible(env, o) && NoneLoaded(env, model)
    ensures Collected(env, model, cs, added)
    ensures forall id :: id in added <==> id in env.cache && AutoLoads(env, env.cache[id], model)
  {
    cs, added := [], {};
    for i := 0 to |o.autoload|
      invariant Collected(env, model, cs, added)
      invariant forall id :: id in added <==> id in o.autoload[..i] && AutoLoads(env, env.cache[id], model)
    {
      var w := env.cache[o.autoload[i]];
      if AutoLoads(env, w, model) {
        AutoLoadedIsCandidate(env, model, w.id);
        Collect(env, model, cs, added, MarkLoaded(w, model));
        cs, added := cs + [MarkLoaded(w, model)], added + {w.id};
      }
    }
  }

  /** Third pass, when the scorer ranks cold workers too: the remaining advertisers. */
  method CollectUnloaded(env: Env, model: string, o: Orders, cs0: seq<WorkerInfo>, added0: set<string>)
    returns (cs: seq<WorkerInfo>, added: set<string>)
    requires Admissible(env, o) && env.includeUnloaded && Collected(env, model, cs0, added0)
    requires forall id | id in env.cache && id !in added0 && Advertises(env.cache[id], model) ::
      IsCandidate(env, model, env.cache[id])
    ensures Collected(env, model, cs, added)
    ensures forall id :: id in added <==> id in added0 || (id in env.cache && Advertises(env.cache[id], model))
  {
    cs, added := cs0, added0;
    for i := 0 to |o.unloaded|
      invariant Collected(env, model, cs, added)
      invariant forall id :: id in added <==> id in added0 || (id in o.unloaded[..i] && Advertises(env.cache[id], model))
    {
      var w := env.cache[o.unloaded[i]];
      if w.id !in added && Advertises(w, model) {
        Collect(env, model, cs, added, w);
        cs, added := cs + [w], added + {w.id};
      }
    }
  }

  lemma CollectedAll(env: Env, model: string, cs: seq<WorkerInfo>, added: set<string>)
    requires Collected(env, model, cs, added)
    requires forall id | id in env.cache && Candidate(env, env.cache[id], model, NoneLoaded(env, model)).Some? :: id in added
    ensures forall w :: w in cs <==> IsCandidate(env, model, w)
  {
    forall w | IsCandidate(env, model, w)
      ensures w in cs
    {
      var v :| v in cs && v.id == w.id;
    }
  }

  /** buildCandidates: exactly the candidates, in increasing ID order. */
  method BuildCandidates(env: Env, model: string, o: Orders) returns (cs: seq<WorkerInfo>)
    requires Admissible(env, o)
    ensures StrictById(cs)
    ensures forall w :: w in cs <==> IsCandidate(env, model, w)
  {
    var added;
    cs, added := CollectLoaded(env, model, o);
    if |cs| == 0 {
      assert forall id | id in added :: false;
      cs, added := CollectAutoLoaded(env, model, o);
    } else {
      assert cs[0].id in added && !NoneLoaded(env, model);
    }
    if env.includeUnloaded {
      cs, added := CollectUnloaded(env, model, o, cs, added);
    }
    CollectedAll(env, model, cs, added);
    SortStrict(cs);
    cs := SortBy(cs, ById());
  }

  // From candidates to the pool that is scored.

  ghost predicate InPool(env: Env, model: string, excluded: set<string>, w: WorkerInfo) {
    IsCandidate(env, model, w) && w.id !in excluded && WillingWorker(w, model)
  }

  function NotIn(excluded: set<string>): WorkerInfo -> bool {
    (w: WorkerInfo) => w.id !in excluded
  }

  function WillingFor(model: string): WorkerInfo -> bool {
    (w: WorkerInfo) => WillingWorker(w, model)
  }

  lemma FilterStrict(ws: seq<WorkerInfo>, p: WorkerInfo -> bool)
    requires StrictById(ws)
    ensures StrictById(Filter(ws, p))
  {
    FilterSorted(ws, p, (a: WorkerInfo, b: WorkerInfo) => Below(a.id, b.id));
  }

  lemma StrictIsDistinct(ws: seq<WorkerInfo>)
    requires StrictById(ws)
    ensures DistinctIds(ws)
  {
    forall i, j | 0 <= i < j < |ws|
      ensures ws[i].id != ws[j].id
    {
      Trichotomy(ws[i].id, ws[j].id);
    }
  }

  method DropExcluded(ws: seq<WorkerInfo>, excluded: set<string>) returns (kept: seq<WorkerInfo>)
    ensures kept == Filter(ws, NotIn(excluded))
  {
    kept := [];
    for i := 0 to |ws|
      invariant kept == Filter(ws[..i], NotIn(excluded))
    {
      FilterStep(ws, i, NotIn(excluded));
      if ws[i].id !in excluded {
        kept := kept + [ws[i]];
      }
    }
    assert ws[..|ws|] == ws;
  }

  function Views(env: Env, ws: seq<WorkerInfo>, model: string): (views: seq<SchedWorker>)
    ensures |views| == |ws| && forall i | 0 <= i < |ws| :: views[i] == ToSched(env, ws[i], None, model)
  {
    seq(|ws|, i requires 0 <= i < |ws| => ToSched(env, ws[i], None, model))
  }

  lemma {:induction false} FilterViews(env: Env, ws: seq<WorkerInfo>, model: string)
    ensures Filter(Views(env, ws, model), (w: SchedWorker) => Willing(w, model)) == Views(env, Filter(ws, WillingFor(model)), model)
  {
    if ws != [] {
      var n := |ws| - 1;
      FilterViews(env, ws[..n], model);
      assert Views(env, ws, model)[..n] == Views(env, ws[..n], model);
    }
  }

  method FindById(ws: seq<WorkerInfo>, id: string, ghost w: WorkerInfo) returns (found: WorkerInfo)
    requires DistinctIds(ws) && w in ws && w.id == id
    ensures found == w
  {
    ghost var at :| 0 <= at < |ws| && ws[at] == w;
    var j := 0;
    while ws[j].id != id
      invariant j <= at
      decreases at - j
    {
      j := j + 1;
    }
    found := ws[j];
  }

  /** The opt-out filter works on scheduler views; survivors are mapped back by ID. */
  method KeepWilling(env: Env, model: string, ws: seq<WorkerInfo>) returns (kept: seq<WorkerInfo>)
    requires DistinctIds(ws)
    ensures kept == Filter(ws, WillingFor(model))
  {
    var views := FilterByAllowedModels(Views(env, ws, model), model);
    FilterViews(env, ws, model);
    ghost var target := Filter(ws, WillingFor(model));
    FilterMembers(ws, WillingFor(model));
    kept := [];
    for i := 0 to |views|
      invariant kept == target[..i]
    {
      assert target[i] in target;
      var w := FindById(ws, views[i].id, target[i]);
      kept := kept + [w];
    }
  }

  // Scoring the pool.

  function LoadOf(env: Env, id: string): Option<QueueStats> {
    if id in env.load then Some(env.load[id]) else None
  }

  function Scored(env: Env, w: WorkerInfo, model: string): SchedWorker {
    ToSched(env, w, LoadOf(env, w.id), model)
  }

  function Algo(s: Scorer, model: string, now: int): Algorithm {
    (w: SchedWorker) => Score(s, Request(model, "", 0, 0), w, now)
  }

  /** A worker's score in this selection; None if it is stale or cannot be scored. */
  function Rank(env: Env, model: string, w: WorkerInfo): Option<real> {
    if env.scorer.None? then None
    else
      var s := env.scorer.value;
      var v := Scored(env, w, model);
      if Fresh(v, s.unavailableTTL, env.now) && Algo(s, model, env.now)(v).Ok?
      then Some(Algo(s, model, env.now)(v).value) else None
  }

  /** Higher score first, any score before none, then the lower ID. */
  predicate Beats(env: Env, model: string, w: WorkerInfo, c: WorkerInfo) {
    var a, b := Rank(env, model, w), Rank(env, model, c);
    if b.None? then a.Some? || AtMost(w.id, c.id)
    else a.Some? && (b.value < a.value || (b.value == a.value && AtMost(w.id, c.id)))
  }

  lemma ContendersOf(env: Env, model: string, pool: seq<WorkerInfo>, views: seq<SchedWorker>, s: Scorer)
    requires StrictById(pool) && env.scorer == Some(s)
    requires forall w | w in pool :: WillingWorker(w, model)
    requires |views| == |pool| && forall i | 0 <= i < |pool| :: views[i] == Scored(env, pool[i], model)
    ensures var cs := Contenders(views, model, s.unavailableTTL, env.now);
      && (forall v | v in cs :: v in views)
      && (forall i | 0 <= i < |pool| :: Fresh(views[i], s.unavailableTTL, env.now) ==> views[i] in cs)
      && (forall i, j | 0 <= i < j < |cs| :: Below(cs[i].id, cs[j].id))
      && (forall v | v in cs :: Fresh(v, s.unavailableTTL, env.now))
  {
    var young, willing := (w: SchedWorker) => Fresh(w, s.unavailableTTL, env.now), (w: SchedWorker) => Willing(w, model);
    var below := (a: SchedWorker, b: SchedWorker) => Below(a.id, b.id);
    FilterMembers(views, young);
    FilterMembers(Filter(views, young), willing);
    assert Sorted(views, below);
    FilterSorted(views, young, below);
    FilterSorted(Filter(views, young), willing, below);
    assert Sorted(Contenders(views, model, s.unavailableTTL, env.now), below);
    forall i | 0 <= i < |pool| && Fresh(views[i], s.unavailableTTL, env.now)
      ensures views[i] in Contenders(views, model, s.unavailableTTL, env.now)
    {
      assert pool[i] in pool;
    }
  }

  /** The first maximum of an ID-ordered list beats everyone, ties going to the lower ID. */
  lemma FirstMaximumBeats(env: Env, model: string, s: Scorer, cs: seq<SchedWorker>, k: nat, w: WorkerInfo, c: WorkerInfo)
    requires env.scorer == Some(s) && FirstMaximum(Algo(s, model, env.now), cs, k)
    requires forall i, j | 0 <= i < j < |cs| :: Below(cs[i].id, cs[j].id)
    requires Scored(env, w, model) == cs[k] && Fresh(cs[k], s.unavailableTTL, env.now)
    requires Rank(env, model, c).Some? ==> Scored(env, c, model) in cs
    ensures Beats(env, model, w, c)
  {
    if Rank(env, model, c).Some? {
      var i :| 0 <= i < |cs| && cs[i] == Scored(env, c, model);
      assert i > k ==> Below(cs[k].id, cs[i].id);
    }
  }

  /** Score an ID-ordered pool; with nothing to score, take the lowest ID. */
  method ScorePool(env: Env, model: string, pool: seq<WorkerInfo>) returns (w: WorkerInfo)
    requires StrictById(pool) && pool != [] && forall v | v in pool :: WillingWorker(v, model)
    ensures w in pool && forall c | c in pool :: Beats(env, model, w, c)
  {
    StrictIsDistinct(pool);
    if env.scorer.Some? {
      var s := env.scorer.value;
      var views := seq(|pool|, i requires 0 <= i < |pool| => Scored(env, pool[i], model));
      ContendersOf(env, model, pool, views, s);
      var sel := SelectWorker(Algo(s, model, env.now), model, views, s.unavailableTTL, env.now);
      if sel.Ok? {
        w := ChosenFromPool(env, model, pool, views, s, sel.value);
        return;
      }
      assert forall i | 0 <= i < |pool| :: Rank(env, model, pool[i]).None?;
    }
    w := pool[0];
    assert forall i | 0 < i < |pool| :: Below(w.id, pool[i].id);
  }

  /** Find the pool worker with the selected ID. */
  method ChosenFromPool(env: Env, model: string, pool: seq<WorkerInfo>, views: seq<SchedWorker>, s: Scorer, sel: SchedWorker)
    returns (w: WorkerInfo)
    requires DistinctIds(pool) && StrictById(pool) && env.scorer == Some(s)
    requires forall v | v in pool :: WillingWorker(v, model)
    requires |views| == |pool| && forall i | 0 <= i < |pool| :: views[i] == Scored(env, pool[i], model)
    requires exists k: nat :: (
      FirstMaximum(Algo(s, model, env.now), Contenders(views, model, s.unavailableTTL, env.now), k)
      && Contenders(views, model, s.unavailableTTL, env.now)[k] == sel)
    ensures w in pool && forall c | c in pool :: Beats(env, model, w, c)
  {
    ContendersOf(env, model, pool, views, s);
    ghost var cs := Contenders(views, model, s.unavailableTTL, env.now);
    ghost var k: nat :| FirstMaximum(Algo(s, model, env.now), cs, k) && cs[k] == sel;
    assert sel in cs;
    ghost var at :| 0 <= at < |views| && views[at] == sel;
    w := FindById(pool, sel.id, pool[at]);
    forall c | c in pool
      ensures Beats(env, model, w, c)
    {
      var i :| 0 <= i < |pool| && pool[i] == c;
      FirstMaximumBeats(env, model, s, cs, k, w, c);
    }
  }

  // The whole selection.

  /** A cached, non-excluded worker willing to serve the model. */
  predicate Able(env: Env, model: string, excluded: set<string>, id: string) {
    id in env.cache && id !in excluded && WillingWorker(env.cache[id], model)
  }

  predicate AbleAdvertiser(env: Env, model: string, excluded: set<string>, id: string) {
    Able(env, model, excluded, id) && Advertises(env.cache[id], model)
  }

  /** The pool's winner: it beats every member of the pool. */
  ghost predicate Chosen(env: Env, model: string, excluded: set<string>, w: WorkerInfo) {
    InPool(env, model, excluded, w) && forall c | InPool(env, model, excluded, c) :: Beats(env, model, w, c)
  }

  ghost predicate FirstAdvertiser(env: Env, model: string, excluded: set<string>, order: seq<string>, k: nat) {
    && k < |order| && AbleAdvertiser(env, model, excluded, order[k])
    && forall i | 0 <= i < k :: !AbleAdvertiser(env, model, excluded, order[i])
  }

  /** With an empty pool: the first able advertiser in iteration order, else the able
      worker with the lowest ID. */
  ghost predicate FallbackChoice(env: Env, model: string, excluded: set<string>, order: seq<string>, w: WorkerInfo) {
    if exists id :: AbleAdvertiser(env, model, excluded, id) then
      exists k: nat :: FirstAdvertiser(env, model, excluded, order, k) && env.cache[order[k]] == w
    else
      && Able(env, model, excluded, w.id) && w == env.cache[w.id]
      && forall id | Able(env, model, excluded, id) :: AtMost(w.id, id)
  }

  ghost predicate EmptyPool(env: Env, model: string, excluded: set<string>) {
    forall w :: !InPool(env, model, excluded, w)
  }

  /** What a selection may return for a given fallback iteration order. */
  ghost predicate Selects(env: Env, model: string, excluded: set<string>, order: seq<string>, w: WorkerInfo) {
    if EmptyPool(env, model, excluded) then FallbackChoice(env, model, excluded, order, w)
    else Chosen(env, model, excluded, w)
  }

  /** The fallback paths over the whole cache. */
  method Fallback(env: Env, model: string, excluded: set<string>, o: Orders) returns (r: Result<WorkerInfo>)
    requires Admissible(env, o)
    ensures r.Ok? ==> FallbackChoice(env, model, excluded, o.fallback, r.value)
    ensures r.Ok? ==> Able(env, model, excluded, r.value.id) && r.value == env.cache[r.value.id]
    ensures r.Err? ==> r.error == NoMatchingWorkers && forall id :: !Able(env, model, excluded, id)
  {
    for i := 0 to |o.fallback|
      invariant forall k | 0 <= k < i :: !AbleAdvertiser(env, model, excluded, o.fallback[k])
    {
      var id := o.fallback[i];
      if id !in excluded && Advertises(env.cache[id], model) && WillingWorker(env.cache[id], model) {
        assert FirstAdvertiser(env, model, excluded, o.fallback, i);
        return Ok(env.cache[id]);
      }
    }
    assert forall id :: !AbleAdvertiser(env, model, excluded, id);
    var best: Option<string> := None;
    for i := 0 to |o.fallback|
      invariant best.Some? ==> Able(env, model, excluded, best.value)
      invariant forall k | 0 <= k < i && Able(env, model, excluded, o.fallback[k]) ::
        best.Some? && AtMost(best.value, o.fallback[k])
    {
      var id := o.fallback[i];
      if id !in excluded && WillingWorker(env.cache[id], model) {
        if best.None? {
          best := Some(id);
        } else if Below(id, best.value) {
          forall k | 0 <= k < i && Able(env, model, excluded, o.fallback[k])
            ensures AtMost(id, o.fallback[k])
          {
            AtMostTransitive(id, best.value, o.fallback[k]);
          }
          best := Some(id);
        } else {
          Trichotomy(id, best.value);
        }
      }
    }
    if best.None? {
      return Err(NoMatchingWorkers);
    }
    return Ok(env.cache[best.value]);
  }

  /** Candidates that are neither excluded nor unwilling, in ID order. */
  method BuildPool(env: Env, model: string, excluded: set<string>, o: Orders) returns (pool: seq<WorkerInfo>)
    requires Admissible(env, o)
    ensures StrictById(pool)
    ensures forall w :: w in pool <==> InPool(env, model, excluded, w)
  {
    var cs := BuildCandidates(env, model, o);
    FilterMembers(cs, NotIn(excluded));
    FilterStrict(cs, NotIn(excluded));
    pool := DropExcluded(cs, excluded);
    FilterMembers(pool, WillingFor(model));
    FilterStrict(pool, WillingFor(model));
    StrictIsDistinct(pool);
    pool := KeepWilling(env, model, pool);
  }

  lemma PoolIsAble(env: Env, model: string, excluded: set<string>, w: WorkerInfo)
    requires InPool(env, model, excluded, w)
    ensures Able(env, model, excluded, w.id)
    ensures w in {env.cache[w.id], MarkLoaded(env.cache[w.id], model)}
  {
  }

  /** The worker was cached, not excluded and willing in the snapshot that its path read: it
      won the pool built from the first snapshot, or that pool was empty and it is the
      fallback choice of the last. */
  ghost predicate SelectsAcross(built: Env, scoring: Env, later: Env, model: string, excluded: set<string>,
                                order: seq<string>, w: WorkerInfo) {
    if EmptyPool(built, model, excluded) then
      Able(later, model, excluded, w.id) && FallbackChoice(later, model, excluded, order, w)
    else
      && Able(built, model, excluded, w.id) && InPool(built, model, excluded, w)
      && forall c | InPool(built, model, excluded, c) :: Beats(scoring, model, w, c)
  }

  /** selectWorkerExcluding with the cache changing underneath: candidates are built under
      one read lock, scored with what is known then, and the fallback takes the lock again. */
  method SelectAcrossSnapshots(built: Env, scoring: Env, later: Env, model: string, excluded: set<string>,
                               o: Orders, o': Orders) returns (r: Result<WorkerInfo>)
    requires Admissible(built, o) && Admissible(later, o')
    ensures r.Err? <==> EmptyPool(built, model, excluded) && forall id :: !Able(later, model, excluded, id)
    ensures r.Err? ==> r.error == NoMatchingWorkers
    ensures r.Ok? ==> SelectsAcross(built, scoring, later, model, excluded, o'.fallback, r.value)
  {
    var pool := BuildPool(built, model, excluded, o);
    if |pool| > 0 {
      assert InPool(built, model, excluded, pool[0]);
      var w := ScorePool(scoring, model, pool);
      PoolIsAble(built, model, excluded, w);
      return Ok(w);
    }
    r := Fallback(later, model, excluded, o');
  }

  /** The same on a cache that does not change. Whatever the iteration orders: only able
      workers are ever returned, an error means there is no able worker, and a non-empty
      pool is decided by score and then ID alone. */
  method SelectWorkerExcluding(env: Env, model: string, excluded: set<string>, o: Orders) returns (r: Result<WorkerInfo>)
    requires Admissible(env, o)
    ensures r.Err? <==> forall id :: !Able(env, model, excluded, id)
    ensures r.Err? ==> r.error == NoMatchingWorkers
    ensures r.Ok? ==> Able(env, model, excluded, r.value.id)
    ensures r.Ok? ==> r.value in {env.cache[r.value.id], MarkLoaded(env.cache[r.value.id], model)}
    ensures r.Ok? ==> Selects(env, model, excluded, o.fallback, r.value)
  {
    r := SelectAcrossSnapshots(env, env, env, model, excluded, o, o);
    PoolsAreAble(env, model, excluded);
    if r.Ok? {
      SelectedRecord(env, model, excluded, o.fallback, r.value);
    }
  }

  lemma PoolsAreAble(env: Env, model: string, excluded: set<string>)
    ensures (forall id :: !Able(env, model, excluded, id)) ==> EmptyPool(env, model, excluded)
  {
    forall w | InPool(env, model, excluded, w)
      ensures Able(env, model, excluded, w.id)
    {
      PoolIsAble(env, model, excluded, w);
    }
  }

  lemma SelectedRecord(env: Env, model: string, excluded: set<string>, order: seq<string>, w: WorkerInfo)
    requires SelectsAcross(env, env, env, model, excluded, order, w) && forall id | id in env.cache :: env.cache[id].id == id
    ensures Able(env, model, excluded, w.id) && Selects(env, model, excluded, order, w)
    ensures w in {env.cache[w.id], MarkLoaded(env.cache[w.id], model)}
  {
    if !EmptyPool(env, model, excluded) {
      PoolIsAble(env, model, excluded, w);
    }
  }

  /** A pool has one winner, so its choice is the same for every iteration order. */
  lemma ChosenUnique(env: Env, model: string, excluded: set<string>, w: WorkerInfo, v: WorkerInfo)
    requires Chosen(env, model, excluded, w) && Chosen(env, model, excluded, v)
    ensures w == v
  {
    assert Beats(env, model, w, v) && Beats(env, model, v, w);
    Trichotomy(w.id, v.id);
  }

  /** For one iteration order the fallback has one choice. */
  lemma FallbackUnique(env: Env, model: string, excluded: set<string>, order: seq<string>, w: WorkerInfo, v: WorkerInfo)
    requires FallbackChoice(env, model, excluded, order, w) && FallbackChoice(env, model, excluded, order, v)
    requires forall id | id in env.cache :: env.cache[id].id == id
    ensures w == v
  {
    if exists id :: AbleAdvertiser(env, model, excluded, id) {
      var j: nat :| FirstAdvertiser(env, model, excluded, order, j) && env.cache[order[j]] == w;
      var k: nat :| FirstAdvertiser(env, model, excluded, order, k) && env.cache[order[k]] == v;
      assert j == k;
    } else {
      Trichotomy(w.id, v.id);
    }
  }

  /** When the choice does not depend on the iteration order: the pool is not empty, or
      at most one able worker advertises the model. */
  ghost predicate OrderFree(env: Env, model: string, excluded: set<string>) {
    || !EmptyPool(env, model, excluded)
    || forall a, b | AbleAdvertiser(env, model, excluded, a) && AbleAdvertiser(env, model, excluded, b) :: a == b
  }

  lemma OrderFreeAgrees(env: Env, model: string, excluded: set<string>,
                        o: seq<string>, o': seq<string>, w: WorkerInfo, v: WorkerInfo)
    requires forall id | id in env.cache :: env.cache[id].id == id
    requires OrderFree(env, model, excluded)
    requires Selects(env, model, excluded, o, w) && Selects(env, model, excluded, o', v)
    ensures w == v
  {
    if !EmptyPool(env, model, excluded) {
      ChosenUnique(env, model, excluded, w, v);
    } else if !exists id :: AbleAdvertiser(env, model, excluded, id) {
      Trichotomy(w.id, v.id);
    }
  }

  /** Selection is independent of map iteration order exactly when it is order-free:
      otherwise two iteration orders exist that select different workers. */
  lemma OrderMattersOtherwise(env: Env, model: string, excluded: set<string>)
    returns (o: seq<string>, o': seq<string>, w: WorkerInfo, v: WorkerInfo)
    requires forall id | id in env.cache :: env.cache[id].id == id
    requires !OrderFree(env, model, excluded)
    ensures Enumerates(o, env.cache) && Enumerates(o', env.cache)
    ensures Selects(env, model, excluded, o, w) && Selects(env, model, excluded, o', v) && w != v
  {
    var a, b :| AbleAdvertiser(env, model, excluded, a) && AbleAdvertiser(env, model, excluded, b) && a != b;
    var startsWithA, _ := OrdersAround(env.cache.Keys, a);
    var startsWithB, _ := OrdersAround(env.cache.Keys, b);
    o, o' := startsWithA, startsWithB;
    w, v := env.cache[a], env.cache[b];
    assert FirstAdvertiser(env, model, excluded, o, 0) && FirstAdvertiser(env, model, excluded, o', 0);
  }

  // What is selected, told on the cached records.

  /** Able, spelled out: an allow list governs alone, else the block list does. */
  lemma AbleMeans(env: Env, model: string, excluded: set<string>, id: string)
    ensures Able(env, model, excluded, id) <==>
      && id in env.cache && id !in excluded
      && (env.cache[id].capabilities.allowedModels != [] ==> model in env.cache[id].capabilities.allowedModels)
      && (env.cache[id].capabilities.allowedModels == [] ==> model !in env.cache[id].capabilities.excludedModels)
  {
  }

  /** Which cached workers become candidates: those with the model loaded; if nobody has,
      those that loaded it when asked; and, when cold workers are ranked too, all that
      advertise it. */
  lemma CandidateMeans(env: Env, model: string, id: string)
    requires id in env.cache && env.cache[id].id == id
    ensures var models := env.cache[id].capabilities.models;
      var nobody := forall j | j in env.cache :: forall m | m in env.cache[j].capabilities.models :: m.name == model ==> !m.loaded;
      (exists w :: IsCandidate(env, model, w) && w.id == id) <==>
        || (exists m :: m in models && m.name == model && m.loaded)
        || (nobody && exists k :: 0 <= k < |models| && models[k].name == model && env.loadOk(id, k))
        || (env.includeUnloaded && exists m :: m in models && m.name == model)
  {
    var w := env.cache[id];
    assert NoneLoaded(env, model) <==>
      forall j | j in env.cache :: forall m | m in env.cache[j].capabilities.models :: m.name == model ==> !m.loaded;
    var c := Candidate(env, w, model, NoneLoaded(env, model));
    if c.Some? {
      assert IsCandidate(env, model, c.value) && c.value.id == id;
    }
  }

  /** A candidate that is not ranked cold has the model loaded in its record, marked so if
      it was loaded on request. */
  lemma CandidateIsLoaded(env: Env, model: string, w: WorkerInfo)
    requires IsCandidate(env, model, w) && !env.includeUnloaded
    ensures exists m :: m in w.capabilities.models && m.name == model && m.loaded
  {
    var cached := env.cache[w.id];
    if !HasLoaded(cached, model) {
      var ms := cached.capabilities.models;
      FirstIndexIsFirst(ms, model);
      var k :| 0 <= k < |ms| && ms[k].name == model && env.loadOk(cached.id, k);
      NamedHasIndex(ms, model, k);
      var i := FirstIndex(ms, model);
      assert w.capabilities.models[i] == ms[i].(loaded := true);
      assert w.capabilities.models[i] in w.capabilities.models;
    }
  }

  lemma {:induction false} NamedHasIndex(models: seq<ModelInfo>, name: string, k: nat)
    requires k < |models| && models[k].name == name
    ensures FirstIndex(models, name) <= k
  {
    if k > 0 && models[0].name != name {
      NamedHasIndex(models[1..], name, k - 1);
    }
  }

  /** If some able worker has the model loaded, one with the model loaded is selected, unless
      cold workers are ranked too; then every able advertiser takes part. */
  lemma LoadedFirst(built: Env, scoring: Env, later: Env, model: string, excluded: set<string>, order: seq<string>,
                    w: WorkerInfo, id: string)
    requires SelectsAcross(built, scoring, later, model, excluded, order, w)
    requires Able(built, model, excluded, id) && built.cache[id].id == id
    requires exists m :: m in built.cache[id].capabilities.models && m.name == model && m.loaded
    ensures InPool(built, model, excluded, built.cache[id]) && Beats(scoring, model, w, built.cache[id])
    ensures !built.includeUnloaded ==> exists m :: m in w.capabilities.models && m.name == model && m.loaded
  {
    assert HasLoaded(built.cache[id], model);
    assert InPool(built, model, excluded, built.cache[id]);
    if !built.includeUnloaded {
      CandidateIsLoaded(built, model, w);
    }
  }

  lemma AdvertisersTakePart(env: Env, model: string, excluded: set<string>, id: string)
    requires env.includeUnloaded && Able(env, model, excluded, id) && env.cache[id].id == id
    requires exists m :: m in env.cache[id].capabilities.models && m.name == model
    ensures exists w :: InPool(env, model, excluded, w) && w.id == id
  {
    var c := Candidate(env, env.cache[id], model, NoneLoaded(env, model)).value;
    assert InPool(env, model, excluded, c) && c.id == id;
  }

  /** With nobody able to advertise it, the fallback is the able worker with the lowest ID;
      otherwise it is the first able advertiser in iteration order. */
  lemma FallbackMeans(env: Env, model: string, excluded: set<string>, order: seq<string>, w: WorkerInfo)
    requires FallbackChoice(env, model, excluded, order, w) && IsOrder(order, env.cache.Keys)
    requires forall id | id in env.cache :: env.cache[id].id == id
    ensures Able(env, model, excluded, w.id) && env.cache[w.id] == w
    ensures if exists m :: m in w.capabilities.models && m.name == model
      then exists k: nat :: k < |order| && order[k] == w.id && forall i | 0 <= i < k && Able(env, model, excluded, order[i]) ::
        forall m | m in env.cache[order[i]].capabilities.models :: m.name != model
      else forall id | Able(env, model, excluded, id) :: AtMost(w.id, id)
  {
    if exists id :: AbleAdvertiser(env, model, excluded, id) {
      var k: nat :| FirstAdvertiser(env, model, excluded, order, k) && env.cache[order[k]] == w;
      assert order[k] in order;
      assert forall i | 0 <= i < k :: !AbleAdvertiser(env, model, excluded, order[i]);
    } else {
      assert !AbleAdvertiser(env, model, excluded, w.id);
    }
  }

  /** The fallback prefers a worker that advertises the model to one that does not. */
  lemma AdvertisersFirst(env: Env, model: string, excluded: set<string>, order: seq<string>, w: WorkerInfo, id: string)
    requires FallbackChoice(env, model, excluded, order, w) && Able(env, model, excluded, id)
    requires exists m :: m in env.cache[id].capabilities.models && m.name == model
    ensures exists m :: m in w.capabilities.models && m.name == model
  {
    assert AbleAdvertiser(env, model, excluded, id);
    var k: nat :| FirstAdvertiser(env, model, excluded, order, k) && env.cache[order[k]] == w;
  }

  /** What the scorer is shown of a worker: its record, with GPU use not known, and the load
      snapshot's numbers, each not known without one; the cap is the hub's, else the
      worker's own. */
  lemma ShownToTheScorer(env: Env, w: WorkerInfo, model: string)
    ensures var v, caps := Scored(env, w, model), w.capabilities;
      && v.id == w.id && v.models == caps.models && v.lastHeartbeat == w.lastSeen && v.gpuUtilPct < 0.0
      && v.allowedModels == caps.allowedModels && v.excludedModels == caps.excludedModels
      && (caps.vramTotalMB > 0 ==> v.vramTotalMB == caps.vramTotalMB && v.vramFreeMB == caps.vramFreeMB)
      && (caps.vramTotalMB <= 0 ==> v.vramTotalMB == 0 && v.vramFreeMB == 0)
    ensures var v := Scored(env, w, model);
      if w.id in env.load then
        && v.queueDepth == env.load[w.id].queueDepth && v.inFlight == env.load[w.id].inFlight
        && (env.load[w.id].avgWaitMs >= 0.0 ==> v.avgLatencyMS == env.load[w.id].avgWaitMs)
        && (env.load[w.id].avgWaitMs < 0.0 ==> v.avgLatencyMS < 0.0)
      else v.queueDepth == -1 && v.inFlight == -1 && v.avgLatencyMS < 0.0
    ensures var v, own := Scored(env, w, model), w.capabilities.concurrencyCap;
      && (w.id in env.load && env.load[w.id].maxInFlight > 0 ==> v.maxInFlight == env.load[w.id].maxInFlight)
      && (!(w.id in env.load && env.load[w.id].maxInFlight > 0) && own > 0 ==> v.maxInFlight == own)
      && (!(w.id in env.load && env.load[w.id].maxInFlight > 0) && own <= 0 ==> v.maxInFlight <= 0)
    ensures var known := model != "" && w.id in env.throughput && model in env.throughput[w.id];
      Scored(env, w, model).tokensPerSecond == if known then env.throughput[w.id][model] else 0.0
  {
  }

  /** What winning means: with a scorer, nobody fresh that can be scored scores higher, and
      the winner is such a worker if there is any; equal scores, and pools in which nobody
      is scored, go to the lowest ID. */
  lemma WinningMeans(env: Env, model: string, w: WorkerInfo, c: WorkerInfo)
    requires Beats(env, model, w, c)
    ensures env.scorer.None? ==> AtMost(w.id, c.id)
    ensures env.scorer.Some? ==> (
      var s, req := env.scorer.value, Request(model, "", 0, 0);
      var a, b := Scored(env, w, model), Scored(env, c, model);
      var x, y := Score(s, req, a, env.now), Score(s, req, b, env.now);
      if Fresh(b, s.unavailableTTL, env.now) && y.Ok? then
        && Fresh(a, s.unavailableTTL, env.now) && x.Ok? && y.value <= x.value && (y.value == x.value ==> AtMost(w.id, c.id))
      else if Fresh(a, s.unavailableTTL, env.now) && x.Ok? then true
      else AtMost(w.id, c.id))
  {
  }

  /** More load on a worker never improves its rank, and touches nobody else's. */
  lemma MoreLoadNeverHelps(env: Env, model: string, w: WorkerInfo, q: QueueStats, c: WorkerInfo)
    requires env.scorer.Some? && NonNegative(env.scorer.value) && w.id in env.load
    requires 0 <= env.load[w.id].queueDepth <= q.queueDepth && 0 <= env.load[w.id].inFlight <= q.inFlight
    requires 0.0 <= env.load[w.id].avgWaitMs <= q.avgWaitMs && q.maxInFlight == env.load[w.id].maxInFlight
    ensures var busier := env.(load := env.load[w.id := q]);
      && (Rank(env, model, w).None? <==> Rank(busier, model, w).None?)
      && (Rank(env, model, w).Some? ==> Rank(busier, model, w).value <= Rank(env, model, w).value)
      && (c.id != w.id ==> Rank(busier, model, c) == Rank(env, model, c))
  {
    var busier := env.(load := env.load[w.id := q]);
    var a, b := Scored(env, w, model), Scored(busier, w, model);
    BusierView(env, model, w, q);
    GpuUnknownAntitone(env.scorer.value, Request(model, "", 0, 0), a, b, env.now);
  }

  lemma BusierView(env: Env, model: string, w: WorkerInfo, q: QueueStats)
    requires w.id in env.load && q.maxInFlight == env.load[w.id].maxInFlight && q.avgWaitMs >= 0.0
    ensures var busier := env.(load := env.load[w.id := q]);
      Scored(busier, w, model) ==
        Scored(env, w, model).(queueDepth := q.queueDepth, inFlight := q.inFlight, avgLatencyMS := q.avgWaitMs)
  {
  }
}
