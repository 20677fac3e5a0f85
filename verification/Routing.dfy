/** Selection on top of the replica: a router whose cache has caught up selects among
    exactly the workers that the registry has available. */
module Routing {
  import opened Protocol
  import opened Scheduling
  import opened Selection
  import RegistryReplica

  /** Everything delivered to the cache has been applied. */
  ghost predicate CaughtUp(s: RegistryReplica.System) {
    s.reg.queue == [] && s.hand == RegistryReplica.Idle
  }

  /** The record whose model lists count: the registry's own for a WebSocket worker, the
      one with the fetched capabilities for any other. */
  ghost function Listed(s: RegistryReplica.System, id: string): WorkerInfo
    requires id in s.reg.workers
  {
    var info := s.reg.workers[id].info;
    if info.transport == WebSocket || id !in s.replica.cache then info else s.replica.cache[id]
  }

  /** Available in the registry, not excluded, and willing to serve the model. */
  ghost predicate Servable(s: RegistryReplica.System, model: string, excluded: set<string>, id: string) {
    id in s.reg.workers && s.reg.workers[id].available && id !in excluded && WillingWorker(Listed(s, id), model)
  }

  /** For a worker in step, selection's view and the registry's are the same. */
  lemma ServableIsAble(cfg: RegistryReplica.Config, labels: seq<RegistryReplica.Label>, env: Env,
                       model: string, excluded: set<string>, id: string)
    requires CaughtUp(RegistryReplica.Run(cfg, labels)) && env.cache == RegistryReplica.Run(cfg, labels).replica.cache
    requires RegistryReplica.InStep(RegistryReplica.Run(cfg, labels).reg, id)
    ensures Able(env, model, excluded, id) <==> Servable(RegistryReplica.Run(cfg, labels), model, excluded, id)
    ensures var s := RegistryReplica.Run(cfg, labels);
      id in env.cache ==> id in s.reg.workers && env.cache[id] == Listed(s, id)
  {
    var s := RegistryReplica.Run(cfg, labels);
    RegistryReplica.CaughtUp(cfg, labels);
    assert RegistryReplica.MirrorsAt(s.replica.cache, s.reg.workers, id);
  }

  /** selectWorkerExcluding after any run of registry and cache with an idle event loop: a
      selected worker that is in step is one that the registry has available, and an error
      means that the registry has none in step to offer. With every worker in step, there
      is an error exactly when the registry has none. */
  method SelectAvailable(ghost cfg: RegistryReplica.Config, ghost labels: seq<RegistryReplica.Label>,
                         env: Env, model: string, excluded: set<string>, o: Orders) returns (r: Result<WorkerInfo>)
    requires CaughtUp(RegistryReplica.Run(cfg, labels)) && env.cache == RegistryReplica.Run(cfg, labels).replica.cache
    requires Enumerates(o.loaded, env.cache) && Enumerates(o.autoload, env.cache)
    requires Enumerates(o.unloaded, env.cache) && Enumerates(o.fallback, env.cache)
    ensures var s := RegistryReplica.Run(cfg, labels);
      r.Ok? && RegistryReplica.InStep(s.reg, r.value.id) ==> (
        Servable(s, model, excluded, r.value.id) && r.value in {Listed(s, r.value.id), MarkLoaded(Listed(s, r.value.id), model)})
    ensures var s := RegistryReplica.Run(cfg, labels);
      r.Err? ==> forall id | RegistryReplica.InStep(s.reg, id) :: !Servable(s, model, excluded, id)
    ensures var s := RegistryReplica.Run(cfg, labels);
      (forall id :: RegistryReplica.InStep(s.reg, id)) ==> (r.Err? <==> forall id :: !Servable(s, model, excluded, id))
  {
    ghost var s := RegistryReplica.Run(cfg, labels);
    RegistryReplica.RunsMirror(cfg, labels);
    r := SelectWorkerExcluding(env, model, excluded, o);
    forall id | RegistryReplica.InStep(s.reg, id)
      ensures Able(env, model, excluded, id) <==> Servable(s, model, excluded, id)
    {
      ServableIsAble(cfg, labels, env, model, excluded, id);
    }
    if r.Ok? && RegistryReplica.InStep(s.reg, r.value.id) {
      ServableIsAble(cfg, labels, env, model, excluded, r.value.id);
    }
  }
}
