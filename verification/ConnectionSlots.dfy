/** The connection semaphore and the connection table of the WebSocket hub.

    handleConn takes several critical sections: supersede the incumbent, acquire a
    slot, publish the connection; later the connection is shut down and its slot
    released, possibly by two parties. Each section is one `Label`, and any sequence
    of labels is a run. SetMaxConnections replaces the semaphore channel, so a slot
    is the handle of the channel it was taken from. */
module ConnectionSlots {
  import opened Counting

  datatype Stage = Acquired | Published | Shut

  /** A wsConnection; `returned` counts the tokens taken back out for its slot. */
  datatype Conn = Conn(worker: string, slot: nat, stage: Stage, released: bool, returned: nat)

  datatype Semaphore = Semaphore(cap: nat, used: nat)

  datatype Pool = Pool(sems: seq<Semaphore>, conns: seq<Conn>, table: map<string, nat>)

  datatype Label =
    | SetMaxConnections(n: int)
    | EnsureSemaphore
    | Supersede(worker: string)
    | Acquire(worker: string, sem: nat)
    | Publish(conn: nat)
    | Shutdown(conn: nat)
    | Release(conn: nat)

  const DEFAULT_MAX_CONNECTIONS := 256
  const EmptyPool := Pool([], [], map[])

  /** releaseSlot: once per connection, a non-blocking receive on its channel. */
  function Released(p: Pool, c: nat): Pool
    requires c < |p.conns| && p.conns[c].slot < |p.sems|
  {
    var conn := p.conns[c];
    var sem := p.sems[conn.slot];
    if conn.released then p
    else if sem.used == 0 then p.(conns := p.conns[c := conn.(released := true)])
    else p.(sems := p.sems[conn.slot := sem.(used := sem.used - 1)],
            conns := p.conns[c := conn.(released := true, returned := conn.returned + 1)])
  }

  predicate Known(p: Pool, c: nat) {
    c < |p.conns| && p.conns[c].slot < |p.sems|
  }

  function Apply(p: Pool, l: Label): Pool {
    match l
    case SetMaxConnections(n) =>
      p.(sems := p.sems + [Semaphore(if n <= 0 then DEFAULT_MAX_CONNECTIONS else n, 0)])
    case EnsureSemaphore =>
      if p.sems == [] then p.(sems := [Semaphore(DEFAULT_MAX_CONNECTIONS, 0)]) else p
    case Supersede(worker) =>
      if worker in p.table && Known(p, p.table[worker]) then Released(p, p.table[worker]) else p
    case Acquire(worker, k) =>
      if k < |p.sems| && p.sems[k].used < p.sems[k].cap then
        p.(sems := p.sems[k := p.sems[k].(used := p.sems[k].used + 1)],
           conns := p.conns + [Conn(worker, k, Acquired, false, 0)])
      else p
    case Publish(c) =>
      if c < |p.conns| && p.conns[c].stage == Acquired then
        p.(conns := p.conns[c := p.conns[c].(stage := Published)], table := p.table[p.conns[c].worker := c])
      else p
    case Shutdown(c) =>
      if c < |p.conns| && p.conns[c].stage == Published then
        var w := p.conns[c].worker;
        p.(conns := p.conns[c := p.conns[c].(stage := Shut)],
           table := if w in p.table && p.table[w] == c then p.table - {w} else p.table)
      else p
    case Release(c) => if Known(p, c) then Released(p, c) else p
  }

  function Run(labels: seq<Label>): Pool {
    if labels == [] then EmptyPool
    else Apply(Run(labels[..|labels| - 1]), labels[|labels| - 1])
  }

  function Holds(sem: nat): Conn -> bool {
    (c: Conn) => c.slot == sem && !c.released
  }

  /** Occupancy of every semaphore is the number of unreleased slots taken from it. */
  ghost predicate SlotsExact(p: Pool) {
    && (forall k: nat | k < |p.sems| :: p.sems[k].used == Count(p.conns, Holds(k)) && p.sems[k].used <= p.sems[k].cap)
    && (forall c: nat | c < |p.conns| ::
          p.conns[c].slot < |p.sems| && p.conns[c].returned == if p.conns[c].released then 1 else 0)
  }

  /** Every table entry points to a live connection of that worker. */
  ghost predicate TableExact(p: Pool) {
    forall w | w in p.table ::
      p.table[w] < |p.conns| && p.conns[p.table[w]].worker == w && p.conns[p.table[w]].stage == Published
  }

  ghost predicate Inv(p: Pool) {
    SlotsExact(p) && TableExact(p)
  }

  /** A connection that has not released finds its token: the empty-channel branch
      of releaseSlot is unreachable. */
  lemma ChannelNotEmpty(p: Pool, c: nat)
    requires SlotsExact(p) && c < |p.conns| && !p.conns[c].released
    ensures p.sems[p.conns[c].slot].used > 0
  {
    CountPositive(p.conns, c, Holds(p.conns[c].slot));
  }

  lemma ReleaseKeepsSlots(p: Pool, c: nat)
    requires SlotsExact(p) && c < |p.conns|
    ensures SlotsExact(Released(p, c))
  {
    if !p.conns[c].released {
      ChannelNotEmpty(p, c);
      var conn := p.conns[c];
      var p' := Released(p, c);
      forall k: nat | k < |p.sems|
        ensures p'.sems[k].used == Count(p'.conns, Holds(k))
      {
        CountUpdate(p.conns, c, conn.(released := true, returned := conn.returned + 1), Holds(k));
      }
    }
  }

  lemma AcquireKeepsSlots(p: Pool, worker: string, sem: nat)
    requires SlotsExact(p)
    ensures SlotsExact(Apply(p, Acquire(worker, sem)))
  {
    var p' := Apply(p, Acquire(worker, sem));
    forall k: nat | k < |p.sems|
      ensures p'.sems[k].used == Count(p'.conns, Holds(k))
    {
      CountAppend(p.conns, Conn(worker, sem, Acquired, false, 0), Holds(k));
    }
  }

  lemma StageKeepsSlots(p: Pool, c: nat, stage: Stage, table: map<string, nat>)
    requires SlotsExact(p) && c < |p.conns|
    ensures SlotsExact(p.(conns := p.conns[c := p.conns[c].(stage := stage)], table := table))
  {
    forall k: nat {
      CountUpdate(p.conns, c, p.conns[c].(stage := stage), Holds(k));
    }
  }

  lemma NewSemaphoreKeepsSlots(p: Pool, cap: nat)
    requires SlotsExact(p)
    ensures SlotsExact(p.(sems := p.sems + [Semaphore(cap, 0)]))
  {
    CountNone(p.conns, Holds(|p.sems|));
  }

  lemma StepKeepsSlots(p: Pool, l: Label)
    requires Inv(p)
    ensures SlotsExact(Apply(p, l))
  {
    match l
    case SetMaxConnections(n) => NewSemaphoreKeepsSlots(p, if n <= 0 then DEFAULT_MAX_CONNECTIONS else n);
    case EnsureSemaphore => NewSemaphoreKeepsSlots(p, DEFAULT_MAX_CONNECTIONS);
    case Supersede(worker) =>
      if worker in p.table {
        ReleaseKeepsSlots(p, p.table[worker]);
      }
    case Acquire(worker, k) => AcquireKeepsSlots(p, worker, k);
    case Publish(c) =>
      if c < |p.conns| {
        StageKeepsSlots(p, c, Published, p.table[p.conns[c].worker := c]);
      }
    case Shutdown(c) =>
      if c < |p.conns| {
        StageKeepsSlots(p, c, Shut, Apply(p, l).table);
      }
    case Release(c) =>
      if c < |p.conns| {
        ReleaseKeepsSlots(p, c);
      }
  }

  lemma StepKeepsTable(p: Pool, l: Label)
    requires TableExact(p)
    ensures TableExact(Apply(p, l))
  {
  }

  lemma StepKeepsInv(p: Pool, l: Label)
    requires Inv(p)
    ensures Inv(Apply(p, l))
  {
    StepKeepsSlots(p, l);
    StepKeepsTable(p, l);
  }

  /** In every run each semaphore's occupancy is the number of connections holding
      an unreleased slot of it and stays within its cap, and every released slot was
      handed back exactly once, however many parties released it. */
  lemma {:induction false} RunsKeepInv(labels: seq<Label>)
    ensures Inv(Run(labels))
  {
    if labels != [] {
      RunsKeepInv(labels[..|labels| - 1]);
      StepKeepsInv(Run(labels[..|labels| - 1]), labels[|labels| - 1]);
    }
  }

  lemma RunSnoc(labels: seq<Label>, l: Label)
    ensures Run(labels + [l]) == Apply(Run(labels), l)
  {
    assert (labels + [l])[..|labels|] == labels;
  }

  /** The superseder and the connection's own teardown may both release: the second
      release, whoever makes it and whatever ran in between, changes nothing. */
  lemma {:induction false} SecondReleaseIsIdle(labels: seq<Label>, between: seq<Label>, c: nat)
    requires HasReleased(Run(labels), c)
    ensures HasReleased(Run(labels + between), c) && Apply(Run(labels + between), Release(c)) == Run(labels + between)
  {
    if between == [] {
      assert labels + between == labels;
    } else {
      var n := |between| - 1;
      SecondReleaseIsIdle(labels, between[..n], c);
      assert labels + between == labels + between[..n] + [between[n]];
      RunSnoc(labels + between[..n], between[n]);
      ReleasedStays(Run(labels + between[..n]), between[n], c);
    }
  }

  predicate HasReleased(p: Pool, c: nat) {
    c < |p.conns| && p.conns[c].released
  }

  lemma ReleasedStays(p: Pool, l: Label, c: nat)
    requires HasReleased(p, c)
    ensures HasReleased(Apply(p, l), c)
  {
  }

  /** A table entry disappears only by the shutdown of the very connection it points
      to; every other step keeps it or replaces it by a newer connection. */
  lemma EntryRemovedOnlyByOwner(labels: seq<Label>, l: Label, worker: string)
    requires worker in Run(labels).table && worker !in Apply(Run(labels), l).table
    ensures l == Shutdown(Run(labels).table[worker])
  {
  }

  lemma {:induction false} CountIsSetSize(s: seq<Conn>, p: Conn -> bool)
    ensures Count(s, p) == |set i | 0 <= i < |s| && p(s[i])|
  {
    if s != [] {
      var n := |s| - 1;
      CountIsSetSize(s[..n], p);
      var before := set i | 0 <= i < n && p(s[..n][i]);
      assert (set i | 0 <= i < |s| && p(s[i])) == before + (if p(s[n]) then {n} else {});
    }
  }

  lemma {:induction false} ImageSize(m: map<string, nat>, keys: set<string>)
    requires keys <= m.Keys
    requires forall j, k | j in keys && k in keys && m[j] == m[k] :: j == k
    ensures |set k | k in keys :: m[k] as int| == |keys|
    decreases keys
  {
    if keys != {} {
      var k :| k in keys;
      ImageSize(m, keys - {k});
      assert (set j | j in keys :: m[j] as int) == (set j | j in keys - {k} :: m[j] as int) + {m[k] as int};
    }
  }

  /** Connections that hold a slot. */
  ghost function Unreleased(p: Pool): set<int> {
    set c | 0 <= c < |p.conns| && !p.conns[c].released
  }

  predicate Registered(p: Pool, c: int)
    requires 0 <= c < |p.conns|
  {
    p.conns[c].worker in p.table && p.table[p.conns[c].worker] == c
  }

  /** Connections that hold a slot but are not their worker's table entry: not yet
      published, replaced, or shut down and about to release. */
  ghost function Outside(p: Pool): set<int> {
    set c | c in Unreleased(p) && !Registered(p, c)
  }

  /** Workers whose registered connection has lost its slot to a superseder. */
  ghost function Robbed(p: Pool): set<string> {
    set w | w in p.table && p.table[w] < |p.conns| && p.conns[p.table[w]].released
  }

  lemma HoldersAreRegistered(p: Pool)
    requires TableExact(p)
    ensures |p.table| == |Robbed(p)| + |Unreleased(p) - Outside(p)|
  {
    var holding := p.table.Keys - Robbed(p);
    ImageSize(p.table, holding);
    var image := set w | w in holding :: p.table[w] as int;
    forall c
      ensures c in image <==> c in Unreleased(p) - Outside(p)
    {
      if c in Unreleased(p) - Outside(p) {
        assert p.conns[c].worker in holding;
      }
    }
    assert image == Unreleased(p) - Outside(p);
    assert p.table.Keys == holding + Robbed(p);
  }

  /** The size of the connection table, in every run: registered connections and slot
      holders outside the table are slot holders and registered connections without one. */
  lemma TableLaw(labels: seq<Label>)
    ensures var p := Run(labels); |p.table| + |Outside(p)| == |Unreleased(p)| + |Robbed(p)|
  {
    var p := Run(labels);
    RunsKeepInv(labels);
    HoldersAreRegistered(p);
    assert Unreleased(p) == (Unreleased(p) - Outside(p)) + Outside(p);
  }

  lemma HoldersAreUsed(p: Pool)
    requires SlotsExact(p) && |p.sems| == 1
    ensures |Unreleased(p)| == p.sems[0].used
  {
    CountIsSetSize(p.conns, Holds(0));
    var slots := set i | 0 <= i < |p.conns| && Holds(0)(p.conns[i]);
    assert slots == Unreleased(p);
  }

  /** Under one cap the registered connections are within it exactly when those that lost
      their slot are no more than the free slots and the slot holders outside the table. */
  lemma RegisteredWithinCap(labels: seq<Label>)
    requires |Run(labels).sems| == 1
    ensures var p := Run(labels);
      |p.table| <= p.sems[0].cap <==> |Robbed(p)| <= p.sems[0].cap - p.sems[0].used + |Outside(p)|
  {
    TableLaw(labels);
    RunsKeepInv(labels);
    HoldersAreUsed(Run(labels));
  }

  /** The cap does not bound the registered connections themselves: with a cap of
      one, a superseder that loses the race for the freed slot leaves two. */
  lemma SupersedeCanOvershoot()
    ensures Run(Overshoot()) == OvershootAt(6)
    ensures OvershootAt(6).sems == [Semaphore(1, 1)] && |OvershootAt(6).table| == 2
    ensures Apply(OvershootAt(6), Acquire("a", 0)) == OvershootAt(6)
  {
    var l := Overshoot();
    assert l[..0] == [];
    for n := 0 to 6
      invariant Run(l[..n]) == OvershootAt(n)
    {
      OvershootStep(n);
      RunPrefix(l, n, OvershootAt(n + 1));
    }
    assert l[..6] == l;
  }

  function Overshoot(): seq<Label> {
    [SetMaxConnections(1), Acquire("a", 0), Publish(0), Supersede("a"), Acquire("b", 0), Publish(1)]
  }

  function OvershootAt(n: nat): Pool {
    var free, busy := [Semaphore(1, 0)], [Semaphore(1, 1)];
    var a := Conn("a", 0, Published, true, 1);
    match n
    case 0 => EmptyPool
    case 1 => Pool(free, [], map[])
    case 2 => Pool(busy, [Conn("a", 0, Acquired, false, 0)], map[])
    case 3 => Pool(busy, [Conn("a", 0, Published, false, 0)], map["a" := 0])
    case 4 => Pool(free, [a], map["a" := 0])
    case 5 => Pool(busy, [a, Conn("b", 0, Acquired, false, 0)], map["a" := 0])
    case _ => Pool(busy, [a, Conn("b", 0, Published, false, 0)], map["a" := 0, "b" := 1])
  }

  lemma OvershootStep(n: nat)
    requires n < 6
    ensures Apply(OvershootAt(n), Overshoot()[n]) == OvershootAt(n + 1)
  {
    var p, q := Apply(OvershootAt(n), Overshoot()[n]), OvershootAt(n + 1);
    assert p.sems == q.sems;
    assert p.conns == q.conns;
    assert p.table == q.table;
  }

  lemma RunPrefix(labels: seq<Label>, n: nat, next: Pool)
    requires n < |labels| && Apply(Run(labels[..n]), labels[n]) == next
    ensures Run(labels[..n + 1]) == next
  {
    assert labels[..n + 1][..n] == labels[..n];
  }

  /** Acquire, then publish what was acquired. */
  function Entered(p: Pool, worker: string, sem: nat): Pool {
    Apply(Apply(p, Acquire(worker, sem)), Publish(|p.conns|))
  }

  /** Supersede, find the semaphore, acquire, publish: handleConn run alone. */
  function Handled(p: Pool, worker: string): Pool {
    var freed := Freed(p, worker);
    Entered(freed, worker, |freed.sems| - 1)
  }

  /** The pool when the incumbent's slot is free and there is a semaphore. */
  function Freed(p: Pool, worker: string): (freed: Pool)
    ensures freed.sems != []
  {
    Apply(Apply(p, Supersede(worker)), EnsureSemaphore)
  }

  /** With room the new connection is published, otherwise nothing happens. */
  lemma EnteredOutcome(p: Pool, worker: string, sem: nat)
    requires Inv(p) && sem < |p.sems|
    ensures p.sems[sem].used >= p.sems[sem].cap ==>
      Entered(p, worker, sem) == p && (worker in p.table ==> p.table[worker] < |p.conns|)
    ensures p.sems[sem].used < p.sems[sem].cap ==>
      Entered(p, worker, sem).table == p.table[worker := |p.conns|] && |Entered(p, worker, sem).conns| == |p.conns| + 1
  {
  }

  lemma FreedIsSound(p: Pool, worker: string)
    requires Inv(p)
    ensures Inv(Freed(p, worker)) && |Freed(p, worker).conns| == |p.conns|
  {
    StepKeepsInv(p, Supersede(worker));
    StepKeepsInv(Apply(p, Supersede(worker)), EnsureSemaphore);
  }

  /** Undisturbed, handleConn frees the incumbent's slot, then publishes the connection if
      there is room. */
  lemma HandledOutcome(p: Pool, worker: string)
    requires Inv(p)
    ensures var freed := Freed(p, worker); var sem := freed.sems[|freed.sems| - 1];
      && |freed.conns| == |p.conns|
      && Handled(p, worker).table == if sem.used < sem.cap then freed.table[worker := |p.conns|] else freed.table
  {
    FreedIsSound(p, worker);
    EnteredOutcome(Freed(p, worker), worker, |Freed(p, worker).sems| - 1);
  }

  /** A one-for-one replacement never deadlocks at capacity: whatever the occupancy,
      a worker whose incumbent still holds a slot of the only semaphore gets in. */
  lemma ReplacementSucceeds(p: Pool, worker: string)
    requires Inv(p) && |p.sems| == 1 && worker in p.table && !p.conns[p.table[worker]].released
    ensures Handled(p, worker).table == p.table[worker := |p.conns|]
    ensures Handled(p, worker).sems == p.sems
  {
    ChannelNotEmpty(p, p.table[worker]);
    var freed := Apply(p, Supersede(worker));
    assert freed.sems == [p.sems[0].(used := p.sems[0].used - 1)];
  }

  // What the sections do, spelled out.

  /** A slot is got exactly when the semaphore is not full; the new connection holds it. */
  lemma AcquireMeans(p: Pool, worker: string, k: nat)
    requires k < |p.sems|
    ensures var q := Apply(p, Acquire(worker, k));
      if p.sems[k].used < p.sems[k].cap
      then q.conns == p.conns + [Conn(worker, k, Acquired, false, 0)] && q.sems == p.sems[k := Semaphore(p.sems[k].cap, p.sems[k].used + 1)]
        && q.table == p.table
      else q == p
  {
  }

  /** A first release gives the slot back to the semaphore it came from. */
  lemma ReleaseMeans(p: Pool, c: nat)
    requires Inv(p) && c < |p.conns| && !p.conns[c].released
    ensures var q, k := Apply(p, Release(c)), p.conns[c].slot;
      && k < |p.sems| && p.sems[k].used > 0 && q.sems == p.sems[k := Semaphore(p.sems[k].cap, p.sems[k].used - 1)]
      && |q.conns| == |p.conns| && q.conns[c].released && q.table == p.table
  {
    ChannelNotEmpty(p, c);
  }

  /** The shutdown of a registered connection takes its worker out of the table; that of one
      that has been replaced leaves the table alone. */
  lemma ShutdownMeans(p: Pool, c: nat)
    requires TableExact(p) && c < |p.conns| && p.conns[c].stage == Published
    ensures var q, w := Apply(p, Shutdown(c)), p.conns[c].worker;
      && q.conns[c].stage == Shut && q.sems == p.sems
      && q.table == if w in p.table && p.table[w] == c then p.table - {w} else p.table
  {
  }

  /** The cap set last is that of the newest semaphore, 256 if it was not positive or none was
      ever set. */
  lemma CapMeans(p: Pool, n: int)
    ensures var q := Apply(p, SetMaxConnections(n));
      q.sems != [] && q.sems[|q.sems| - 1] == Semaphore(if n > 0 then n else 256, 0) && q.sems[..|q.sems| - 1] == p.sems
    ensures p.sems == [] ==> Apply(p, EnsureSemaphore).sems == [Semaphore(256, 0)]
    ensures p.sems != [] ==> Apply(p, EnsureSemaphore) == p
  {
  }

  /** The pool with one more published connection of a new worker. */
  function Connected(p: Pool, worker: string): Pool
    requires p.sems != []
  {
    var k := |p.sems| - 1;
    Pool(p.sems[k := Semaphore(p.sems[k].cap, p.sems[k].used + 1)],
         p.conns + [Conn(worker, k, Published, false, 0)], p.table[worker := |p.conns|])
  }

  lemma ConnectedIs(p: Pool, worker: string)
    requires worker !in p.table && p.sems != [] && p.sems[|p.sems| - 1].used < p.sems[|p.sems| - 1].cap
    ensures Handled(p, worker) == Connected(p, worker)
  {
    var k := |p.sems| - 1;
    assert Freed(p, worker) == p;
    AcquireMeans(p, worker, k);
    var held := Apply(p, Acquire(worker, k));
    assert held.conns[|p.conns|] == Conn(worker, k, Acquired, false, 0);
    assert held.conns[|p.conns| := Conn(worker, k, Published, false, 0)] == p.conns + [Conn(worker, k, Published, false, 0)];
  }

  lemma DisconnectedIs(p: Pool, c: nat)
    requires c < |p.conns| && p.conns[c].stage == Published && !p.conns[c].released
    requires p.conns[c].slot < |p.sems| && p.sems[p.conns[c].slot].used > 0
    requires p.conns[c].worker in p.table && p.table[p.conns[c].worker] == c
    ensures var k := p.conns[c].slot; var down := Apply(Apply(p, Shutdown(c)), Release(c));
      && down.table == p.table - {p.conns[c].worker} && down.sems == p.sems[k := Semaphore(p.sems[k].cap, p.sems[k].used - 1)]
  {
  }

  /** A whole life, undisturbed, of a connection of a new worker, given room: in the table
      with one slot in between, and afterwards everything is as it was. */
  lemma LifeLeavesNoTrace(p: Pool, worker: string)
    requires Inv(p) && worker !in p.table && p.sems != []
    requires p.sems[|p.sems| - 1].used < p.sems[|p.sems| - 1].cap
    ensures var c := |p.conns|; var up := Handled(p, worker);
      var down := Apply(Apply(up, Shutdown(c)), Release(c));
      && up.table == p.table[worker := c] && up.sems[|p.sems| - 1].used == p.sems[|p.sems| - 1].used + 1
      && down.table == p.table && down.sems == p.sems
  {
    var c := |p.conns|;
    var up := Connected(p, worker);
    ConnectedIs(p, worker);
    assert up.conns[c] == Conn(worker, |p.sems| - 1, Published, false, 0);
    DisconnectedIs(up, c);
    assert p.table[worker := c] - {worker} == p.table;
  }

  /** The hub's fields; one method per critical section. */
  class ConnHub {
    var connSem: seq<Semaphore>
    var connections: seq<Conn>
    var conns: map<string, nat>

    ghost function View(): Pool
      reads this
    {
      Pool(connSem, connections, conns)
    }

    ghost predicate Valid()
      reads this
    {
      Inv(View())
    }

    constructor ()
      ensures Valid() && View() == EmptyPool
    {
      connSem, connections, conns := [], [], map[];
    }

    method ConnSemFor() returns (sem: nat)
      requires Valid()
      modifies this
      ensures Valid() && View() == Apply(old(View()), EnsureSemaphore)
      ensures sem == |connSem| - 1
    {
      StepKeepsInv(View(), EnsureSemaphore);
      if connSem == [] {
        connSem := [Semaphore(DEFAULT_MAX_CONNECTIONS, 0)];
      }
      sem := |connSem| - 1;
    }

    /** Non-blocking send into the channel, then the connection record itself. */
    method AcquireConn(worker: string, sem: nat) returns (ok: bool)
      requires Valid() && sem < |connSem|
      modifies this
      ensures Valid() && View() == Apply(old(View()), Acquire(worker, sem))
      ensures ok == (old(connSem[sem].used < connSem[sem].cap))
    {
      StepKeepsInv(View(), Acquire(worker, sem));
      if connSem[sem].used < connSem[sem].cap {
        connSem := connSem[sem := connSem[sem].(used := connSem[sem].used + 1)];
        connections := connections + [Conn(worker, sem, Acquired, false, 0)];
        return true;
      }
      return false;
    }

    method ReleaseSlot(c: nat)
      requires Valid() && c < |connections|
      modifies this
      ensures Valid() && View() == Apply(old(View()), Release(c))
    {
      StepKeepsInv(View(), Release(c));
      var conn := connections[c];
      if !conn.released {
        if connSem[conn.slot].used > 0 {
          connSem := connSem[conn.slot := connSem[conn.slot].(used := connSem[conn.slot].used - 1)];
          conn := conn.(returned := conn.returned + 1);
        }
        connections := connections[c := conn.(released := true)];
      }
    }

    /** Free the slot of the worker's present connection, if it has one. */
    method SupersedeIncumbent(worker: string)
      requires Valid()
      modifies this
      ensures Valid() && View() == Apply(old(View()), Supersede(worker))
    {
      StepKeepsInv(View(), Supersede(worker));
      if worker in conns {
        ReleaseSlot(conns[worker]);
      }
    }

    method PublishConn(c: nat)
      requires Valid() && c < |connections| && connections[c].stage == Acquired
      modifies this
      ensures Valid() && View() == Apply(old(View()), Publish(c))
      ensures conns == old(conns)[old(connections)[c].worker := c]
    {
      StepKeepsInv(View(), Publish(c));
      conns := conns[connections[c].worker := c];
      connections := connections[c := connections[c].(stage := Published)];
    }

    /** Acquire a slot and, if there is one, publish the connection that holds it. */
    method Enter(worker: string, sem: nat) returns (accepted: bool)
      requires Valid() && sem < |connSem|
      modifies this
      ensures Valid() && View() == Entered(old(View()), worker, sem)
      ensures accepted <==> worker in conns && conns[worker] == |old(connections)|
    {
      EnteredOutcome(View(), worker, sem);
      var c := |connections|;
      accepted := AcquireConn(worker, sem);
      if accepted {
        PublishConn(c);
      }
    }

    /** handleConn up to the start of the reader loop, with nobody in between. */
    method HandleConn(worker: string) returns (accepted: bool)
      requires Valid()
      modifies this
      ensures Valid() && View() == Handled(old(View()), worker)
      ensures accepted <==> worker in conns && conns[worker] == |old(connections)|
    {
      FreedIsSound(View(), worker);
      SupersedeIncumbent(worker);
      var sem := ConnSemFor();
      accepted := Enter(worker, sem);
    }

    method ShutdownConn(c: nat)
      requires Valid() && c < |connections|
      modifies this
      ensures Valid() && View() == Apply(old(View()), Shutdown(c))
      ensures forall w | w in old(conns) && old(conns)[w] != c :: w in conns && conns[w] == old(conns)[w]
    {
      StepKeepsInv(View(), Shutdown(c));
      if connections[c].stage != Published {
        return;
      }
      var w := connections[c].worker;
      connections := connections[c := connections[c].(stage := Shut)];
      if w in conns && conns[w] == c {
        conns := conns - {w};
      }
    }
  }
}
