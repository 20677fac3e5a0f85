/** Call correlation and in-flight accounting for calls sent through the relay.

    Every critical section of the hub is one `Label`; a run is any sequence of
    labels, so `RunsConserve` and its corollaries speak about every interleaving
    of registrations, completions, failures, cleanups and cap changes. `finish`
    runs two critical sections, kept apart here as `Remove` and `Decrement`. */
module RelayAccounting {
  import opened Counting

  /** How far one pendingCall has got. `Closing` means its closeOnce was entered. */
  datatype Phase = Registered | Closing | Removed | Finished

  datatype Call = Call(msgId: string, worker: string, phase: Phase) {
    /** finish never decrements a call whose worker ID is empty. */
    predicate Counted() {
      phase != Finished || worker == ""
    }

    predicate InTable() {
      phase == Registered || phase == Closing
    }
  }

  /** The hub; `calls` are the pendingCall objects ever registered, and a
      position in it is that object's identity. */
  datatype Hub = Hub(
    calls: seq<Call>,
    pending: map<string, nat>,
    inFlight: map<string, int>,
    rejected: map<string, int>,
    timedOut: map<string, int>,
    workerCap: map<string, int>,
    defaultCap: int)

  datatype Label =
    | Register(msgId: string, worker: string)
    | Close(call: nat)
    | Remove(call: nat)
    | Decrement(call: nat)
    | TimeOut(worker: string)
    | Cleanup
    | SetWorkerCap(worker: string, cap: int)
    | SetDefaultCap(cap: int)

  datatype Admission = Admitted(call: nat) | RateLimited | Duplicate

  const DEFAULT_MAX_IN_FLIGHT := 4

  function Lookup(m: map<string, int>, key: string): int {
    if key in m then m[key] else 0
  }

  function CapFor(h: Hub, worker: string): (cap: int)
    ensures cap > 0
  {
    if worker in h.workerCap && h.workerCap[worker] > 0 then h.workerCap[worker]
    else if h.defaultCap <= 0 then DEFAULT_MAX_IN_FLIGHT
    else h.defaultCap
  }

  function NonZero(m: map<string, int>): map<string, int> {
    map k | k in m && m[k] != 0 :: m[k]
  }

  function Admit(h: Hub, msgId: string, worker: string): Admission {
    if Lookup(h.inFlight, worker) >= CapFor(h, worker) then RateLimited
    else if msgId in h.pending then Duplicate
    else Admitted(|h.calls|)
  }

  function Decremented(m: map<string, int>, worker: string): map<string, int> {
    var n := Lookup(m, worker);
    if n <= 0 then m
    else if n == 1 then m - {worker}
    else m[worker := n - 1]
  }

  predicate At(h: Hub, call: nat, phase: Phase) {
    call < |h.calls| && h.calls[call].phase == phase
  }

  function SetPhase(calls: seq<Call>, call: nat, phase: Phase): seq<Call>
    requires call < |calls|
  {
    calls[call := calls[call].(phase := phase)]
  }

  /** One atomic step; a label whose call is not in the right phase does nothing. */
  function Apply(h: Hub, l: Label): Hub {
    match l
    case Register(msgId, worker) =>
      (match Admit(h, msgId, worker)
       case RateLimited => h.(rejected := h.rejected[worker := Lookup(h.rejected, worker) + 1])
       case Duplicate => h
       case Admitted(call) => h.(
         calls := h.calls + [Call(msgId, worker, Registered)],
         pending := h.pending[msgId := call],
         inFlight := h.inFlight[worker := Lookup(h.inFlight, worker) + 1]))
    case Close(call) =>
      if At(h, call, Registered) then h.(calls := SetPhase(h.calls, call, Closing)) else h
    case Remove(call) =>
      if At(h, call, Closing) then
        var id := h.calls[call].msgId;
        h.(calls := SetPhase(h.calls, call, Removed),
           pending := if id in h.pending && h.pending[id] == call then h.pending - {id} else h.pending)
      else h
    case Decrement(call) =>
      if At(h, call, Removed) then
        var w := h.calls[call].worker;
        h.(calls := SetPhase(h.calls, call, Finished),
           inFlight := if w == "" then h.inFlight else Decremented(h.inFlight, w))
      else h
    case TimeOut(w) => h.(timedOut := h.timedOut[w := Lookup(h.timedOut, w) + 1])
    case Cleanup =>
      h.(inFlight := NonZero(h.inFlight), rejected := NonZero(h.rejected), timedOut := NonZero(h.timedOut))
    case SetWorkerCap(w, cap) =>
      h.(workerCap := if cap <= 0 then h.workerCap - {w} else h.workerCap[w := cap])
    case SetDefaultCap(cap) => h.(defaultCap := if cap <= 0 then DEFAULT_MAX_IN_FLIGHT else cap)
  }

  const EmptyHub := Hub([], map[], map[], map[], map[], map[], DEFAULT_MAX_IN_FLIGHT)

  function Run(labels: seq<Label>): Hub {
    if labels == [] then EmptyHub
    else Apply(Run(labels[..|labels| - 1]), labels[|labels| - 1])
  }

  function CountedFor(workers: set<string>): Call -> bool {
    (c: Call) => c.worker in workers && c.Counted()
  }

  /** How many counted calls belong to one of `workers`. */
  function Load(calls: seq<Call>, workers: set<string>): nat {
    Count(calls, CountedFor(workers))
  }

  /** Each counter is the worker's load, and there are no zero entries. */
  ghost predicate CountersExact(h: Hub) {
    && (forall w :: Lookup(h.inFlight, w) == Load(h.calls, {w}))
    && (forall w | w in h.inFlight :: h.inFlight[w] > 0)
    && (forall w | w in h.rejected :: h.rejected[w] > 0)
    && (forall w | w in h.timedOut :: h.timedOut[w] > 0)
  }

  /** The pending table and the calls not yet removed are inverse to each other. */
  ghost predicate TableExact(h: Hub) {
    && (forall id | id in h.pending ::
          h.pending[id] < |h.calls| && h.calls[h.pending[id]].msgId == id && h.calls[h.pending[id]].InTable())
    && (forall c: nat | c < |h.calls| && h.calls[c].InTable() ::
          h.calls[c].msgId in h.pending && h.pending[h.calls[c].msgId] == c)
  }

  ghost predicate Inv(h: Hub) {
    CountersExact(h) && TableExact(h)
  }

  /** A call that still has to decrement is counted: the `<= 0` guard of the
      decrement can never be the branch taken. */
  lemma GuardNeverFires(h: Hub, call: nat)
    requires Inv(h) && At(h, call, Removed) && h.calls[call].worker != ""
    ensures Lookup(h.inFlight, h.calls[call].worker) > 0
  {
    CountPositive(h.calls, call, CountedFor({h.calls[call].worker}));
  }

  lemma PhaseStep(h: Hub, call: nat, phase: Phase)
    requires call < |h.calls|
    ensures forall w :: (
      Load(SetPhase(h.calls, call, phase), {w}) == Load(h.calls, {w})
        + (if h.calls[call].worker == w && h.calls[call].(phase := phase).Counted() then 1 else 0)
        - (if h.calls[call].worker == w && h.calls[call].Counted() then 1 else 0))
  {
    forall w {
      CountUpdate(h.calls, call, h.calls[call].(phase := phase), CountedFor({w}));
    }
  }

  lemma AdmissionCounts(inFlight: map<string, int>, calls: seq<Call>, c: Call, w: string)
    requires Lookup(inFlight, w) == Load(calls, {w}) && c.Counted()
    ensures Lookup(inFlight[c.worker := Lookup(inFlight, c.worker) + 1], w) == Load(calls + [c], {w})
  {
    CountAppend(calls, c, CountedFor({w}));
  }

  lemma RegisterKeepsCounters(h: Hub, msgId: string, worker: string)
    requires CountersExact(h)
    ensures CountersExact(Apply(h, Register(msgId, worker)))
  {
    if Admit(h, msgId, worker).Admitted? {
      forall w {
        AdmissionCounts(h.inFlight, h.calls, Call(msgId, worker, Registered), w);
      }
      assert Lookup(h.inFlight, worker) == Load(h.calls, {worker});
    }
  }

  lemma DecrementKeepsCounters(h: Hub, call: nat)
    requires Inv(h)
    ensures CountersExact(Apply(h, Decrement(call)))
  {
    if At(h, call, Removed) {
      PhaseStep(h, call, Finished);
      if h.calls[call].worker != "" {
        GuardNeverFires(h, call);
      }
    }
  }

  lemma RegisterKeepsTable(h: Hub, msgId: string, worker: string)
    requires TableExact(h)
    ensures TableExact(Apply(h, Register(msgId, worker)))
  {
  }

  lemma RemoveKeepsTable(h: Hub, call: nat)
    requires TableExact(h)
    ensures TableExact(Apply(h, Remove(call)))
  {
  }

  lemma StepKeepsTable(h: Hub, l: Label)
    requires TableExact(h)
    ensures TableExact(Apply(h, l))
  {
    if l.Register? {
      RegisterKeepsTable(h, l.msgId, l.worker);
    } else if l.Remove? {
      RemoveKeepsTable(h, l.call);
    }
  }

  /** Every critical section keeps the accounting invariant. */
  lemma StepKeepsInv(h: Hub, l: Label)
    requires Inv(h)
    ensures Inv(Apply(h, l))
  {
    StepKeepsTable(h, l);
    match l
    case Register(msgId, worker) => RegisterKeepsCounters(h, msgId, worker);
    case Close(call) =>
      if At(h, call, Registered) {
        PhaseStep(h, call, Closing);
      }
    case Remove(call) =>
      if At(h, call, Closing) {
        PhaseStep(h, call, Removed);
      }
    case Decrement(call) => DecrementKeepsCounters(h, call);
    case _ =>
  }

  /** In every interleaving the counter of each worker equals the number of its
      registered calls that are not yet decremented, no zero entry exists, and the
      pending table holds exactly the calls that have not removed themselves. */
  lemma {:induction false} RunsConserve(labels: seq<Label>)
    ensures Inv(Run(labels))
  {
    if labels != [] {
      RunsConserve(labels[..|labels| - 1]);
      StepKeepsInv(Run(labels[..|labels| - 1]), labels[|labels| - 1]);
    }
  }

  /** The ownership guard of `finish` (`cur == pc`) always holds: nobody else can
      have taken the call's ID while the call was in the table. */
  lemma RemoveOwnsItsEntry(labels: seq<Label>, call: nat)
    requires At(Run(labels), call, Closing)
    ensures var h := Run(labels);
      h.calls[call].msgId in h.pending && h.pending[h.calls[call].msgId] == call
  {
    RunsConserve(labels);
  }

  /** Cleanup finds nothing to delete, in any reachable state. */
  lemma CleanupIsIdle(labels: seq<Label>)
    ensures Apply(Run(labels), Cleanup) == Run(labels)
  {
    RunsConserve(labels);
    var h := Run(labels);
    assert NonZero(h.inFlight) == h.inFlight;
    assert NonZero(h.rejected) == h.rejected;
    assert NonZero(h.timedOut) == h.timedOut;
  }

  lemma NoneCounted(h: Hub, worker: string)
    requires CountersExact(h) && forall i | 0 <= i < |h.calls| :: !CountedFor({worker})(h.calls[i])
    ensures worker !in h.inFlight
  {
    CountNone(h.calls, CountedFor({worker}));
    assert Lookup(h.inFlight, worker) == Load(h.calls, {worker});
  }

  /** A step raises a worker's load only by an admission, and then the new load is
      within the cap in force at that very step. */
  lemma LoadRisesUnderCap(h: Hub, l: Label, worker: string)
    requires Inv(h)
    ensures var h' := Apply(h, l);
      Load(h'.calls, {worker}) <= Load(h.calls, {worker}) || Load(h'.calls, {worker}) <= CapFor(h', worker)
  {
    match l
    case Register(msgId, w) =>
      CountAppend(h.calls, Call(msgId, w, Registered), CountedFor({worker}));
    case Close(call) =>
      if At(h, call, Registered) {
        PhaseStep(h, call, Closing);
      }
    case Remove(call) =>
      if At(h, call, Closing) {
        PhaseStep(h, call, Removed);
      }
    case Decrement(call) =>
      if At(h, call, Removed) {
        PhaseStep(h, call, Finished);
      }
    case _ =>
  }

  /** No worker ever carries more calls than some cap that was in force for it
      during the run; with constant caps that is simply the cap. */
  lemma {:induction false} LoadWithinSomeCap(labels: seq<Label>, worker: string)
    ensures exists k: nat :: k <= |labels| && Load(Run(labels).calls, {worker}) <= CapFor(Run(labels[..k]), worker)
  {
    if labels == [] {
      assert labels[..0] == labels;
    } else {
      var n := |labels| - 1;
      var before := labels[..n];
      RunsConserve(before);
      LoadRisesUnderCap(Run(before), labels[n], worker);
      if Load(Run(labels).calls, {worker}) <= CapFor(Run(labels), worker) {
        assert labels[..n + 1] == labels;
      } else {
        LoadWithinSomeCap(before, worker);
        var k: nat :| k <= |before| && Load(Run(before).calls, {worker}) <= CapFor(Run(before[..k]), worker);
        assert labels[..k] == before[..k];
      }
    }
  }

  // Admission, told from the history of labels.

  /** The cap last set for a worker, 0 if none ever was. */
  function WorkerCapSet(labels: seq<Label>, worker: string): int {
    if labels == [] then 0
    else
      var l := labels[|labels| - 1];
      if l.SetWorkerCap? && l.worker == worker then l.cap else WorkerCapSet(labels[..|labels| - 1], worker)
  }

  /** The default cap last set, 0 if none ever was. */
  function DefaultCapSet(labels: seq<Label>): int {
    if labels == [] then 0
    else
      var l := labels[|labels| - 1];
      if l.SetDefaultCap? then l.cap else DefaultCapSet(labels[..|labels| - 1])
  }

  /** The worker's own cap if it was last set to a positive value, else the default last
      set if that is positive, else 4. */
  function CapInForce(labels: seq<Label>, worker: string): int {
    if WorkerCapSet(labels, worker) > 0 then WorkerCapSet(labels, worker)
    else if DefaultCapSet(labels) > 0 then DefaultCapSet(labels)
    else 4
  }

  lemma {:induction false} CapsFromHistory(labels: seq<Label>, worker: string)
    ensures var h, own, common := Run(labels), WorkerCapSet(labels, worker), DefaultCapSet(labels);
      && (worker in h.workerCap <==> own > 0) && (own > 0 ==> h.workerCap[worker] == own)
      && h.defaultCap == if common > 0 then common else 4
  {
    if labels != [] {
      CapsFromHistory(labels[..|labels| - 1], worker);
      CapStep(Run(labels[..|labels| - 1]), labels[|labels| - 1], worker);
    }
  }

  predicate SameEntry(a: map<string, int>, b: map<string, int>, key: string) {
    (key in a <==> key in b) && (key in a ==> a[key] == b[key])
  }

  /** Only the two cap labels touch the caps. */
  lemma CapStep(h: Hub, l: Label, worker: string)
    ensures var h' := Apply(h, l);
      && h'.defaultCap == (if !l.SetDefaultCap? then h.defaultCap else if l.cap > 0 then l.cap else 4)
      && (if l.SetWorkerCap? && l.worker == worker
          then if l.cap > 0 then worker in h'.workerCap && h'.workerCap[worker] == l.cap else worker !in h'.workerCap
          else SameEntry(h.workerCap, h'.workerCap, worker))
  {
  }

  /** In every run a registration is rate limited exactly when the worker's calls that have
      not been decremented reach the cap in force; else it is a duplicate exactly when a
      call that has not been removed has its ID; else it is admitted and registered. */
  lemma AdmissionLaw(labels: seq<Label>, msgId: string, worker: string)
    ensures var h := Run(labels);
      var full := Load(h.calls, {worker}) >= CapInForce(labels, worker);
      var taken := exists c :: c in h.calls && c.msgId == msgId && c.phase in {Registered, Closing};
      && (Admit(h, msgId, worker).RateLimited? <==> full)
      && (Admit(h, msgId, worker).Duplicate? <==> !full && taken)
      && (!full && !taken ==> Admit(h, msgId, worker) == Admitted(|h.calls|))
      && (!full && !taken ==> Apply(h, Register(msgId, worker)).calls == h.calls + [Call(msgId, worker, Registered)])
  {
    var h := Run(labels);
    RunsConserve(labels);
    CapsFromHistory(labels, worker);
    assert Lookup(h.inFlight, worker) == Load(h.calls, {worker});
    if msgId in h.pending {
      assert h.calls[h.pending[msgId]] in h.calls;
    }
    if c :| c in h.calls && c.msgId == msgId && c.phase in {Registered, Closing} {
      var i: nat :| i < |h.calls| && h.calls[i] == c;
      assert h.calls[i].InTable();
    }
  }

  /** The rate-limited registrations of a run, for one worker. */
  ghost function Rejections(labels: seq<Label>, worker: string): nat {
    if labels == [] then 0
    else
      var n := |labels| - 1;
      var l := labels[n];
      Rejections(labels[..n], worker)
        + if l.Register? && l.worker == worker && Load(Run(labels[..n]).calls, {worker}) >= CapInForce(labels[..n], worker)
          then 1 else 0
  }

  /** The 429 counter counts them, cleanups notwithstanding. */
  lemma {:induction false} RejectionsAreCounted(labels: seq<Label>, worker: string)
    ensures Lookup(Run(labels).rejected, worker) == Rejections(labels, worker)
  {
    if labels != [] {
      var n := |labels| - 1;
      var h := Run(labels[..n]);
      RejectionsAreCounted(labels[..n], worker);
      if labels[n].Register? {
        AdmissionLaw(labels[..n], labels[n].msgId, labels[n].worker);
        RegisterCounts(h, labels[n].msgId, labels[n].worker, worker);
      } else if labels[n].Cleanup? {
        CleanupIsIdle(labels[..n]);
      } else {
        RejectionsStay(h, labels[n]);
      }
    }
  }

  lemma RegisterCounts(h: Hub, msgId: string, to: string, worker: string)
    ensures Lookup(Apply(h, Register(msgId, to)).rejected, worker)
      == Lookup(h.rejected, worker) + if Admit(h, msgId, to).RateLimited? && to == worker then 1 else 0
  {
  }

  lemma RejectionsStay(h: Hub, l: Label)
    requires !l.Register? && !l.Cleanup?
    ensures Apply(h, l).rejected == h.rejected
  {
  }

  /** Once every call has finished the pending table is empty, and the counters
      are empty exactly when no call was ever registered for the empty worker ID. */
  lemma DrainedHub(labels: seq<Label>)
    requires forall c | c in Run(labels).calls :: c.phase == Finished
    ensures Run(labels).pending == map[]
    ensures Run(labels).inFlight.Keys <= {""}
    ensures Run(labels).inFlight == map[] <==> forall c | c in Run(labels).calls :: c.worker != ""
  {
    var h := Run(labels);
    RunsConserve(labels);
    forall w | w in h.inFlight
      ensures w == ""
    {
      if w != "" {
        CountNone(h.calls, CountedFor({w}));
      }
    }
    if forall c | c in h.calls :: c.worker != "" {
      CountNone(h.calls, CountedFor({""}));
    } else {
      var c: nat :| c < |h.calls| && h.calls[c].worker == "";
      CountPositive(h.calls, c, CountedFor({""}));
    }
  }

  /** The leak in the small: a finished call without a worker ID stays counted. */
  lemma EmptyWorkerIdLeaks()
    ensures var h := Run([Register("a", ""), Close(0), Remove(0), Decrement(0)]);
      h.calls == [Call("a", "", Finished)] && h.pending == map[] && h.inFlight == map["" := 1]
  {
    var l := [Register("a", ""), Close(0), Remove(0), Decrement(0)];
    assert l[..3] == [Register("a", ""), Close(0), Remove(0)];
    assert l[..3][..2] == [Register("a", ""), Close(0)];
    assert l[..3][..2][..1] == [Register("a", "")];
    assert l[..3][..2][..1][..0] == [];
    assert Run(l[..3][..2][..1]) == Apply(EmptyHub, Register("a", ""));
  }

  /** What fail-all has made of a call while `todo` are the IDs it has yet to reach. */
  function Failed(c: Call, todo: set<string>): Call {
    if c.phase == Registered && c.msgId !in todo then c.(phase := Finished) else c
  }

  /** The calls of `before` whose IDs are not in `todo` have been failed. */
  ghost predicate FailedBut(before: seq<Call>, calls: seq<Call>, todo: set<string>) {
    |calls| == |before| && forall c: nat | c < |calls| :: calls[c] == Failed(before[c], todo)
  }

  ghost predicate SnapshotOf(calls: seq<Call>, pend: map<string, nat>) {
    && (forall id | id in pend :: pend[id] < |calls| && calls[pend[id]].msgId == id)
    && (forall c: nat | c < |calls| && calls[c].InTable() :: calls[c].msgId in pend && pend[calls[c].msgId] == c)
  }

  lemma SnapshotStarts(h: Hub)
    requires TableExact(h)
    ensures SnapshotOf(h.calls, h.pending) && FailedBut(h.calls, h.calls, h.pending.Keys)
  {
  }

  lemma FailStep(before: seq<Call>, calls: seq<Call>, pend: map<string, nat>, todo: set<string>, id: string)
    requires SnapshotOf(before, pend) && FailedBut(before, calls, todo) && todo <= pend.Keys && id in todo
    ensures FailedBut(before, FinishedAt(calls, pend[id]), todo - {id})
  {
  }

  lemma OnlyClosingLeft(before: seq<Call>, h: Hub)
    requires TableExact(h) && FailedBut(before, h.calls, {})
    ensures forall id | id in h.pending :: h.calls[h.pending[id]].phase == Closing
  {
    forall id | id in h.pending
      ensures h.calls[h.pending[id]].phase == Closing
    {
      var c := h.pending[id];
      assert h.calls[c] == Failed(before[c], {});
    }
  }

  /** A call that is closed, removed and decremented with nothing in between. */
  function Finishing(h: Hub, call: nat): Hub {
    if At(h, call, Registered) then Apply(Apply(Apply(h, Close(call)), Remove(call)), Decrement(call)) else h
  }

  function FinishedAt(calls: seq<Call>, call: nat): seq<Call> {
    if call < |calls| && calls[call].phase == Registered then SetPhase(calls, call, Finished) else calls
  }

  lemma FinishingKeepsInv(h: Hub, call: nat)
    requires Inv(h)
    ensures Inv(Finishing(h, call)) && Finishing(h, call).calls == FinishedAt(h.calls, call)
  {
    StepKeepsInv(h, Close(call));
    StepKeepsInv(Apply(h, Close(call)), Remove(call));
    StepKeepsInv(Apply(Apply(h, Close(call)), Remove(call)), Decrement(call));
    FinishingCalls(h, call);
  }

  lemma FinishingCalls(h: Hub, call: nat)
    ensures Finishing(h, call).calls == FinishedAt(h.calls, call)
  {
    if At(h, call, Registered) {
      var closed := Apply(h, Close(call));
      var removed := Apply(closed, Remove(call));
      assert closed.calls == SetPhase(h.calls, call, Closing);
      PhaseTwice(h.calls, call, Closing, Removed);
      assert removed.calls == SetPhase(h.calls, call, Removed);
      PhaseTwice(h.calls, call, Removed, Finished);
    }
  }

  lemma PhaseTwice(calls: seq<Call>, call: nat, first: Phase, second: Phase)
    requires call < |calls|
    ensures SetPhase(SetPhase(calls, call, first), call, second) == SetPhase(calls, call, second)
  {
  }

  function Itself(): nat -> nat {
    (n: nat) => n
  }

  method DropZeros(m: map<string, int>) returns (kept: map<string, int>)
    ensures kept == NonZero(m)
  {
    kept := m;
    var todo := m.Keys;
    while todo != {}
      invariant todo <= kept.Keys <= m.Keys
      invariant forall k | k in kept :: kept[k] == m[k]
      invariant forall k | k in m && k !in todo :: k in kept <==> m[k] != 0
    {
      var k :| k in todo;
      if kept[k] == 0 {
        kept := kept - {k};
      }
      todo := todo - {k};
    }
  }

  /** The hub's own fields and methods, each method one critical section (or, for
      FailAllRelayPending, a loop of them with no other goroutine in between). */
  class RelayHub {
    var calls: seq<Call>
    var relayPending: map<string, nat>
    var relayInFlight: map<string, int>
    var relayRejected429: map<string, int>
    var relayRejected504: map<string, int>
    var workerMaxInFlight: map<string, int>
    var maxInFlight: int

    ghost function View(): Hub
      reads this
    {
      Hub(calls, relayPending, relayInFlight, relayRejected429, relayRejected504, workerMaxInFlight, maxInFlight)
    }

    ghost predicate Valid()
      reads this
    {
      Inv(View())
    }

    constructor ()
      ensures Valid() && View() == EmptyHub
    {
      calls, relayPending, relayInFlight, relayRejected429, relayRejected504 := [], map[], map[], map[], map[];
      workerMaxInFlight, maxInFlight := map[], DEFAULT_MAX_IN_FLIGHT;
    }

    method MaxInFlightFor(worker: string) returns (cap: int)
      ensures cap == CapFor(View(), worker)
    {
      if worker in workerMaxInFlight && workerMaxInFlight[worker] > 0 {
        return workerMaxInFlight[worker];
      }
      if maxInFlight <= 0 {
        return DEFAULT_MAX_IN_FLIGHT;
      }
      return maxInFlight;
    }

    method SetWorkerMaxInFlight(worker: string, cap: int)
      requires Valid()
      modifies this
      ensures Valid() && View() == Apply(old(View()), SetWorkerCap(worker, cap))
    {
      if cap <= 0 {
        workerMaxInFlight := workerMaxInFlight - {worker};
      } else {
        workerMaxInFlight := workerMaxInFlight[worker := cap];
      }
    }

    method RegisterRelayCall(msgId: string, worker: string) returns (r: Admission)
      requires Valid()
      modifies this
      ensures Valid() && View() == Apply(old(View()), Register(msgId, worker))
      ensures r == Admit(old(View()), msgId, worker)
    {
      ghost var h := View();
      var cap := MaxInFlightFor(worker);
      if Lookup(relayInFlight, worker) >= cap {
        relayRejected429 := relayRejected429[worker := Lookup(relayRejected429, worker) + 1];
        r := RateLimited;
      } else if msgId in relayPending {
        r := Duplicate;
      } else {
        relayInFlight := relayInFlight[worker := Lookup(relayInFlight, worker) + 1];
        relayPending := relayPending[msgId := |calls|];
        r := Admitted(|calls|);
        calls := calls + [Call(msgId, worker, Registered)];
      }
      assert View() == Apply(h, Register(msgId, worker));
      StepKeepsInv(h, Register(msgId, worker));
    }

    method DecrementRelayInFlight(worker: string)
      modifies this`relayInFlight
      ensures relayInFlight == Decremented(old(relayInFlight), worker)
    {
      if Lookup(relayInFlight, worker) <= 0 {
        return;
      }
      relayInFlight := relayInFlight[worker := relayInFlight[worker] - 1];
      if relayInFlight[worker] == 0 {
        relayInFlight := relayInFlight - {worker};
        assert relayInFlight == old(relayInFlight) - {worker};
      }
    }

    /** fail or complete with nobody else at work: closeOnce, then both sections of finish. */
    method Finish(call: nat)
      requires Valid()
      modifies this
      ensures Valid() && View() == Finishing(old(View()), call) && calls == FinishedAt(old(calls), call)
    {
      ghost var h := View();
      if call >= |calls| || calls[call].phase != Registered {
        return;
      }
      var id, worker := calls[call].msgId, calls[call].worker;
      calls := SetPhase(calls, call, Closing);
      assert View() == Apply(h, Close(call));
      if id in relayPending && relayPending[id] == call {
        relayPending := relayPending - {id};
      }
      calls := SetPhase(calls, call, Removed);
      assert View() == Apply(Apply(h, Close(call)), Remove(call));
      if worker != "" {
        DecrementRelayInFlight(worker);
      }
      calls := SetPhase(calls, call, Finished);
      assert View() == Finishing(h, call);
      FinishingKeepsInv(h, call);
    }

    /** Snapshot the table, then fail each call of the snapshot. */
    method FailAllRelayPending()
      requires Valid()
      modifies this
      ensures Valid() && FailedBut(old(calls), calls, {})
      ensures forall id | id in relayPending :: calls[relayPending[id]].phase == Closing
    {
      var pend := relayPending;
      var ids := pend.Keys;
      ghost var before := calls;
      SnapshotStarts(View());
      while ids != {}
        invariant ids <= pend.Keys && Valid() && SnapshotOf(before, pend) && FailedBut(before, calls, ids)
      {
        var id :| id in ids;
        FailStep(before, calls, pend, ids, id);
        Finish(pend[id]);
        ids := ids - {id};
      }
      OnlyClosingLeft(before, View());
    }

    method RecordRelayTimeout(worker: string)
      requires Valid()
      modifies this
      ensures Valid() && View() == Apply(old(View()), TimeOut(worker))
    {
      StepKeepsInv(View(), TimeOut(worker));
      relayRejected504 := relayRejected504[worker := Lookup(relayRejected504, worker) + 1];
    }

    /** cleanupRelayMetrics, which CleanupIsIdle shows has nothing to do. */
    method CleanupRelayMetrics()
      requires Valid()
      modifies this
      ensures Valid() && View() == Apply(old(View()), Cleanup)
    {
      ghost var h := View();
      relayInFlight := DropZeros(relayInFlight);
      relayRejected429 := DropZeros(relayRejected429);
      relayRejected504 := DropZeros(relayRejected504);
      assert View() == Apply(h, Cleanup);
      StepKeepsInv(h, Cleanup);
    }

    /** The pool total of /v1/queue/stats: what the direct connections have in flight, then
        the relay's per-worker counters. */
    method TotalInFlight(direct: seq<nat>) returns (total: int)
      requires Valid()
      ensures total == Sum(direct, Itself()) + Count(calls, (c: Call) => c.Counted())
    {
      var connected := 0;
      for i := 0 to |direct|
        invariant connected == Sum(direct[..i], Itself())
      {
        assert direct[..i + 1] == direct[..i] + [direct[i]];
        SumAppend(direct[..i], direct[i], Itself());
        connected := connected + direct[i];
      }
      assert direct[..|direct|] == direct;
      var relayed := RelayInFlight();
      total := connected + relayed;
    }

    method RelayInFlight() returns (total: int)
      requires Valid()
      ensures total == Count(calls, (c: Call) => c.Counted())
    {
      total := 0;
      var todo, seen := relayInFlight.Keys, {};
      CountNone(calls, CountedFor({}));
      while todo != {}
        invariant todo !! seen && todo + seen == relayInFlight.Keys
        invariant total == Load(calls, seen)
      {
        var w :| w in todo;
        CountSplit(calls, CountedFor(seen), CountedFor({w}), CountedFor(seen + {w}));
        total := total + relayInFlight[w];
        todo, seen := todo - {w}, seen + {w};
      }
      forall i | 0 <= i < |calls|
        ensures CountedFor(seen)(calls[i]) == calls[i].Counted()
      {
        if calls[i].Counted() {
          CountPositive(calls, i, CountedFor({calls[i].worker}));
        }
      }
      CountAgree(calls, CountedFor(seen), (c: Call) => c.Counted());
    }
  }
}
