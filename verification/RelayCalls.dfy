/** Relay calls as a whole: the hub's accounting and the lives of its calls, joined. finish
    removes the entry, decrements, and only then closes the call's channels, so whoever
    sees a channel closed finds the call's slot returned. */
module RelayCalls {
  import A = RelayAccounting
  import S = StreamCalls

  /** The hub and its calls; a position is a call's identity in both. */
  datatype System = System(hub: A.Hub, calls: seq<S.Call>)

  /** `Upkeep` stands for timeouts, cleanup and cap changes. */
  datatype Label =
    | Register(kind: S.Kind, msgId: string, worker: string)
    | Step(call: nat, step: S.Label)
    | Decrement(call: nat)
    | Upkeep(work: A.Label)

  const Empty := System(A.EmptyHub, [])

  /** doneCh is closed after the decrement; nobody swaps the hub's table. */
  predicate Allowed(phase: A.Phase, l: S.Label) {
    !l.ClearTable? && (l.Signal? ==> phase == A.Finished)
  }

  /** The hub's part in a step of one of its calls. */
  function Echo(hub: A.Hub, i: nat, before: S.Stage, after: S.Stage): A.Hub {
    if before == S.Open && after == S.Ending then A.Apply(hub, A.Close(i))
    else if before == S.Ending && after == S.Removed then A.Apply(hub, A.Remove(i))
    else hub
  }

  function Apply(s: System, l: Label): System {
    match l
    case Register(kind, msgId, worker) =>
      System(A.Apply(s.hub, A.Register(msgId, worker)),
             if A.Admit(s.hub, msgId, worker).Admitted? then s.calls + [S.NewCall(kind)] else s.calls)
    case Step(i, step) =>
      if i < |s.calls| && i < |s.hub.calls| && Allowed(s.hub.calls[i].phase, step) then
        var c := S.Apply(s.calls[i], step);
        System(Echo(s.hub, i, s.calls[i].stage, c.stage), s.calls[i := c])
      else s
    case Decrement(i) => s.(hub := A.Apply(s.hub, A.Decrement(i)))
    case Upkeep(u) =>
      if u.TimeOut? || u.Cleanup? || u.SetWorkerCap? || u.SetDefaultCap? then s.(hub := A.Apply(s.hub, u)) else s
  }

  function Run(labels: seq<Label>): System {
    if labels == [] then Empty
    else Apply(Run(labels[..|labels| - 1]), labels[|labels| - 1])
  }

  /** How far the accounting is, against how far the call itself is. */
  predicate LinkedAt(phase: A.Phase, c: S.Call) {
    && (c.stage == S.Open <==> phase == A.Registered)
    && (c.stage == S.Ending <==> phase == A.Closing)
    && (c.stage in {S.Signalled, S.Closed} ==> phase == A.Finished)
    && (c.inTable <==> phase in {A.Registered, A.Closing})
  }

  ghost predicate Linked(s: System) {
    |s.hub.calls| == |s.calls| && forall i: nat | i < |s.calls| :: LinkedAt(s.hub.calls[i].phase, s.calls[i])
  }

  ghost predicate Sound(calls: seq<S.Call>) {
    forall i: nat | i < |calls| :: S.Inv(calls[i])
  }

  ghost predicate Inv(s: System) {
    A.Inv(s.hub) && Linked(s) && Sound(s.calls)
  }

  /** A step of a call moves its stage one place at most, and only `Remove` takes it out
      of the table. */
  lemma StageMoves(c: S.Call, l: S.Label)
    requires !l.ClearTable?
    ensures var d := S.Apply(c, l);
      || (d.stage == c.stage && d.inTable == c.inTable)
      || (c.stage == S.Open && d.stage == S.Ending && d.inTable == c.inTable)
      || (c.stage == S.Ending && d.stage == S.Removed && !d.inTable)
      || (c.stage == S.Removed && d.stage == S.Signalled && l.Signal? && d.inTable == c.inTable)
      || (c.stage == S.Signalled && d.stage == S.Closed && d.inTable == c.inTable)
  {
    if l.Act? && !c.panicked && c.reader.Holding? {
      ActMoves(c, l.viaDone);
    }
  }

  lemma ActMoves(c: S.Call, viaDone: bool)
    requires c.reader.Holding?
    ensures var d := S.Handle(c, c.reader.msg, viaDone);
      d.inTable == c.inTable && (d.stage == c.stage || (c.stage == S.Open && d.stage == S.Ending))
  {
    var action := S.ActionOf(c.kind, c.reader.msg);
    if action.Send? {
      ChosenMoves(c, action.event, if action.last then S.Completing else S.Idle, S.Choose(c, viaDone));
    }
  }

  lemma ChosenMoves(c: S.Call, event: S.Event, next: S.Reader, choice: S.Choice)
    ensures var d := S.Chosen(c, event, next, choice);
      d.inTable == c.inTable && (d.stage == c.stage || (c.stage == S.Open && d.stage == S.Ending))
  {
  }

  lemma EchoPhases(hub: A.Hub, i: nat, before: S.Stage, after: S.Stage)
    requires i < |hub.calls|
    requires before == S.Open ==> hub.calls[i].phase == A.Registered
    requires before == S.Ending ==> hub.calls[i].phase == A.Closing
    ensures var h := Echo(hub, i, before, after);
      && |h.calls| == |hub.calls| && (forall j: nat | j < |h.calls| && j != i :: h.calls[j] == hub.calls[j])
      && h.calls[i].phase ==
        if before == S.Open && after == S.Ending then A.Closing
        else if before == S.Ending && after == S.Removed then A.Removed else hub.calls[i].phase
  {
  }

  lemma StepKeepsLink(phase: A.Phase, c: S.Call, l: S.Label)
    requires LinkedAt(phase, c) && Allowed(phase, l)
    ensures var d := S.Apply(c, l);
      LinkedAt(if c.stage == S.Open && d.stage == S.Ending then A.Closing
               else if c.stage == S.Ending && d.stage == S.Removed then A.Removed else phase, d)
  {
    StageMoves(c, l);
  }

  lemma CallStepKeepsInv(s: System, i: nat, l: S.Label)
    requires Inv(s)
    ensures Inv(Apply(s, Step(i, l)))
  {
    if i < |s.calls| && Allowed(s.hub.calls[i].phase, l) {
      var c, d := s.calls[i], S.Apply(s.calls[i], l);
      assert LinkedAt(s.hub.calls[i].phase, c) && S.Inv(c);
      EchoPhases(s.hub, i, c.stage, d.stage);
      StepKeepsLink(s.hub.calls[i].phase, c, l);
      S.StepKeepsInv(c, l);
      ReplaceSound(s.calls, i, d);
      A.StepKeepsInv(s.hub, A.Close(i));
      A.StepKeepsInv(s.hub, A.Remove(i));
      assert Linked(Apply(s, Step(i, l)));
    }
  }

  lemma RegisterKeepsInv(s: System, kind: S.Kind, msgId: string, worker: string)
    requires Inv(s)
    ensures Inv(Apply(s, Register(kind, msgId, worker)))
  {
    A.StepKeepsInv(s.hub, A.Register(msgId, worker));
    S.NewCallInv(kind);
    RegisterKeepsLink(s, kind, msgId, worker);
    AppendSound(s.calls, S.NewCall(kind));
  }

  lemma AppendSound(calls: seq<S.Call>, c: S.Call)
    requires Sound(calls) && S.Inv(c)
    ensures Sound(calls + [c])
  {
  }

  lemma ReplaceSound(calls: seq<S.Call>, i: nat, c: S.Call)
    requires Sound(calls) && i < |calls| && S.Inv(c)
    ensures Sound(calls[i := c])
  {
  }

  lemma RegisterKeepsLink(s: System, kind: S.Kind, msgId: string, worker: string)
    requires Linked(s)
    ensures Linked(Apply(s, Register(kind, msgId, worker)))
  {
    var s' := Apply(s, Register(kind, msgId, worker));
    forall i: nat | i < |s'.calls|
      ensures i < |s'.hub.calls| && LinkedAt(s'.hub.calls[i].phase, s'.calls[i])
    {
      assert i < |s.calls| ==> s'.hub.calls[i] == s.hub.calls[i] && s'.calls[i] == s.calls[i];
    }
  }

  lemma DecrementKeepsInv(s: System, i: nat)
    requires Inv(s)
    ensures Inv(Apply(s, Decrement(i)))
  {
    A.StepKeepsInv(s.hub, A.Decrement(i));
    if A.At(s.hub, i, A.Removed) {
      assert LinkedAt(s.hub.calls[i].phase, s.calls[i]);
    }
  }

  lemma UpkeepKeepsInv(s: System, u: A.Label)
    requires Inv(s)
    ensures Inv(Apply(s, Upkeep(u)))
  {
    A.StepKeepsInv(s.hub, u);
  }

  lemma StepKeepsInv(s: System, l: Label)
    requires Inv(s)
    ensures Inv(Apply(s, l))
  {
    match l
    case Register(kind, msgId, worker) => RegisterKeepsInv(s, kind, msgId, worker);
    case Step(i, step) => CallStepKeepsInv(s, i, step);
    case Decrement(i) => DecrementKeepsInv(s, i);
    case Upkeep(u) => UpkeepKeepsInv(s, u);
  }

  /** In every joint run the accounting is exact, every call delivers in order, and the two
      agree on how far each call has got. */
  lemma {:induction false} RunsStayLinked(labels: seq<Label>)
    ensures Inv(Run(labels))
  {
    if labels != [] {
      RunsStayLinked(labels[..|labels| - 1]);
      StepKeepsInv(Run(labels[..|labels| - 1]), labels[|labels| - 1]);
    }
  }

  /** A message finds the call exactly while the call's own life has it in the table. */
  lemma LookupFindsIt(labels: seq<Label>, i: nat)
    requires i < |Run(labels).calls|
    ensures var s := Run(labels);
      && |s.hub.calls| == |s.calls|
      && (s.calls[i].inTable <==> s.hub.calls[i].msgId in s.hub.pending && s.hub.pending[s.hub.calls[i].msgId] == i)
  {
    RunsStayLinked(labels);
    var s := Run(labels);
    assert LinkedAt(s.hub.calls[i].phase, s.calls[i]);
  }

  /** Once doneCh or the channel is closed, the call has left the table and been counted
      off, whatever else is going on. */
  lemma ClosedIsSettled(labels: seq<Label>, i: nat)
    requires i < |Run(labels).calls| && Run(labels).calls[i].stage in {S.Signalled, S.Closed}
    ensures var s := Run(labels);
      && |s.hub.calls| == |s.calls| && s.hub.calls[i].phase == A.Finished
      && (forall id | id in s.hub.pending :: s.hub.pending[id] != i)
      && (s.hub.calls[i].worker != "" ==> !s.hub.calls[i].Counted())
  {
    RunsStayLinked(labels);
    var s := Run(labels);
    assert LinkedAt(s.hub.calls[i].phase, s.calls[i]);
  }

  /** So a worker all of whose calls have been seen to close has no slot in use, and its
      next call is not turned away. */
  lemma ClosedWorkerIsFree(labels: seq<Label>, worker: string, msgId: string)
    requires worker != ""
    requires var s := Run(labels);
      forall i: nat | i < |s.calls| && i < |s.hub.calls| && s.hub.calls[i].worker == worker ::
        s.calls[i].stage in {S.Signalled, S.Closed}
    ensures worker !in Run(labels).hub.inFlight && !A.Admit(Run(labels).hub, msgId, worker).RateLimited?
  {
    var s := Run(labels);
    RunsStayLinked(labels);
    forall i | 0 <= i < |s.hub.calls|
      ensures !A.CountedFor({worker})(s.hub.calls[i])
    {
      if s.hub.calls[i].worker == worker {
        ClosedIsSettled(labels, i);
      }
    }
    A.NoneCounted(s.hub, worker);
  }
}
