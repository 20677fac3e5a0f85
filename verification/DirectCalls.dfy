/** Calls on a direct worker connection: the pending table is itself the in-flight counter,
    and the shutdown of the connection swaps it for an empty one. */
module DirectCalls {
  import opened Counting

  /** `Closing`: closeOnce entered; `Finished`: the critical section of finish has run. */
  datatype Phase = Registered | Closing | Finished

  /** A pendingCall; `held` says that the table has its entry. */
  datatype Call = Call(id: string, phase: Phase, held: bool)

  datatype Conn = Conn(calls: seq<Call>, pending: map<string, nat>, rejected: nat)

  /** `cap` is the worker's cap in force when a call is added. */
  datatype Label =
    | Add(id: string, cap: int)
    | Close(call: nat)
    | Remove(call: nat)
    | Swap

  datatype Admission = Admitted(call: nat) | Duplicate | RateLimited

  const NewConn := Conn([], map[], 0)

  function Admit(c: Conn, id: string, cap: int): Admission {
    if id in c.pending then Duplicate
    else if |c.pending| >= cap then RateLimited
    else Admitted(|c.calls|)
  }

  function SetPhase(calls: seq<Call>, i: nat, phase: Phase): seq<Call>
    requires i < |calls|
  {
    calls[i := calls[i].(phase := phase)]
  }

  /** finish: delete the entry if it is still this call's. */
  function Removed(c: Conn, i: nat): Conn
    requires i < |c.calls|
  {
    var id := c.calls[i].id;
    Conn(c.calls[i := Call(id, Finished, false)],
         if id in c.pending && c.pending[id] == i then c.pending - {id} else c.pending, c.rejected)
  }

  function Dropped(calls: seq<Call>): (r: seq<Call>)
    ensures |r| == |calls| && forall i | 0 <= i < |calls| :: r[i] == calls[i].(held := false)
  {
    seq(|calls|, i requires 0 <= i < |calls| => calls[i].(held := false))
  }

  function Apply(c: Conn, l: Label): Conn {
    match l
    case Add(id, cap) =>
      (match Admit(c, id, cap)
       case Duplicate => c
       case RateLimited => c.(rejected := c.rejected + 1)
       case Admitted(i) => c.(calls := c.calls + [Call(id, Registered, true)], pending := c.pending[id := i]))
    case Close(i) =>
      if i < |c.calls| && c.calls[i].phase == Registered then c.(calls := SetPhase(c.calls, i, Closing)) else c
    case Remove(i) => if i < |c.calls| && c.calls[i].phase == Closing then Removed(c, i) else c
    case Swap => c.(calls := Dropped(c.calls), pending := map[])
  }

  function Run(labels: seq<Label>): Conn {
    if labels == [] then NewConn
    else Apply(Run(labels[..|labels| - 1]), labels[|labels| - 1])
  }

  function Held(): Call -> bool {
    (c: Call) => c.held
  }

  /** The table and the calls it holds are inverse to each other. */
  ghost predicate TableExact(c: Conn) {
    && (forall id | id in c.pending ::
          c.pending[id] < |c.calls| && c.calls[c.pending[id]].id == id && c.calls[c.pending[id]].held)
    && (forall i: nat | i < |c.calls| && c.calls[i].held ::
          c.calls[i].phase != Finished && c.calls[i].id in c.pending && c.pending[c.calls[i].id] == i)
  }

  /** The size of the table is the number of calls it holds. */
  ghost predicate Inv(c: Conn) {
    TableExact(c) && |c.pending| == Count(c.calls, Held())
  }

  lemma AddKeepsTable(c: Conn, id: string)
    requires TableExact(c) && id !in c.pending
    ensures TableExact(Conn(c.calls + [Call(id, Registered, true)], c.pending[id := |c.calls|], c.rejected))
  {
  }

  lemma AddKeepsInv(c: Conn, id: string, cap: int)
    requires Inv(c)
    ensures Inv(Apply(c, Add(id, cap)))
  {
    if Admit(c, id, cap).Admitted? {
      AddKeepsTable(c, id);
      CountAppend(c.calls, Call(id, Registered, true), Held());
    }
  }

  lemma CloseKeepsInv(c: Conn, i: nat)
    requires Inv(c)
    ensures Inv(Apply(c, Close(i)))
  {
    if i < |c.calls| {
      CountUpdate(c.calls, i, c.calls[i].(phase := Closing), Held());
    }
  }

  lemma RemovedKeepsTable(c: Conn, i: nat)
    requires TableExact(c) && i < |c.calls|
    ensures TableExact(Removed(c, i))
  {
  }

  lemma RemovedCounts(c: Conn, i: nat)
    requires Inv(c) && i < |c.calls|
    ensures |Removed(c, i).pending| == Count(Removed(c, i).calls, Held())
  {
    var id := c.calls[i].id;
    CountUpdate(c.calls, i, Call(id, Finished, false), Held());
    if c.calls[i].held {
      assert c.pending == (c.pending - {id})[id := i];
    } else {
      assert id in c.pending ==> c.pending[id] != i;
    }
  }

  lemma SwapKeepsInv(c: Conn)
    ensures Inv(Apply(c, Swap))
  {
    CountNone(Dropped(c.calls), Held());
  }

  lemma StepKeepsInv(c: Conn, l: Label)
    requires Inv(c)
    ensures Inv(Apply(c, l))
  {
    match l
    case Add(id, cap) => AddKeepsInv(c, id, cap);
    case Close(i) => CloseKeepsInv(c, i);
    case Remove(i) =>
      if i < |c.calls| {
        RemovedKeepsTable(c, i);
        RemovedCounts(c, i);
      }
    case Swap => SwapKeepsInv(c);
  }

  /** In every run, shutdowns and reused IDs included, the table holds exactly the calls
      that were added, have not been removed and were not swapped out, and its size is
      their number. */
  lemma {:induction false} RunsConserve(labels: seq<Label>)
    ensures Inv(Run(labels))
  {
    if labels != [] {
      RunsConserve(labels[..|labels| - 1]);
      StepKeepsInv(Run(labels[..|labels| - 1]), labels[|labels| - 1]);
    }
  }

  /** In every run a call is a duplicate exactly when the table holds one with its ID; else it
      is rate limited exactly when the calls held reach the cap; else it is admitted. */
  lemma AdmissionLaw(labels: seq<Label>, id: string, cap: int)
    ensures var c := Run(labels);
      var taken := exists call :: call in c.calls && call.id == id && call.held;
      var full := Count(c.calls, (call: Call) => call.held) >= cap;
      && (Admit(c, id, cap).Duplicate? <==> taken)
      && (Admit(c, id, cap).RateLimited? <==> !taken && full)
      && (!taken && !full ==> Apply(c, Add(id, cap)).calls == c.calls + [Call(id, Registered, true)])
      && (Apply(c, Add(id, cap)).rejected == c.rejected + if !taken && full then 1 else 0)
  {
    var c := Run(labels);
    RunsConserve(labels);
    CountAgree(c.calls, Held(), (call: Call) => call.held);
    if id in c.pending {
      assert c.calls[c.pending[id]] in c.calls;
    }
    if call :| call in c.calls && call.id == id && call.held {
      var i: nat :| i < |c.calls| && c.calls[i] == call;
    }
  }

  /** The table grows only by an admission, to a size within the cap given to it. */
  lemma GrowsUnderCap(c: Conn, l: Label)
    ensures |Apply(c, l).pending| <= |c.pending| || (l.Add? && |Apply(c, l).pending| <= l.cap)
  {
    if l.Remove? && l.call < |c.calls| {
      var id := c.calls[l.call].id;
      assert id in c.pending ==> c.pending == (c.pending - {id})[id := c.pending[id]];
    }
  }

  /** So in every run the calls in flight are within a cap that admitted one of them. */
  lemma {:induction false} WithinSomeCap(labels: seq<Label>)
    ensures Run(labels).pending == map[]
      || exists k: nat :: k < |labels| && labels[k].Add? && |Run(labels).pending| <= labels[k].cap
  {
    if labels != [] {
      var n := |labels| - 1;
      WithinSomeCap(labels[..n]);
      var before, after := Run(labels[..n]).pending, Run(labels).pending;
      GrowsUnderCap(Run(labels[..n]), labels[n]);
      if |after| <= |before| && before != map[] {
        var k: nat :| k < n && labels[..n][k].Add? && |before| <= labels[..n][k].cap;
        assert labels[k] == labels[..n][k];
      } else if after != map[] {
        assert before == map[] ==> |before| == 0;
      }
    }
  }

  /** finish never takes away the entry of another call. */
  lemma RemoveSparesOthers(labels: seq<Label>, i: nat, id: string)
    requires id in Run(labels).pending && Run(labels).pending[id] != i
    ensures var c := Apply(Run(labels), Remove(i)); id in c.pending && c.pending[id] == Run(labels).pending[id]
  {
  }

  /** The ownership test is what makes it so: after a swap an ID can be taken again while its
      first call is still finishing. */
  lemma ReusedIdSurvives()
    ensures var c := Run([Add("a", 1), Swap, Add("a", 1), Close(0), Remove(0)]);
      c.pending == map["a" := 1] && c.calls == [Call("a", Finished, false), Call("a", Registered, true)]
  {
    var l := [Add("a", 1), Swap, Add("a", 1), Close(0), Remove(0)];
    assert l[..4] == [Add("a", 1), Swap, Add("a", 1), Close(0)];
    assert l[..4][..3] == [Add("a", 1), Swap, Add("a", 1)];
    assert l[..4][..3][..2] == [Add("a", 1), Swap];
    assert l[..4][..3][..2][..1] == [Add("a", 1)];
    assert l[..4][..3][..2][..1][..0] == [];
    assert Run([Add("a", 1)]) == Conn([Call("a", Registered, true)], map["a" := 0], 0);
    assert Run([Add("a", 1), Swap]) == Conn([Call("a", Registered, false)], map[], 0);
    assert Run(l[..4][..3]).calls == [Call("a", Registered, false), Call("a", Registered, true)];
    assert Run(l[..4]).calls == [Call("a", Closing, false), Call("a", Registered, true)];
  }

  /** fail or complete with nobody else at work: a call that was entered before is left alone. */
  function Finishing(c: Conn, i: nat): Conn {
    if i < |c.calls| && c.calls[i].phase == Registered then Apply(Apply(c, Close(i)), Remove(i)) else c
  }

  /** What a shutdown has made of a call while the IDs in `todo` are still to be failed. */
  function ShutCall(c: Call, todo: set<string>): Call {
    if c.held && c.phase == Registered && c.id !in todo then Call(c.id, Finished, false) else c.(held := false)
  }

  ghost predicate ShutBut(before: seq<Call>, calls: seq<Call>, todo: set<string>) {
    |calls| == |before| && forall i: nat | i < |calls| :: calls[i] == ShutCall(before[i], todo)
  }

  /** The two critical sections of finish, one after the other. */
  lemma FinishingIs(c: Conn, i: nat)
    requires i < |c.calls| && c.calls[i].phase == Registered
    ensures var id := c.calls[i].id;
      Finishing(c, i) == Conn(c.calls[i := Call(id, Finished, false)],
                              if id in c.pending && c.pending[id] == i then c.pending - {id} else c.pending, c.rejected)
  {
    var closed := Apply(c, Close(i));
    assert closed.calls[i := Call(c.calls[i].id, Finished, false)] == c.calls[i := Call(c.calls[i].id, Finished, false)];
  }

  lemma FinishingCalls(c: Conn, i: nat)
    requires Inv(c)
    ensures Inv(Finishing(c, i))
    ensures Finishing(c, i).calls ==
      if i < |c.calls| && c.calls[i].phase == Registered then c.calls[i := Call(c.calls[i].id, Finished, false)] else c.calls
    ensures c.pending == map[] ==> Finishing(c, i).pending == map[]
  {
    CloseKeepsInv(c, i);
    if i < |c.calls| && c.calls[i].phase == Registered {
      var closed := Apply(c, Close(i));
      StepKeepsInv(closed, Remove(i));
      FinishingIs(c, i);
    }
  }

  lemma ShutStep(before: Conn, calls: seq<Call>, todo: set<string>, id: string)
    requires TableExact(before) && ShutBut(before.calls, calls, todo) && todo <= before.pending.Keys && id in todo
    ensures var i := before.pending[id];
      && i < |calls|
      && ShutBut(before.calls, if calls[i].phase == Registered then calls[i := Call(calls[i].id, Finished, false)] else calls, todo - {id})
  {
  }

  /** The connection's fields; a method is one critical section, or a call with nobody in
      between. */
  class DirectConn {
    var calls: seq<Call>
    var pending: map<string, nat>
    var rejected429: nat

    ghost function View(): Conn
      reads this
    {
      Conn(calls, pending, rejected429)
    }

    ghost predicate Valid()
      reads this
    {
      Inv(View())
    }

    constructor ()
      ensures Valid() && View() == NewConn
    {
      calls, pending, rejected429 := [], map[], 0;
    }

    method AddPending(id: string, cap: int) returns (r: Admission)
      requires Valid()
      modifies this
      ensures Valid() && View() == Apply(old(View()), Add(id, cap)) && r == Admit(old(View()), id, cap)
    {
      StepKeepsInv(View(), Add(id, cap));
      if id in pending {
        return Duplicate;
      }
      if |pending| >= cap {
        rejected429 := rejected429 + 1;
        return RateLimited;
      }
      r := Admitted(|calls|);
      pending := pending[id := |calls|];
      calls := calls + [Call(id, Registered, true)];
    }

    method WorkerInFlight() returns (n: nat)
      requires Valid()
      ensures n == Count(calls, Held())
    {
      n := |pending|;
    }

    method Finish(i: nat)
      requires Valid()
      modifies this
      ensures Valid() && View() == Finishing(old(View()), i)
    {
      ghost var c := View();
      if i < |calls| && calls[i].phase == Registered {
        FinishingIs(c, i);
        var id := calls[i].id;
        if id in pending && pending[id] == i {
          pending := pending - {id};
        }
        calls := calls[i := Call(id, Finished, false)];
      }
      FinishingCalls(c, i);
      assert View() == Finishing(c, i);
    }

    /** shutdown's part: swap the table, then fail every call that was in it. */
    method FailAll()
      requires Valid()
      modifies this
      ensures Valid() && pending == map[] && ShutBut(old(calls), calls, {})
    {
      var pend := pending;
      ghost var before := View();
      StepKeepsInv(before, Swap);
      calls, pending := Dropped(calls), map[];
      var todo := pend.Keys;
      while todo != {}
        invariant Valid() && pending == map[] && todo <= pend.Keys && ShutBut(before.calls, calls, todo)
      {
        var id :| id in todo;
        ShutStep(before, calls, todo, id);
        FinishingCalls(View(), pend[id]);
        Finish(pend[id]);
        todo := todo - {id};
      }
    }
  }
}
