/** The life of one pendingCall: what reaches its channels, and when they close.

    Every step that another goroutine can come between is its own label: the reader looks
    a call up, its handler acts, and a terminal transition enters closeOnce, leaves the
    table, closes doneCh and closes the event channel. A call's messages come from one
    reader goroutine; cancellations, shutdowns and the consumer run beside it. */
module StreamCalls {
  import opened Protocol

  /** A streaming call has an event channel, a single-response call a response channel. */
  datatype Kind = Streaming | Single

  /** A decoded worker message; `None` and `BadResponse` are payloads that do not decode. */
  datatype Message =
    | ChunkMsg(chunk: Option<string>)
    | BadResponse
    | ResponseMsg(error: string, response: string, done: bool)
    | LoadResponse
    | ErrorMsg(text: string)
    | OtherMsg

  datatype Event = Data(frame: string) | Reply(msg: Message) | Done

  /** How far the terminal transition has got: closeOnce entered, entry removed, doneCh
      closed, event channel closed. */
  datatype Stage = Open | Ending | Removed | Signalled | Closed

  /** The reader goroutine: free, holding a call it looked up with the message for it,
      about to complete the call, or inside closeOnce until the call is closed. */
  datatype Reader = Idle | Holding(msg: Message) | Completing | Waiting

  /** `arrived` are the events handlers had to send, `skipped` how many of them were not
      sent; a send on the closed channel panics and ends the process. */
  datatype Call = Call(
    kind: Kind, inTable: bool, stage: Stage, reader: Reader,
    channel: seq<Event>, drained: seq<Event>, errors: seq<string>,
    arrived: seq<Event>, skipped: nat, closes: nat, panicked: bool)

  datatype Label =
    | Lookup(msg: Message)
    | Act(viaDone: bool)
    | Complete
    | Return
    | Fail(err: string)
    | Remove
    | Signal
    | Shut
    | ClearTable
    | Drain

  const RESPONSE_CAP := 4
  const ERR_CAP := 1

  function NewCall(kind: Kind): Call {
    Call(kind, true, Open, Idle, [], [], [], [], 0, 0, false)
  }

  function Capacity(kind: Kind): nat {
    if kind == Streaming then SEND_QUEUE_SIZE else RESPONSE_CAP
  }

  function Frame(chunk: string): string {
    "data: " + chunk + "\n\n"
  }

  /** What a handler does with a message: send an event and perhaps complete, fail the
      call, complete it, or nothing. */
  datatype Action = Send(event: Event, last: bool) | Abort(err: string) | Finish | Ignore

  function StreamAction(msg: Message): Action {
    match msg
    case ChunkMsg(None) => Abort("bad chunk payload")
    case ChunkMsg(Some(chunk)) => Send(Data(Frame(chunk)), false)
    case BadResponse => Abort("bad response payload")
    case ResponseMsg(error, response, done) =>
      if error != "" then Abort(error)
      else if response != "" then Send(Data(Frame(response)), done)
      else if done then Finish else Ignore
    case ErrorMsg(text) => Abort(text)
    case _ => Ignore
  }

  function SingleAction(msg: Message): Action {
    match msg
    case BadResponse => Send(Reply(msg), true)
    case ResponseMsg(_, _, _) => Send(Reply(msg), true)
    case LoadResponse => Send(Reply(msg), true)
    case ErrorMsg(text) => Abort(text)
    case _ => Ignore
  }

  function ActionOf(kind: Kind, msg: Message): Action {
    if kind == Streaming then StreamAction(msg) else SingleAction(msg)
  }

  predicate DoneClosed(c: Call) {
    c.stage == Signalled || c.stage == Closed
  }

  /** Entering closeOnce through fail; whoever comes later changes nothing. */
  function EnterFail(c: Call, err: string): Call {
    if c.stage != Open then c
    else c.(stage := Ending, errors := if |c.errors| < ERR_CAP then c.errors + [err] else c.errors)
  }

  /** Entering it through completeStream or completeCall; only a stream sends Done. */
  function EnterComplete(c: Call): Call {
    if c.stage != Open then c
    else c.(stage := Ending,
            channel := if c.kind == Streaming && |c.channel| < SEND_QUEUE_SIZE then c.channel + [Done] else c.channel)
  }

  /** What a select can come to: the send, nothing, the default of a single-response call,
      or a panic. */
  datatype Choice = Deliver | Skip | Refuse | Panic

  /** The select of a handler. A closed doneCh and a send that can proceed (or would
      panic) may both be ready, and then either is taken. */
  function Choose(c: Call, viaDone: bool): Choice {
    if DoneClosed(c) && viaDone then Skip
    else if c.stage == Closed then Panic
    else if |c.channel| < Capacity(c.kind) then Deliver
    else if c.kind == Streaming || DoneClosed(c) then Skip
    else Refuse
  }

  function Chosen(c: Call, event: Event, next: Reader, choice: Choice): Call {
    match choice
    case Panic => c.(panicked := true)
    case Deliver => c.(arrived := c.arrived + [event], channel := c.channel + [event], reader := next)
    case Skip => c.(arrived := c.arrived + [event], skipped := c.skipped + 1, reader := next)
    case Refuse =>
      EnterFail(c.(arrived := c.arrived + [event], skipped := c.skipped + 1), "response dropped: consumer not reading")
        .(reader := Waiting)
  }

  function Select(c: Call, event: Event, last: bool, viaDone: bool): Call {
    Chosen(c, event, if last then Completing else Idle, Choose(c, viaDone))
  }

  function Handle(c: Call, msg: Message, viaDone: bool): Call {
    match ActionOf(c.kind, msg)
    case Send(event, last) => Select(c, event, last, viaDone)
    case Abort(err) => EnterFail(c, err).(reader := Waiting)
    case Finish => c.(reader := Completing)
    case Ignore => c.(reader := Idle)
  }

  function Apply(c: Call, l: Label): Call {
    if c.panicked then c
    else match l
      case Lookup(msg) => if c.inTable && c.reader == Idle then c.(reader := Holding(msg)) else c
      case Act(viaDone) => if c.reader.Holding? then Handle(c, c.reader.msg, viaDone) else c
      case Complete => if c.reader == Completing then EnterComplete(c).(reader := Waiting) else c
      case Return => if c.reader == Waiting && c.stage == Closed then c.(reader := Idle) else c
      case Fail(err) => EnterFail(c, err)
      case Remove => if c.stage == Ending then c.(stage := Removed, inTable := false) else c
      case Signal => if c.stage == Removed then c.(stage := Signalled) else c
      case Shut => if c.stage == Signalled then c.(stage := Closed, closes := c.closes + 1) else c
      case ClearTable => c.(inTable := false)
      case Drain =>
        if c.channel == [] then c
        else c.(channel := c.channel[1..], drained := c.drained + [c.channel[0]])
  }

  function Run(kind: Kind, labels: seq<Label>): Call {
    if labels == [] then NewCall(kind)
    else Apply(Run(kind, labels[..|labels| - 1]), labels[|labels| - 1])
  }

  /** Everything ever sent into the channel, read or not. */
  function Sent(c: Call): seq<Event> {
    c.drained + c.channel
  }

  ghost predicate Subsequence<T>(a: seq<T>, b: seq<T>) {
    if a == [] then true
    else if b == [] then false
    else
      || (a[|a| - 1] == b[|b| - 1] && Subsequence(a[..|a| - 1], b[..|b| - 1]))
      || Subsequence(a, b[..|b| - 1])
  }

  lemma SubsequenceExtend<T>(a: seq<T>, b: seq<T>, x: T)
    requires Subsequence(a, b)
    ensures Subsequence(a, b + [x]) && Subsequence(a + [x], b + [x])
  {
    assert (b + [x])[..|b|] == b;
    assert (a + [x])[..|a|] == a;
  }

  /** `kept` is what is left of `arrived` when `skipped` events are taken out. */
  ghost predicate Keeps(kept: seq<Event>, arrived: seq<Event>, skipped: nat) {
    Subsequence(kept, arrived) && |kept| + skipped == |arrived| && Done !in kept
  }

  lemma KeepsExtend(kept: seq<Event>, arrived: seq<Event>, skipped: nat, event: Event)
    requires Keeps(kept, arrived, skipped) && event != Done
    ensures Keeps(kept + [event], arrived + [event], skipped) && Keeps(kept, arrived + [event], skipped + 1)
  {
    SubsequenceExtend(kept, arrived, event);
  }

  /** `kept` are the events that were sent, in order of arrival, before any Done. */
  ghost predicate Delivered(c: Call, kept: seq<Event>) {
    && Keeps(kept, c.arrived, c.skipped)
    && (Sent(c) == kept || (Completed(c) && Sent(c) == kept + [Done]))
  }

  /** A stream that may have sent its Done: nobody can send to it any more. */
  predicate Completed(c: Call) {
    && c.kind == Streaming && c.stage != Open && c.errors == []
    && (c.reader == Waiting || (c.stage == Closed && c.reader == Idle))
  }

  ghost predicate InOrder(c: Call) {
    exists kept :: Delivered(c, kept)
  }

  /** Stages, table and outcomes fit together. */
  ghost predicate Staged(c: Call) {
    && (c.stage in {Removed, Signalled, Closed} ==> !c.inTable)
    && c.closes == (if c.stage == Closed then 1 else 0)
    && |c.errors| <= 1 && (c.stage == Open ==> c.errors == [] && c.reader != Waiting)
    && |c.channel| <= Capacity(c.kind)
    && (c.panicked ==> c.stage == Closed && c.reader.Holding?)
  }

  /** A single-response call is sent one response at most, and does not end without a
      response or an error. */
  ghost predicate Answered(c: Call) {
    c.kind == Single ==>
      && |Sent(c)| <= 1
      && (Sent(c) != [] ==> c.reader in {Completing, Waiting} || (c.stage == Closed && c.reader == Idle))
      && (c.stage == Open && c.reader == Completing ==> Sent(c) != [])
      && (c.stage != Open ==> Sent(c) != [] || c.errors != [])
  }

  ghost predicate Inv(c: Call) {
    Staged(c) && InOrder(c) && Answered(c)
  }

  lemma ChosenKeepsStaged(c: Call, event: Event, next: Reader, choice: Choice)
    requires Staged(c) && !c.panicked && c.reader.Holding? && next in {Idle, Completing}
    requires choice == Panic ==> c.stage == Closed
    requires choice == Deliver ==> |c.channel| < Capacity(c.kind)
    ensures Staged(Chosen(c, event, next, choice))
  {
  }

  lemma ActKeepsStaged(c: Call, viaDone: bool)
    requires Staged(c) && !c.panicked && c.reader.Holding?
    ensures Staged(Handle(c, c.reader.msg, viaDone))
  {
    var action := ActionOf(c.kind, c.reader.msg);
    if action.Send? {
      ChosenKeepsStaged(c, action.event, if action.last then Completing else Idle, Choose(c, viaDone));
    }
  }

  lemma StepKeepsStaged(c: Call, l: Label)
    requires Staged(c)
    ensures Staged(Apply(c, l))
  {
    if l.Act? && !c.panicked && c.reader.Holding? {
      ActKeepsStaged(c, l.viaDone);
    }
  }

  /** A label other than a handler's select or a completion leaves what was sent alone. */
  lemma QuietStep(c: Call, l: Label)
    requires !l.Act? && !l.Complete?
    ensures var c' := Apply(c, l); Sent(c') == Sent(c) && c'.arrived == c.arrived && c'.skipped == c.skipped
  {
    if l.Drain? && c.channel != [] {
      assert c.channel == [c.channel[0]] + c.channel[1..];
    }
  }

  lemma ChosenKeepsOrder(c: Call, event: Event, next: Reader, choice: Choice)
    requires InOrder(c) && event != Done && c.reader.Holding?
    ensures InOrder(Chosen(c, event, next, choice))
  {
    var kept :| Delivered(c, kept);
    var d := Chosen(c, event, next, choice);
    KeepsExtend(kept, c.arrived, c.skipped, event);
    if choice == Deliver {
      assert Sent(d) == Sent(c) + [event];
      assert Delivered(d, kept + [event]);
    } else {
      assert Sent(d) == Sent(c);
      assert Delivered(d, kept);
    }
  }

  lemma ActKeepsOrder(c: Call, viaDone: bool)
    requires Staged(c) && InOrder(c) && !c.panicked && c.reader.Holding?
    ensures InOrder(Apply(c, Act(viaDone)))
  {
    var action := ActionOf(c.kind, c.reader.msg);
    if action.Send? {
      ChosenKeepsOrder(c, action.event, if action.last then Completing else Idle, Choose(c, viaDone));
    } else {
      var kept :| Delivered(c, kept);
      assert Delivered(Apply(c, Act(viaDone)), kept);
    }
  }

  lemma StepKeepsOrder(c: Call, l: Label)
    requires Staged(c) && InOrder(c)
    ensures InOrder(Apply(c, l))
  {
    var kept :| Delivered(c, kept);
    var c' := Apply(c, l);
    if c' == c {
    } else if l.Act? {
      ActKeepsOrder(c, l.viaDone);
    } else if l.Complete? {
      assert Sent(c') == Sent(c) || Sent(c') == Sent(c) + [Done];
      assert Delivered(c', kept);
    } else {
      QuietStep(c, l);
      assert Delivered(c', kept);
    }
  }

  lemma ChosenKeepsAnswered(c: Call, event: Event, next: Reader, choice: Choice)
    requires Staged(c) && Answered(c) && c.reader.Holding? && c.kind == Single && next == Completing
    requires choice == Skip ==> c.stage != Open
    ensures Answered(Chosen(c, event, next, choice))
  {
  }

  lemma ActKeepsAnswered(c: Call, viaDone: bool)
    requires Staged(c) && Answered(c) && !c.panicked && c.reader.Holding? && c.kind == Single
    ensures Answered(Handle(c, c.reader.msg, viaDone))
  {
    var action := SingleAction(c.reader.msg);
    if action.Send? {
      ChosenKeepsAnswered(c, action.event, Completing, Choose(c, viaDone));
    }
  }

  lemma StepKeepsAnswered(c: Call, l: Label)
    requires Staged(c) && Answered(c)
    ensures Answered(Apply(c, l))
  {
    if c.kind == Single && !c.panicked {
      if !l.Act? && !l.Complete? {
        QuietStep(c, l);
      } else if l.Act? && c.reader.Holding? {
        ActKeepsAnswered(c, l.viaDone);
      }
    }
  }

  lemma NewCallInv(kind: Kind)
    ensures Inv(NewCall(kind))
  {
    assert Delivered(NewCall(kind), []);
  }

  lemma StepKeepsInv(c: Call, l: Label)
    requires Inv(c)
    ensures Inv(Apply(c, l))
  {
    StepKeepsStaged(c, l);
    StepKeepsOrder(c, l);
    StepKeepsAnswered(c, l);
  }

  /** In every run, of either kind: the channel has carried an in-order subsequence of the
      events its handlers had to send, then at most one Done; it is closed at most once;
      at most one error is delivered, and never with Done. A single-response call is sent
      at most one response and does not end without a response or an error. */
  lemma {:induction false} RunsDeliverInOrder(kind: Kind, labels: seq<Label>)
    ensures Inv(Run(kind, labels))
  {
    if labels == [] {
      NewCallInv(kind);
    } else {
      RunsDeliverInOrder(kind, labels[..|labels| - 1]);
      StepKeepsInv(Run(kind, labels[..|labels| - 1]), labels[|labels| - 1]);
    }
  }

  lemma RunSnoc(kind: Kind, labels: seq<Label>, l: Label)
    ensures Run(kind, labels + [l]) == Apply(Run(kind, labels), l)
  {
    assert (labels + [l])[..|labels|] == labels;
  }

  /** Once the channel is closed, no continuation of the run changes what was delivered. */
  lemma {:induction false} TerminalIsFinal(kind: Kind, labels: seq<Label>, more: seq<Label>)
    requires Run(kind, labels).stage == Closed
    ensures var c, d := Run(kind, labels), Run(kind, labels + more);
      d.stage == Closed && d.closes == 1 && d.errors == c.errors && Sent(d) == Sent(c)
  {
    if more == [] {
      assert labels + more == labels;
      RunsDeliverInOrder(kind, labels);
    } else {
      var n := |more| - 1;
      TerminalIsFinal(kind, labels, more[..n]);
      assert labels + more == labels + more[..n] + [more[n]];
      RunSnoc(kind, labels + more[..n], more[n]);
      ClosedStep(Run(kind, labels + more[..n]), more[n]);
    }
  }

  lemma ClosedStep(c: Call, l: Label)
    requires c.stage == Closed
    ensures var d := Apply(c, l); d.stage == Closed && d.closes == c.closes && d.errors == c.errors && Sent(d) == Sent(c)
  {
    if !l.Act? && !l.Complete? {
      QuietStep(c, l);
    }
  }

  /** An error excludes Done, and Done is the last event of a stream that has ended. */
  lemma OneOutcome(kind: Kind, labels: seq<Label>)
    ensures var c := Run(kind, labels); c.errors != [] ==> c.stage != Open && Done !in Sent(c)
    ensures var c := Run(kind, labels);
      Done in Sent(c) ==> c.stage != Open && Sent(c)[|Sent(c)| - 1] == Done && Done !in Sent(c)[..|Sent(c)| - 1]
  {
    RunsDeliverInOrder(kind, labels);
    var c := Run(kind, labels);
    var kept :| Delivered(c, kept);
    assert Done in Sent(c) ==> Sent(c)[..|Sent(c)| - 1] == kept;
  }

  // A handler that is overtaken by the end of its call.

  /** The message makes the handler send an event. */
  predicate Sends(kind: Kind, msg: Message) {
    ActionOf(kind, msg).Send?
  }

  /** The k-th label looked the call up, while it was in the table, for a message that no
      later label has acted on. */
  ghost predicate HeldFrom(kind: Kind, labels: seq<Label>, k: nat, msg: Message) {
    && k < |labels| && labels[k] == Lookup(msg)
    && Run(kind, labels[..k]).inTable && Run(kind, labels[..k]).reader == Idle
    && forall j | k < j < |labels| :: !labels[j].Act?
  }

  lemma ReaderStep(c: Call, l: Label, msg: Message)
    requires !Apply(c, l).panicked
    ensures Apply(c, l).reader == Holding(msg) <==>
      (c.reader == Holding(msg) && !l.Act?) || (c.reader == Idle && c.inTable && l == Lookup(msg))
  {
    if l.Act? && c.reader.Holding? {
      var action := ActionOf(c.kind, c.reader.msg);
      if action.Send? {
        SelectReader(c, action.event, action.last, l.viaDone);
      }
    }
  }

  lemma SelectReader(c: Call, event: Event, last: bool, viaDone: bool)
    ensures var d := Select(c, event, last, viaDone);
      d == c.(panicked := true) || !d.reader.Holding?
  {
  }

  /** What the reader holds is what it looked up and has not acted on. */
  lemma {:induction false} HeldSinceLookup(kind: Kind, labels: seq<Label>, msg: Message)
    requires !Run(kind, labels).panicked
    ensures Run(kind, labels).reader == Holding(msg) <==> exists k :: HeldFrom(kind, labels, k, msg)
  {
    if labels != [] {
      var n := |labels| - 1;
      var before := labels[..n];
      HeldSinceLookup(kind, before, msg);
      ReaderStep(Run(kind, before), labels[n], msg);
      HeldFromStep(kind, labels, msg);
    }
  }

  lemma HeldFromStep(kind: Kind, labels: seq<Label>, msg: Message)
    requires labels != []
    ensures var n := |labels| - 1; var c := Run(kind, labels[..n]);
      (exists k :: HeldFrom(kind, labels, k, msg)) <==>
        ((exists k :: HeldFrom(kind, labels[..n], k, msg)) && !labels[n].Act?)
        || (c.reader == Idle && c.inTable && labels[n] == Lookup(msg))
  {
    var n := |labels| - 1;
    if k :| HeldFrom(kind, labels, k, msg) {
      HeldEarlier(kind, labels, k, msg);
    }
    if k :| HeldFrom(kind, labels[..n], k, msg) {
      HeldEarlier(kind, labels, k, msg);
    }
    HeldNow(kind, labels, msg);
  }

  lemma HeldEarlier(kind: Kind, labels: seq<Label>, k: nat, msg: Message)
    requires labels != []
    ensures var n := |labels| - 1;
      k < n ==> (HeldFrom(kind, labels, k, msg) <==> HeldFrom(kind, labels[..n], k, msg) && !labels[n].Act?)
  {
    var n := |labels| - 1;
    var before := labels[..n];
    if k < n {
      assert before[..k] == labels[..k] && before[k] == labels[k];
      assert forall j | k < j < n :: before[j] == labels[j];
    }
  }

  lemma HeldNow(kind: Kind, labels: seq<Label>, msg: Message)
    requires labels != []
    ensures var n := |labels| - 1; var c := Run(kind, labels[..n]);
      HeldFrom(kind, labels, n, msg) <==> c.reader == Idle && c.inTable && labels[n] == Lookup(msg)
  {
  }

  lemma PanicStep(c: Call, l: Label)
    requires !c.panicked
    ensures Apply(c, l).panicked <==> l == Act(false) && c.reader.Holding? && Sends(c.kind, c.reader.msg) && c.stage == Closed
  {
    if l.Act? && c.reader.Holding? && Sends(c.kind, c.reader.msg) {
      var action := ActionOf(c.kind, c.reader.msg);
      assert Chosen(c, action.event, if action.last then Completing else Idle, Choose(c, l.viaDone)).panicked
        <==> Choose(c, l.viaDone) == Panic;
    }
  }

  /** The n-th label lets a handler pick the send although its call, looked up at k while
      it was in the table, has been closed in the meantime. */
  ghost predicate Overtaken(kind: Kind, labels: seq<Label>, k: nat, n: nat, msg: Message) {
    && n < |labels| && labels[n] == Act(false)
    && HeldFrom(kind, labels[..n], k, msg) && Sends(kind, msg) && Run(kind, labels[..n]).stage == Closed
  }

  lemma {:induction false} KindStays(kind: Kind, labels: seq<Label>)
    ensures Run(kind, labels).kind == kind
  {
    if labels != [] {
      KindStays(kind, labels[..|labels| - 1]);
    }
  }

  /** A run panics exactly when it has such a label: the lookup came before the removal,
      the close ran before the handler, the message has something to send, and the select
      preferred the closed channel to the closed doneCh. */
  lemma {:induction false} PanicsExactlyWhenOvertaken(kind: Kind, labels: seq<Label>)
    ensures Run(kind, labels).panicked <==> exists k, n, msg :: Overtaken(kind, labels, k, n, msg)
  {
    if labels != [] {
      var m := |labels| - 1;
      PanicsExactlyWhenOvertaken(kind, labels[..m]);
      OvertakenStep(kind, labels);
      LastStepPanics(kind, labels);
    }
  }

  lemma OvertakenStep(kind: Kind, labels: seq<Label>)
    requires labels != []
    ensures var m := |labels| - 1;
      (exists k, n, msg :: Overtaken(kind, labels, k, n, msg)) <==>
        (exists k, n, msg :: Overtaken(kind, labels[..m], k, n, msg)) || (exists k, msg :: Overtaken(kind, labels, k, m, msg))
  {
    var m := |labels| - 1;
    forall k: nat, n: nat, msg: Message | n < m
      ensures Overtaken(kind, labels, k, n, msg) <==> Overtaken(kind, labels[..m], k, n, msg)
    {
      assert labels[..m][..n] == labels[..n];
    }
  }

  lemma PanicIsOvertaken(kind: Kind, labels: seq<Label>) returns (k: nat, msg: Message)
    requires labels != [] && Run(kind, labels).panicked && !Run(kind, labels[..|labels| - 1]).panicked
    ensures Overtaken(kind, labels, k, |labels| - 1, msg)
  {
    var m := |labels| - 1;
    var c := Run(kind, labels[..m]);
    PanicStep(c, labels[m]);
    KindStays(kind, labels[..m]);
    msg := c.reader.msg;
    HeldSinceLookup(kind, labels[..m], msg);
    k :| HeldFrom(kind, labels[..m], k, msg);
  }

  lemma OvertakenPanics(kind: Kind, labels: seq<Label>, k: nat, msg: Message)
    requires labels != [] && Overtaken(kind, labels, k, |labels| - 1, msg)
    ensures Run(kind, labels).panicked
  {
    var m := |labels| - 1;
    var c := Run(kind, labels[..m]);
    if !c.panicked {
      HeldSinceLookup(kind, labels[..m], msg);
      KindStays(kind, labels[..m]);
      PanicStep(c, labels[m]);
    }
  }

  lemma LastStepPanics(kind: Kind, labels: seq<Label>)
    requires labels != []
    ensures var m := |labels| - 1;
      Run(kind, labels).panicked <==> Run(kind, labels[..m]).panicked || exists k, msg :: Overtaken(kind, labels, k, m, msg)
  {
    var m := |labels| - 1;
    if Run(kind, labels).panicked && !Run(kind, labels[..m]).panicked {
      var k, msg := PanicIsOvertaken(kind, labels);
    }
    if k, msg :| Overtaken(kind, labels, k, m, msg) {
      OvertakenPanics(kind, labels, k, msg);
    }
  }

  /** The lookup did come before the removal, and closing before the handler. */
  lemma OvertakenOrder(kind: Kind, labels: seq<Label>, k: nat, n: nat, msg: Message)
    requires Overtaken(kind, labels, k, n, msg)
    ensures k < n && Run(kind, labels[..k]).stage in {Open, Ending} && Run(kind, labels[..n]).stage == Closed
  {
    assert labels[..n][..k] == labels[..k];
    RunsDeliverInOrder(kind, labels[..k]);
  }

  function Overtaking(msg: Message, viaDone: bool): seq<Label> {
    [Lookup(msg), Fail("context canceled"), Remove, Signal, Shut, Act(viaDone)]
  }

  /** Both kinds of call can panic in this way, and the same run survives when the select
      takes doneCh. */
  lemma OvertakenRuns(viaDone: bool)
    ensures Run(Streaming, Overtaking(ChunkMsg(Some("x")), viaDone)).panicked <==> !viaDone
    ensures Run(Single, Overtaking(LoadResponse, viaDone)).panicked <==> !viaDone
  {
    OvertakingRun(Streaming, ChunkMsg(Some("x")), viaDone);
    OvertakingRun(Single, LoadResponse, viaDone);
  }

  lemma OvertakingRun(kind: Kind, msg: Message, viaDone: bool)
    requires Sends(kind, msg)
    ensures Run(kind, Overtaking(msg, viaDone)).panicked <==> !viaDone
  {
    var closed := Overtaking(msg, viaDone)[..5];
    ClosedWhileHeld(kind, msg, viaDone);
    assert Overtaking(msg, viaDone) == closed + [Act(viaDone)];
    RunSnoc(kind, closed, Act(viaDone));
    PanicStep(Run(kind, closed), Act(viaDone));
  }

  lemma ClosedWhileHeld(kind: Kind, msg: Message, viaDone: bool)
    ensures Run(kind, Overtaking(msg, viaDone)[..5])
      == NewCall(kind).(reader := Holding(msg), stage := Closed, errors := ["context canceled"], inTable := false, closes := 1)
  {
    var a := [] + [Lookup(msg)] + [Fail("context canceled")];
    RunSnoc(kind, [], Lookup(msg));
    RunSnoc(kind, [] + [Lookup(msg)], Fail("context canceled"));
    RunSnoc(kind, a, Remove);
    RunSnoc(kind, a + [Remove], Signal);
    RunSnoc(kind, a + [Remove] + [Signal], Shut);
    assert Overtaking(msg, viaDone)[..5] == a + [Remove] + [Signal] + [Shut];
  }

  // One goroutine at a time.

  /** The rest of a terminal transition, with nobody in between. */
  function Closing(c: Call): Call {
    Apply(Apply(Apply(c, Remove), Signal), Shut)
  }

  /** What is left to do when a handler has acted: complete, close, return. */
  function Settle(c: Call): Call {
    if c.reader == Completing then Apply(Closing(Apply(c, Complete)), Return)
    else if c.reader == Waiting then Apply(Closing(c), Return)
    else c
  }

  /** A whole routeResponse. */
  function Routed(c: Call, msg: Message): Call {
    if c.inTable then Settle(Apply(Apply(c, Lookup(msg)), Act(false))) else c
  }

  lemma ClosingIs(c: Call)
    requires c.stage == Ending && !c.panicked
    ensures Closing(c) == c.(inTable := false, stage := Closed, closes := c.closes + 1)
  {
  }

  lemma ClosingKeepsInv(c: Call)
    requires Inv(c)
    ensures Inv(Closing(c))
  {
    var removed := Apply(c, Remove);
    StepKeepsInv(c, Remove);
    StepKeepsInv(removed, Signal);
    StepKeepsInv(Apply(removed, Signal), Shut);
  }

  // What each message does to an open call, told without the handlers.

  /** An open call that is found in the table by an idle reader. */
  predicate Ready(c: Call) {
    c.inTable && c.stage == Open && c.reader == Idle && !c.panicked
  }

  /** Nothing but bookkeeping of what arrived has changed. */
  predicate StaysOpen(c: Call, d: Call) {
    d == c.(arrived := d.arrived, skipped := d.skipped, channel := d.channel)
  }

  /** The call has left the table, its channels are closed, the reader is free again. */
  predicate Ended(c: Call, d: Call) {
    && !d.inTable && d.stage == Closed && d.closes == c.closes + 1 && d.reader == Idle && !d.panicked
    && d.drained == c.drained
  }

  lemma SettleEnds(c: Call)
    requires !c.panicked && c.reader == Waiting && c.stage == Ending
    ensures Settle(c) == c.(inTable := false, stage := Closed, closes := c.closes + 1, reader := Idle)
  {
    ClosingIs(c);
  }

  lemma SettleCompletes(c: Call)
    requires !c.panicked && c.reader == Completing && c.stage == Open
    ensures Ended(c, Settle(c)) && Settle(c).errors == c.errors
    ensures Settle(c).channel == if c.kind == Streaming && |c.channel| < SEND_QUEUE_SIZE then c.channel + [Done] else c.channel
  {
    ClosingIs(Apply(c, Complete));
  }

  /** An error, in whatever message, ends an open call with that error, and nothing is sent:
      no Done and no event. So does a payload that does not decode, for a stream. */
  lemma ErrorsEndTheCall(c: Call, e: string)
    requires Ready(c) && c.errors == [] && e != ""
    ensures forall msg | msg == ErrorMsg(e) || (c.kind == Streaming && msg.ResponseMsg? && msg.error == e) ::
      Ended(c, Routed(c, msg)) && Routed(c, msg).errors == [e] && Routed(c, msg).channel == c.channel
  {
    forall msg | msg == ErrorMsg(e) || (c.kind == Streaming && msg.ResponseMsg? && msg.error == e)
      ensures Ended(c, Routed(c, msg)) && Routed(c, msg).errors == [e] && Routed(c, msg).channel == c.channel
    {
      AbortRoute(c, msg, e);
    }
  }

  lemma AbortRoute(c: Call, msg: Message, e: string)
    requires Ready(c) && c.errors == [] && ActionOf(c.kind, msg) == Abort(e)
    ensures Ended(c, Routed(c, msg)) && Routed(c, msg).errors == [e] && Routed(c, msg).channel == c.channel
  {
    var acted := Apply(Apply(c, Lookup(msg)), Act(false));
    assert acted == c.(stage := Ending, errors := [e], reader := Waiting);
    SettleEnds(acted);
  }

  lemma UndecodableEndsTheStream(c: Call)
    requires Ready(c) && c.errors == [] && c.kind == Streaming
    ensures forall msg | msg in {ChunkMsg(None), BadResponse} ::
      Ended(c, Routed(c, msg)) && |Routed(c, msg).errors| == 1 && Routed(c, msg).channel == c.channel
  {
    AbortRoute(c, ChunkMsg(None), "bad chunk payload");
    AbortRoute(c, BadResponse, "bad response payload");
  }

  /** Text that arrives for a stream is framed and sent, or dropped if 256 events wait; the
      stream stays open. An empty response that is not done does nothing. */
  lemma TextIsFramed(c: Call, x: string)
    requires Ready(c) && c.kind == Streaming
    ensures forall msg | msg == ChunkMsg(Some(x)) || (msg == ResponseMsg("", x, false) && x != "") ::
      StaysOpen(c, Routed(c, msg))
      && Routed(c, msg).channel == if |c.channel| < 256 then c.channel + [Data("data: " + x + "\n\n")] else c.channel
    ensures Routed(c, ResponseMsg("", "", false)) == c
  {
  }

  /** A done response ends a stream without an error: its text first, if any, then Done,
      each if there is room. */
  lemma DoneEndsTheStream(c: Call, x: string)
    requires Ready(c) && c.kind == Streaming
    ensures var d := Routed(c, ResponseMsg("", x, true));
      var text: seq<Event> := if x == "" || |c.channel| >= 256 then [] else [Data("data: " + x + "\n\n")];
      && Ended(c, d) && d.errors == c.errors
      && d.channel == c.channel + text + if |c.channel + text| < 256 then [Done] else []
  {
    var acted := Apply(Apply(c, Lookup(ResponseMsg("", x, true))), Act(false));
    assert acted.reader == Completing && acted.stage == Open;
    SettleCompletes(acted);
  }

  /** A single-response call is sent its response, of either type, as it came, and ends
      without an error, decodable or not. */
  lemma ResponseEndsTheCall(c: Call, msg: Message)
    requires Ready(c) && c.kind == Single && |c.channel| < 4
    requires msg.ResponseMsg? || msg == BadResponse || msg == LoadResponse
    ensures Ended(c, Routed(c, msg)) && Routed(c, msg).errors == c.errors && Routed(c, msg).channel == c.channel + [Reply(msg)]
  {
    var acted := Apply(Apply(c, Lookup(msg)), Act(false));
    assert acted.reader == Completing && acted.stage == Open;
    SettleCompletes(acted);
  }

  /** Everything else leaves the call as it was. */
  lemma OthersAreIgnored(c: Call, msg: Message)
    requires Ready(c)
    requires msg == OtherMsg || (c.kind == Streaming && msg == LoadResponse) || (c.kind == Single && msg.ChunkMsg?)
    ensures Routed(c, msg) == c
  {
  }

  /** Whatever else is going on, the event that a handler brings is the framed text of a
      stream or the response itself; what has no text or response brings none. */
  lemma HandlersBring(c: Call, viaDone: bool)
    requires c.reader.Holding? && !c.panicked && !Apply(c, Act(viaDone)).panicked
    ensures var d, msg := Apply(c, Act(viaDone)), c.reader.msg;
      && (c.kind == Streaming && msg.ChunkMsg? && msg.chunk.Some? ==>
          d.arrived == c.arrived + [Data("data: " + msg.chunk.value + "\n\n")])
      && (c.kind == Streaming && msg.ResponseMsg? && msg.error == "" && msg.response != "" ==>
          d.arrived == c.arrived + [Data("data: " + msg.response + "\n\n")])
      && (c.kind == Single && (msg.ResponseMsg? || msg == BadResponse || msg == LoadResponse) ==> d.arrived == c.arrived + [Reply(msg)])
      && (msg.ErrorMsg? || msg == OtherMsg || (c.kind == Streaming && msg.ResponseMsg? && (msg.error != "" || msg.response == "")) ==>
          d.arrived == c.arrived)
  {
    var action := ActionOf(c.kind, c.reader.msg);
    if action.Send? {
      assert Choose(c, viaDone) != Panic;
    }
  }

  /** And an error that a handler brings to an open call starts its end with that error. */
  lemma HandlersFail(c: Call, viaDone: bool, e: string)
    requires c.reader.Holding? && !c.panicked && c.stage == Open && c.errors == []
    requires c.reader.msg == ErrorMsg(e) || (c.kind == Streaming && c.reader.msg.ResponseMsg? && c.reader.msg.error == e && e != "")
    ensures Apply(c, Act(viaDone)) == c.(stage := Ending, errors := [e], reader := Waiting)
  {
  }

  /** A cancellation or shutdown ends an open call with its error, wherever the reader is,
      and the events sent before stay. */
  lemma CancelEndsTheCall(c: Call, e: string)
    requires c.stage == Open && c.errors == [] && !c.panicked
    ensures var d := Closing(Apply(c, Fail(e)));
      d == c.(inTable := false, stage := Closed, closes := c.closes + 1, errors := [e])
  {
    ClosingIs(Apply(c, Fail(e)));
  }

  /** The pendingCall as the hub keeps it; `stage` stands for closeOnce, removeOnce and the
      closed channels. Its methods are the handlers and the once-guarded terminations. */
  class PendingCall {
    const kind: Kind
    var inTable: bool
    var stage: Stage
    var ch: seq<Event>
    var errCh: seq<string>
    ghost var state: Call

    ghost predicate Valid()
      reads this
    {
      && Inv(state) && !state.panicked
      && state.kind == kind && state.inTable == inTable && state.stage == stage
      && state.channel == ch && state.errors == errCh
    }

    constructor (kind: Kind)
      ensures Valid() && state == NewCall(kind) && this.kind == kind
    {
      this.kind, inTable, stage, ch, errCh, state := kind, true, Open, [], [], NewCall(kind);
      new;
      NewCallInv(kind);
    }

    /** finish: leave the table, close doneCh, close the event channel. */
    method FinishCall()
      requires Valid() && stage == Ending
      modifies this
      ensures Valid() && state == Closing(old(state))
    {
      ClosingKeepsInv(state);
      ClosingIs(state);
      inTable := false;
      stage := Closed;
      state := Closing(state);
    }

    /** fail, while no other goroutine is inside closeOnce. */
    method FailWith(err: string)
      requires Valid() && stage in {Open, Closed}
      modifies this
      ensures Valid() && state == if old(stage) == Open then Closing(Apply(old(state), Fail(err))) else old(state)
    {
      if stage == Open {
        StepKeepsInv(state, Fail(err));
        FailStep(state, err);
        if |errCh| < ERR_CAP {
          errCh := errCh + [err];
        }
        stage := Ending;
        state := Apply(state, Fail(err));
        FinishCall();
      }
    }

    /** finish, then the handler returns. */
    method FinishAndReturn()
      requires Valid() && stage == Ending && state.reader == Waiting
      modifies this
      ensures Valid() && state == Apply(Closing(old(state)), Return)
    {
      FinishCall();
      StepKeepsInv(state, Return);
      state := Apply(state, Return);
    }

    /** completeStream or completeCall, called by the handler. */
    method CompleteCall()
      requires Valid() && stage == Open && state.reader == Completing
      modifies this
      ensures Valid() && state == Settle(old(state))
    {
      StepKeepsInv(state, Complete);
      if kind == Streaming && |ch| < SEND_QUEUE_SIZE {
        ch := ch + [Done];
      }
      stage := Ending;
      state := Apply(state, Complete);
      FinishAndReturn();
    }

    /** A handler that fails the call it holds. */
    method AbortHeld(err: string)
      requires Valid() && stage == Open && state.reader.Holding? && ActionOf(kind, state.reader.msg) == Abort(err)
      modifies this
      ensures Valid() && state == Settle(Apply(old(state), Act(false)))
    {
      StepKeepsInv(state, Act(false));
      AbortStep(state, err);
      if |errCh| < ERR_CAP {
        errCh := errCh + [err];
      }
      stage := Ending;
      state := Apply(state, Act(false));
      FinishAndReturn();
    }

    /** The handler's select on an open call: send, or drop on a full event channel. A
        response channel always has room. */
    method Offer(event: Event)
      requires Valid() && stage == Open && state.reader.Holding?
      requires ActionOf(kind, state.reader.msg).Send? && ActionOf(kind, state.reader.msg).event == event
      modifies this
      ensures Valid() && stage == Open && state == Apply(old(state), Act(false))
    {
      StepKeepsInv(state, Act(false));
      RoomForReply(state);
      OfferStep(state);
      if |ch| < Capacity(kind) {
        ch := ch + [event];
      }
      state := Apply(state, Act(false));
    }

    /** streamPendingHandler. */
    method HandleStream(msg: Message)
      requires Valid() && kind == Streaming && stage == Open && state.reader == Holding(msg)
      modifies this
      ensures Valid() && state == Settle(Apply(old(state), Act(false)))
    {
      match msg {
        case ChunkMsg(None) => AbortHeld("bad chunk payload");
        case ChunkMsg(Some(chunk)) => Offer(Data(Frame(chunk)));
        case BadResponse => AbortHeld("bad response payload");
        case ResponseMsg(error, response, done) =>
          if error != "" {
            AbortHeld(error);
            return;
          }
          if |response| > 0 {
            Offer(Data(Frame(response)));
          } else {
            StepKeepsInv(state, Act(false));
            state := Apply(state, Act(false));
          }
          if done {
            CompleteCall();
          }
        case ErrorMsg(text) => AbortHeld(text);
        case LoadResponse =>
          StepKeepsInv(state, Act(false));
          state := Apply(state, Act(false));
        case OtherMsg =>
          StepKeepsInv(state, Act(false));
          state := Apply(state, Act(false));
      }
    }

    /** callPendingHandler. */
    method HandleSingle(msg: Message)
      requires Valid() && kind == Single && stage == Open && state.reader == Holding(msg)
      modifies this
      ensures Valid() && state == Settle(Apply(old(state), Act(false)))
    {
      match msg {
        case ErrorMsg(text) => AbortHeld(text);
        case ChunkMsg(chunk) =>
          StepKeepsInv(state, Act(false));
          state := Apply(state, Act(false));
        case OtherMsg =>
          StepKeepsInv(state, Act(false));
          state := Apply(state, Act(false));
        case _ =>
          Offer(Reply(msg));
          CompleteCall();
      }
    }

    /** routeResponse, with nobody between the lookup and the handler. */
    method RouteResponse(msg: Message) returns (consumed: bool)
      requires Valid() && stage in {Open, Closed} && state.reader == Idle
      modifies this
      ensures Valid() && state == Routed(old(state), msg) && consumed == old(inTable)
    {
      if !inTable {
        return false;
      }
      StepKeepsInv(state, Lookup(msg));
      state := Apply(state, Lookup(msg));
      if kind == Streaming {
        HandleStream(msg);
      } else {
        HandleSingle(msg);
      }
      return true;
    }
  }

  lemma FailStep(c: Call, err: string)
    requires Staged(c) && !c.panicked && c.stage == Open
    ensures Apply(c, Fail(err)) == c.(stage := Ending, errors := [err])
  {
  }

  /** The select of an open call with room, or of a stream without. */
  lemma OfferStep(c: Call)
    requires !c.panicked && c.stage == Open && c.reader.Holding? && Sends(c.kind, c.reader.msg)
    requires c.kind == Single ==> |c.channel| < Capacity(c.kind)
    ensures var d, event := Apply(c, Act(false)), ActionOf(c.kind, c.reader.msg).event;
      && d == c.(arrived := d.arrived, skipped := d.skipped, reader := d.reader, channel := d.channel)
      && d.channel == if |c.channel| < Capacity(c.kind) then c.channel + [event] else c.channel
  {
  }

  lemma AbortStep(c: Call, err: string)
    requires Staged(c) && !c.panicked && c.stage == Open && c.reader.Holding? && ActionOf(c.kind, c.reader.msg) == Abort(err)
    ensures Apply(c, Act(false)) == c.(stage := Ending, errors := [err], reader := Waiting)
  {
  }

  /** The default case of a single-response call's select is never taken: while its
      handler holds a message, nothing has been sent yet. */
  lemma RoomForReply(c: Call)
    requires Inv(c) && c.reader.Holding?
    ensures c.kind == Single ==> Sent(c) == [] && c.channel == [] && |c.channel| < Capacity(c.kind)
  {
  }
}
