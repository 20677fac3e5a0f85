/** The relay broker: the bounded worker queue, the flush towards the router, and the
    generations of router connections.

    A run is any interleaving of buffered messages, router connects, reader and writer
    exits, writes, direct sends and flushes. A flush takes its snapshot of the published
    connection, takes the queue, and then sends frame by frame, each as its own step;
    `FlushAll` is a whole flush as one step. Frames are numbered in order of arrival. */
module RelayBroker {
  import opened Counting
  import opened Protocol
  import opened Sequences

  type Frame = nat

  datatype Writer = Running | Exiting | Gone

  /** One router connection with its own outbound channel and loops; `accepted` is
      everything its channel ever took, `written` what reached its socket. */
  datatype Generation = Generation(
    channel: seq<Frame>, accepted: seq<Frame>, written: seq<Frame>, lost: seq<Frame>, reader: bool, writer: Writer)

  /** What routerMu publishes: the connection and the send channel. */
  datatype Published = Published(conn: Option<nat>, ch: Option<nat>)

  /** A flush in progress: its snapshot, whether it took the queue, what is in its hand. */
  datatype Flush = Flush(snap: Published, taken: bool, rest: seq<Frame>)

  datatype Broker = Broker(
    queue: seq<Frame>, pub: Published, gens: seq<Generation>, flushes: seq<Flush>,
    snaps: seq<Published>, dropped: seq<Frame>, refused: seq<Frame>, forwarded: seq<Frame>, next: Frame)

  datatype Label =
    | Buffer
    | Connect
    | ReaderExit(gen: nat)
    | WriterStop(gen: nat)
    | WriterClear(gen: nat)
    | Write(gen: nat, ok: bool)
    | Snapshot
    | DirectSend(snap: nat)
    | FlushBegin
    | FlushTake(flush: nat)
    | FlushSend(flush: nat)
    | FlushAll

  const NewBroker := Broker([], Published(None, None), [], [], [], [], [], [], 0)

  function Pushed(g: Generation, frames: seq<Frame>): Generation {
    g.(channel := g.channel + frames, accepted := g.accepted + frames)
  }

  /** Room left in the snapshot's channel; a nil channel has none. */
  function Room(gens: seq<Generation>, ch: Option<nat>): nat {
    if ch.Some? && ch.value < |gens| && |gens[ch.value].channel| < SEND_QUEUE_SIZE
    then SEND_QUEUE_SIZE - |gens[ch.value].channel| else 0
  }

  function Min(a: nat, b: nat): nat {
    if a <= b then a else b
  }

  function Accept(b: Broker, ch: Option<nat>, frames: seq<Frame>): Broker
    requires |frames| <= Room(b.gens, ch)
  {
    if frames == [] then b else b.(gens := b.gens[ch.value := Pushed(b.gens[ch.value], frames)])
  }

  function Buffered(b: Broker): Broker {
    var full := |b.queue| >= SEND_QUEUE_SIZE;
    b.(queue := (if full then b.queue[1..] else b.queue) + [b.next],
       dropped := if full then b.dropped + [b.queue[0]] else b.dropped,
       next := b.next + 1)
  }

  /** enqueueRouter returns an error, and its callers drop the frame. */
  function Refuse(b: Broker): Broker {
    b.(refused := b.refused + [b.next], next := b.next + 1)
  }

  function FlushedAll(b: Broker): Broker {
    if b.pub.conn.None? then b
    else
      var k := Min(|b.queue|, Room(b.gens, b.pub.ch));
      Accept(b, b.pub.ch, b.queue[..k]).(queue := b.queue[k..], forwarded := b.forwarded + b.queue[..k])
  }

  function Apply(b: Broker, l: Label): Broker {
    match l
    case Buffer => Buffered(b)
    case Connect =>
      b.(gens := b.gens + [Generation([], [], [], [], true, Running)],
         pub := Published(Some(|b.gens|), Some(|b.gens|)))
    case ReaderExit(g) =>
      if g < |b.gens| && b.gens[g].reader then
        b.(gens := b.gens[g := b.gens[g].(reader := false)],
           pub := if b.pub.conn == Some(g) then b.pub.(conn := None) else b.pub)
      else b
    case WriterStop(g) =>
      if g < |b.gens| && b.gens[g].writer == Running && !b.gens[g].reader
      then b.(gens := b.gens[g := b.gens[g].(writer := Exiting)]) else b
    case WriterClear(g) =>
      if g < |b.gens| && b.gens[g].writer == Exiting then
        b.(gens := b.gens[g := b.gens[g].(writer := Gone)],
           pub := if b.pub.ch == Some(g) then b.pub.(ch := None) else b.pub)
      else b
    case Write(g, ok) =>
      if g < |b.gens| && b.gens[g].writer == Running && b.gens[g].channel != [] then
        var gen := b.gens[g];
        var frame := gen.channel[0];
        b.(gens := b.gens[g := if ok then gen.(channel := gen.channel[1..], written := gen.written + [frame])
                               else gen.(channel := gen.channel[1..], lost := gen.lost + [frame], writer := Exiting)])
      else b
    case Snapshot => b.(snaps := b.snaps + [b.pub])
    case DirectSend(i) =>
      if i >= |b.snaps| then b
      else if b.snaps[i].conn.Some? && Room(b.gens, b.snaps[i].ch) > 0 then
        Accept(b, b.snaps[i].ch, [b.next]).(next := b.next + 1)
      else Refuse(b)
    case FlushBegin => if b.pub.conn.None? then b else b.(flushes := b.flushes + [Flush(b.pub, false, [])])
    case FlushTake(i) =>
      if i < |b.flushes| && !b.flushes[i].taken then
        b.(flushes := b.flushes[i := b.flushes[i].(taken := true, rest := b.queue)], queue := [])
      else b
    case FlushSend(i) =>
      if i < |b.flushes| && b.flushes[i].rest != [] then
        var f := b.flushes[i];
        if Room(b.gens, f.snap.ch) > 0 then
          Accept(b, f.snap.ch, [f.rest[0]]).(
            flushes := b.flushes[i := f.(rest := f.rest[1..])], forwarded := b.forwarded + [f.rest[0]])
        else b.(flushes := b.flushes[i := f.(rest := [])], queue := b.queue + f.rest)
      else b
    case FlushAll => FlushedAll(b)
  }

  function Run(labels: seq<Label>): Broker {
    if labels == [] then NewBroker
    else Apply(Run(labels[..|labels| - 1]), labels[|labels| - 1])
  }

  // Generations.

  ghost predicate Matched(p: Published, gens: nat) {
    && (p.conn.Some? ==> p.conn.value < gens)
    && (p.ch.Some? ==> p.ch.value < gens)
    && (p.conn.Some? && p.ch.Some? ==> p.conn == p.ch)
  }

  /** The newest generation's connection is published exactly until its reader has exited,
      its channel exactly until its writer has cleared it; nothing else is. */
  ghost predicate Current(b: Broker) {
    var last := |b.gens| - 1;
    && b.pub.conn == (if b.gens != [] && b.gens[last].reader then Some(last) else None)
    && b.pub.ch == (if b.gens != [] && b.gens[last].writer != Gone then Some(last) else None)
  }

  /** A socket has been given a prefix of what its own channel accepted, in order; at
      most one frame was lost, in the failed write that ended the writer. Only a failed
      write ends the writer before the reader. */
  ghost predicate InOrder(g: Generation) {
    && g.accepted == g.written + g.lost + g.channel
    && |g.lost| <= 1 && (g.lost != [] ==> g.writer != Running)
    && (g.reader && g.writer != Running ==> g.lost != [])
    && |g.channel| <= SEND_QUEUE_SIZE
  }

  ghost predicate Channels(gens: seq<Generation>) {
    forall g | 0 <= g < |gens| :: InOrder(gens[g])
  }

  ghost predicate Snapped(snaps: seq<Published>, gens: nat) {
    forall i | 0 <= i < |snaps| :: Matched(snaps[i], gens)
  }

  ghost predicate Flushing(flushes: seq<Flush>, gens: nat) {
    forall i | 0 <= i < |flushes| :: Matched(flushes[i].snap, gens)
  }

  ghost predicate GenInv(b: Broker) {
    Current(b) && Channels(b.gens) && Snapped(b.snaps, |b.gens|) && Flushing(b.flushes, |b.gens|)
  }

  lemma PushKeepsOrder(g: Generation, frames: seq<Frame>)
    requires InOrder(g) && |g.channel| + |frames| <= SEND_QUEUE_SIZE
    ensures InOrder(Pushed(g, frames))
  {
  }

  lemma WriteKeepsOrder(g: Generation, ok: bool)
    requires InOrder(g) && g.writer == Running && g.channel != []
    ensures var frame := g.channel[0];
      InOrder(if ok then g.(channel := g.channel[1..], written := g.written + [frame])
              else g.(channel := g.channel[1..], lost := g.lost + [frame], writer := Exiting))
  {
    assert g.channel == [g.channel[0]] + g.channel[1..];
  }

  lemma StepKeepsCurrent(b: Broker, l: Label)
    requires Current(b)
    ensures Current(Apply(b, l)) && |b.gens| <= |Apply(b, l).gens|
  {
  }

  lemma ReplaceKeepsChannels(gens: seq<Generation>, g: nat, to: Generation)
    requires Channels(gens) && g < |gens| && InOrder(to)
    ensures Channels(gens[g := to])
  {
  }

  lemma AcceptKeepsChannels(b: Broker, ch: Option<nat>, frames: seq<Frame>)
    requires Channels(b.gens) && |frames| <= Room(b.gens, ch)
    ensures Channels(Accept(b, ch, frames).gens)
  {
    if frames != [] {
      PushKeepsOrder(b.gens[ch.value], frames);
      ReplaceKeepsChannels(b.gens, ch.value, Pushed(b.gens[ch.value], frames));
    }
  }

  /** Connects, loop exits and writes. */
  predicate LoopLabel(l: Label) {
    l.Connect? || l.ReaderExit? || l.WriterStop? || l.WriterClear? || l.Write?
  }

  lemma ExitKeepsOrder(g: Generation, l: Label)
    requires InOrder(g)
    ensures InOrder(g.(reader := false))
    ensures g.writer == Running && !g.reader ==> InOrder(g.(writer := Exiting))
    ensures g.writer == Exiting ==> InOrder(g.(writer := Gone))
  {
  }

  lemma LoopKeepsChannels(b: Broker, l: Label)
    requires Channels(b.gens) && LoopLabel(l)
    ensures Channels(Apply(b, l).gens)
  {
    if !l.Connect? && l.gen < |b.gens| {
      var g := b.gens[l.gen];
      ExitKeepsOrder(g, l);
      if l.Write? && g.writer == Running && g.channel != [] {
        WriteKeepsOrder(g, l.ok);
      }
      ReplaceKeepsChannels(b.gens, l.gen, if l.gen < |Apply(b, l).gens| then Apply(b, l).gens[l.gen] else g);
    }
  }

  lemma SendKeepsChannels(b: Broker, l: Label)
    requires Channels(b.gens) && !LoopLabel(l)
    ensures Channels(Apply(b, l).gens)
  {
    if l.DirectSend? && l.snap < |b.snaps| && Room(b.gens, b.snaps[l.snap].ch) > 0 {
      AcceptKeepsChannels(b, b.snaps[l.snap].ch, [b.next]);
    } else if l.FlushSend? && l.flush < |b.flushes| && b.flushes[l.flush].rest != [] && Room(b.gens, b.flushes[l.flush].snap.ch) > 0 {
      AcceptKeepsChannels(b, b.flushes[l.flush].snap.ch, [b.flushes[l.flush].rest[0]]);
    } else if l.FlushAll? {
      var k := Min(|b.queue|, Room(b.gens, b.pub.ch));
      AcceptKeepsChannels(b, b.pub.ch, b.queue[..k]);
    }
  }

  /** Where snapshots come from. */
  lemma SnapshotsOf(b: Broker, l: Label)
    ensures Apply(b, l).snaps == if l.Snapshot? then b.snaps + [b.pub] else b.snaps
  {
  }

  lemma FlushesOf(b: Broker, l: Label)
    ensures var flushes := Apply(b, l).flushes;
      || (l.FlushBegin? && flushes == b.flushes + [Flush(b.pub, false, [])])
      || (|flushes| == |b.flushes| && forall i | 0 <= i < |flushes| :: flushes[i].snap == b.flushes[i].snap)
  {
  }

  lemma StepKeepsSnapshots(b: Broker, l: Label)
    requires GenInv(b)
    ensures Snapped(Apply(b, l).snaps, |Apply(b, l).gens|) && Flushing(Apply(b, l).flushes, |Apply(b, l).gens|)
  {
    StepKeepsCurrent(b, l);
    SnapshotsOf(b, l);
    FlushesOf(b, l);
  }

  lemma StepKeepsGenerations(b: Broker, l: Label)
    requires GenInv(b)
    ensures GenInv(Apply(b, l))
  {
    StepKeepsCurrent(b, l);
    StepKeepsSnapshots(b, l);
    if LoopLabel(l) {
      LoopKeepsChannels(b, l);
    } else {
      SendKeepsChannels(b, l);
    }
  }

  /** In every run: connection and channel, when both published, are of one generation;
      every snapshot any sender or flush holds is too; and each socket is written a
      prefix of what its own generation's channel accepted, in that order. */
  lemma {:induction false} RunsKeepGenerations(labels: seq<Label>)
    ensures GenInv(Run(labels))
    ensures Matched(Run(labels).pub, |Run(labels).gens|)
  {
    if labels != [] {
      RunsKeepGenerations(labels[..|labels| - 1]);
      StepKeepsGenerations(Run(labels[..|labels| - 1]), labels[|labels| - 1]);
    }
  }

  /** The teardown of a generation that has been superseded publishes nothing and
      clears nothing. */
  lemma OldTeardownIsHarmless(labels: seq<Label>, g: nat)
    requires g + 1 < |Run(labels).gens|
    ensures Apply(Run(labels), ReaderExit(g)).pub == Run(labels).pub
    ensures Apply(Run(labels), WriterClear(g)).pub == Run(labels).pub
  {
    RunsKeepGenerations(labels);
  }

  // Conservation.

  function Is(f: Frame): Frame -> bool {
    (x: Frame) => x == f
  }

  /** How often a frame occurs in a sequence of frames. */
  function Occurs(s: seq<Frame>, f: Frame): nat {
    Count(s, Is(f))
  }

  function InHand(f: Frame): Flush -> nat {
    (x: Flush) => Occurs(x.rest, f)
  }

  function InGeneration(f: Frame): Generation -> nat {
    (g: Generation) => Occurs(g.accepted, f)
  }

  /** Occurrences in the worker queue, in flushes' hands, among what the generations'
      channels accepted, and among the overflow-dropped and the refused frames. */
  function Everywhere(b: Broker, f: Frame): nat {
    Occurs(b.queue, f) + Sum(b.flushes, InHand(f)) + Sum(b.gens, InGeneration(f))
      + Occurs(b.dropped, f) + Occurs(b.refused, f)
  }

  lemma OccursSplit(s: seq<Frame>, k: nat, f: Frame)
    requires k <= |s|
    ensures Occurs(s, f) == Occurs(s[..k], f) + Occurs(s[k..], f)
  {
    assert s == s[..k] + s[k..];
    CountConcat(s[..k], s[k..], Is(f));
  }

  lemma OccursOne(x: Frame, f: Frame)
    ensures Occurs([x], f) == if x == f then 1 else 0
  {
    CountAppend([], x, Is(f));
    assert [] + [x] == [x];
  }

  lemma AcceptAdds(b: Broker, ch: Option<nat>, frames: seq<Frame>, f: Frame)
    requires |frames| <= Room(b.gens, ch)
    ensures Sum(Accept(b, ch, frames).gens, InGeneration(f)) == Sum(b.gens, InGeneration(f)) + Occurs(frames, f)
  {
    if frames != [] {
      var g := b.gens[ch.value];
      SumUpdate(b.gens, ch.value, Pushed(g, frames), InGeneration(f));
      CountConcat(g.accepted, frames, Is(f));
    }
  }

  lemma BufferCounts(b: Broker, f: Frame)
    ensures Everywhere(Buffered(b), f) == Everywhere(b, f) + if f == b.next then 1 else 0
  {
    if |b.queue| >= SEND_QUEUE_SIZE {
      OccursSplit(b.queue, 1, f);
      assert b.queue[..1] == [b.queue[0]];
      OccursOne(b.queue[0], f);
      CountAppend(b.queue[1..], b.next, Is(f));
      CountAppend(b.dropped, b.queue[0], Is(f));
    } else {
      CountAppend(b.queue, b.next, Is(f));
    }
  }

  lemma FlushSendCounts(b: Broker, i: nat, f: Frame)
    ensures Everywhere(Apply(b, FlushSend(i)), f) == Everywhere(b, f)
  {
    if i < |b.flushes| && b.flushes[i].rest != [] {
      var fl := b.flushes[i];
      if Room(b.gens, fl.snap.ch) > 0 {
        AcceptAdds(b, fl.snap.ch, [fl.rest[0]], f);
        SumUpdate(b.flushes, i, fl.(rest := fl.rest[1..]), InHand(f));
        OccursSplit(fl.rest, 1, f);
        assert fl.rest[..1] == [fl.rest[0]];
      } else {
        SumUpdate(b.flushes, i, fl.(rest := []), InHand(f));
        CountConcat(b.queue, fl.rest, Is(f));
      }
    }
  }

  lemma FlushAllCounts(b: Broker, f: Frame)
    ensures Everywhere(FlushedAll(b), f) == Everywhere(b, f)
  {
    if b.pub.conn.Some? {
      var k := Min(|b.queue|, Room(b.gens, b.pub.ch));
      AcceptAdds(b, b.pub.ch, b.queue[..k], f);
      OccursSplit(b.queue, k, f);
    }
  }

  lemma SameGenerations(b: Broker, g: nat, to: Generation, f: Frame)
    requires g < |b.gens| && to.accepted == b.gens[g].accepted
    ensures Sum(b.gens[g := to], InGeneration(f)) == Sum(b.gens, InGeneration(f))
  {
    SumUpdate(b.gens, g, to, InGeneration(f));
  }

  /** Steps of the loops of one generation move no frame in or out of what it accepted. */
  lemma LoopStepCounts(b: Broker, l: Label, f: Frame)
    requires l.ReaderExit? || l.WriterStop? || l.WriterClear? || l.Write?
    ensures Everywhere(Apply(b, l), f) == Everywhere(b, f) && Apply(b, l).next == b.next
  {
    var b' := Apply(b, l);
    var g := match l case ReaderExit(g) => g case WriterStop(g) => g case WriterClear(g) => g case Write(g, _) => g case _ => 0;
    if g < |b.gens| {
      SameGenerations(b, g, b'.gens[g], f);
      assert b'.gens == b.gens[g := b'.gens[g]];
    }
  }

  lemma DirectSendCounts(b: Broker, i: nat, f: Frame)
    ensures var b' := Apply(b, DirectSend(i));
      Everywhere(b', f) == Everywhere(b, f) + (if b.next < b'.next && f == b.next then 1 else 0)
  {
    if i < |b.snaps| && b.snaps[i].conn.Some? && Room(b.gens, b.snaps[i].ch) > 0 {
      AcceptAdds(b, b.snaps[i].ch, [b.next], f);
      OccursOne(b.next, f);
    } else {
      CountAppend(b.refused, b.next, Is(f));
    }
  }

  /** A flush that has not taken the queue holds nothing. */
  ghost predicate HandsTaken(b: Broker) {
    forall i | 0 <= i < |b.flushes| :: !b.flushes[i].taken ==> b.flushes[i].rest == []
  }

  lemma StepKeepsHands(b: Broker, l: Label)
    requires HandsTaken(b)
    ensures HandsTaken(Apply(b, l)) && b.next <= Apply(b, l).next <= b.next + 1
  {
  }

  lemma FlushTakeCounts(b: Broker, i: nat, f: Frame)
    requires HandsTaken(b)
    ensures Everywhere(Apply(b, FlushTake(i)), f) == Everywhere(b, f)
  {
    if i < |b.flushes| {
      SumUpdate(b.flushes, i, b.flushes[i].(taken := true, rest := b.queue), InHand(f));
    }
  }

  lemma BeginCounts(b: Broker, l: Label, f: Frame)
    requires l.Connect? || l.FlushBegin? || l.Snapshot?
    ensures Everywhere(Apply(b, l), f) == Everywhere(b, f) && Apply(b, l).next == b.next
  {
    SumAppend(b.gens, Generation([], [], [], [], true, Running), InGeneration(f));
    SumAppend(b.flushes, Flush(b.pub, false, []), InHand(f));
  }

  /** A step creates only the next frame, and otherwise moves frames between places. */
  lemma StepCounts(b: Broker, l: Label, f: Frame)
    requires HandsTaken(b)
    ensures var b' := Apply(b, l);
      Everywhere(b', f) == Everywhere(b, f) + (if b.next < b'.next && f == b.next then 1 else 0)
  {
    match l
    case Buffer => BufferCounts(b, f);
    case Connect => BeginCounts(b, l, f);
    case Snapshot => BeginCounts(b, l, f);
    case DirectSend(i) => DirectSendCounts(b, i, f);
    case FlushBegin => BeginCounts(b, l, f);
    case FlushTake(i) => FlushTakeCounts(b, i, f);
    case FlushSend(i) => FlushSendCounts(b, i, f);
    case FlushAll => FlushAllCounts(b, f);
    case _ => LoopStepCounts(b, l, f);
  }

  /** In every interleaving each frame that ever arrived is in exactly one place, once:
      the worker queue, some flush's hand, what some generation's channel accepted, or
      the overflow-dropped frames, or the refused ones; and nothing else is anywhere. */
  lemma {:induction false} ExactlyOnePlace(labels: seq<Label>, f: Frame)
    ensures Everywhere(Run(labels), f) == if f < Run(labels).next then 1 else 0
    ensures HandsTaken(Run(labels))
  {
    if labels != [] {
      ExactlyOnePlace(labels[..|labels| - 1], f);
      StepCounts(Run(labels[..|labels| - 1]), labels[|labels| - 1], f);
      StepKeepsHands(Run(labels[..|labels| - 1]), labels[|labels| - 1]);
    }
  }

  // Order and bound, when every flush is one step.

  predicate WholeFlushes(labels: seq<Label>) {
    forall l | l in labels :: !(l.FlushBegin? || l.FlushTake? || l.FlushSend?)
  }

  ghost predicate Ascending(s: seq<Frame>) {
    forall i, j | 0 <= i < j < |s| :: s[i] < s[j]
  }

  /** Forwarded frames and queued frames ascend, all forwarded before all queued. */
  ghost predicate Ordered(b: Broker) {
    && |b.queue| <= SEND_QUEUE_SIZE
    && Ascending(b.forwarded) && Ascending(b.queue)
    && (forall i, j | 0 <= i < |b.forwarded| && 0 <= j < |b.queue| :: b.forwarded[i] < b.queue[j])
    && (forall i | 0 <= i < |b.forwarded| :: b.forwarded[i] < b.next)
    && (forall j | 0 <= j < |b.queue| :: b.queue[j] < b.next)
    && b.flushes == []
  }

  /** What an overflow dropped is older than everything still queued. */
  ghost predicate OldestDropped(b: Broker) {
    && (forall i, j | 0 <= i < |b.dropped| && 0 <= j < |b.queue| :: b.dropped[i] < b.queue[j])
    && (forall i | 0 <= i < |b.dropped| :: b.dropped[i] < b.next)
  }

  lemma StepDropsOldest(b: Broker, l: Label)
    requires Ordered(b) && OldestDropped(b) && !l.FlushBegin?
    ensures OldestDropped(Apply(b, l))
  {
    if l.Buffer? {
      BufferDropsOldest(b);
    }
  }

  lemma BufferDropsOldest(b: Broker)
    requires Ordered(b) && OldestDropped(b)
    ensures OldestDropped(Buffered(b))
  {
  }

  lemma BufferKeepsOrder(b: Broker)
    requires Ordered(b)
    ensures Ordered(Buffered(b))
  {
  }

  lemma FlushAllKeepsOrder(b: Broker)
    requires Ordered(b)
    ensures Ordered(FlushedAll(b))
  {
  }

  lemma StepKeepsOrder(b: Broker, l: Label)
    requires Ordered(b) && !(l.FlushBegin? || l.FlushTake? || l.FlushSend?)
    ensures Ordered(Apply(b, l))
  {
    if l.Buffer? {
      BufferKeepsOrder(b);
    } else if l.FlushAll? {
      FlushAllKeepsOrder(b);
    }
  }

  /** With whole flushes the queue never exceeds its cap, and frames are forwarded in
      arrival order, ahead of everything still queued. */
  lemma {:induction false} WholeFlushesKeepOrder(labels: seq<Label>)
    requires WholeFlushes(labels)
    ensures Ordered(Run(labels)) && Ascending(Run(labels).forwarded + Run(labels).queue) && OldestDropped(Run(labels))
  {
    if labels != [] {
      var n := |labels| - 1;
      assert labels[n] in labels && forall l | l in labels[..n] :: l in labels;
      WholeFlushesKeepOrder(labels[..n]);
      StepKeepsOrder(Run(labels[..n]), labels[n]);
      StepDropsOldest(Run(labels[..n]), labels[n]);
    }
  }

  // What the operations do, told on the queues.

  /** The arriving frame is always kept; a full queue loses its first frame for it. */
  lemma BufferKeepsNewest(b: Broker)
    ensures |b.queue| < 256 ==> Buffered(b).queue == b.queue + [b.next] && Buffered(b).dropped == b.dropped
    ensures |b.queue| >= 256 ==> (
      Buffered(b).queue == b.queue[1..] + [b.next] && Buffered(b).dropped == b.dropped + [b.queue[0]])
  {
  }

  /** A whole flush moves frames from the front of the queue to the end of the published
      channel, and leaves some only when the channel is full; without a connection or a
      channel it moves none. */
  lemma FlushMeans(labels: seq<Label>)
    ensures var b := Run(labels); var b' := Apply(b, FlushAll);
      if b.pub.conn.Some? && b.pub.ch.Some? then
        var g := b.pub.ch.value;
        && g < |b.gens| && g < |b'.gens|
        && |b'.queue| <= |b.queue| && b'.queue == b.queue[|b.queue| - |b'.queue|..]
        && b'.gens[g].channel == b.gens[g].channel + b.queue[..|b.queue| - |b'.queue|]
        && (b'.queue == [] || |b'.gens[g].channel| >= 256)
      else b'.queue == b.queue && b'.gens == b.gens
  {
    var b := Run(labels);
    RunsKeepGenerations(labels);
    if b.pub.conn.Some? && b.pub.ch.Some? {
      var k := Min(|b.queue|, Room(b.gens, b.pub.ch));
      assert InOrder(b.gens[b.pub.ch.value]);
      assert |b.queue[k..]| == |b.queue| - k;
    } else if b.pub.conn.Some? {
      assert b.queue[0..] == b.queue;
    }
  }

  /** A direct send puts the frame at the end of the snapshot's channel exactly when the
      snapshot has a connection and the channel has room; otherwise the frame is refused. */
  lemma DirectSendMeans(labels: seq<Label>, i: nat)
    requires i < |Run(labels).snaps|
    ensures var b := Run(labels); var b', snap := Apply(b, DirectSend(i)), b.snaps[i];
      if snap.conn.Some? && snap.ch.Some? && snap.ch.value < |b.gens| && |b.gens[snap.ch.value].channel| < 256 then
        var g := snap.ch.value;
        b'.gens == b.gens[g := b.gens[g].(channel := b.gens[g].channel + [b.next], accepted := b.gens[g].accepted + [b.next])]
        && b'.refused == b.refused
      else b'.gens == b.gens && b'.refused == b.refused + [b.next]
  {
  }

  /** The sends of one flush, with nobody in between. */
  function Sends(b: Broker, i: nat, n: nat): Broker
    decreases n
  {
    if n == 0 then b else Sends(Apply(b, FlushSend(i)), i, n - 1)
  }

  lemma AcceptTwice(b: Broker, ch: Option<nat>, x: Frame, more: seq<Frame>)
    requires Room(b.gens, ch) >= 1 + |more|
    ensures |more| <= Room(Accept(b, ch, [x]).gens, ch)
    ensures Accept(Accept(b, ch, [x]), ch, more).gens == Accept(b, ch, [x] + more).gens
  {
    var g := b.gens[ch.value];
    var one, all := Pushed(g, [x]), Pushed(g, [x] + more);
    assert Pushed(one, more) == all by {
      assert g.channel + [x] + more == g.channel + ([x] + more);
      assert g.accepted + [x] + more == g.accepted + ([x] + more);
    }
    assert b.gens[ch.value := one][ch.value := all] == b.gens[ch.value := all];
    assert more == [] ==> one == all;
  }

  /** As many of `rest` as fit went to the channel, the others back to the queue. */
  ghost predicate SentOut(b: Broker, b': Broker, rest: seq<Frame>, ch: Option<nat>) {
    var k := Min(|rest|, Room(b.gens, ch));
    && b'.queue == b.queue + rest[k..] && b'.forwarded == b.forwarded + rest[..k]
    && b'.gens == Accept(b, ch, rest[..k]).gens && b'.pub == b.pub
  }

  /** One frame sent and the others sent out are all sent out. */
  lemma SentOutMore(b: Broker, b1: Broker, b': Broker, x: Frame, more: seq<Frame>, ch: Option<nat>)
    requires Room(b.gens, ch) > 0 && SentOut(b1, b', more, ch)
    requires b1.queue == b.queue && b1.forwarded == b.forwarded + [x] && b1.gens == Accept(b, ch, [x]).gens && b1.pub == b.pub
    ensures SentOut(b, b', [x] + more, ch)
  {
    SendRoom(b, ch, x);
    var rest := [x] + more;
    var k := Min(|more|, Room(b1.gens, ch));
    assert Min(|rest|, Room(b.gens, ch)) == k + 1;
    AcceptTwice(b, ch, x, more[..k]);
    assert rest[..k + 1] == [x] + more[..k] && rest[k + 1..] == more[k..];
    assert b.forwarded + [x] + more[..k] == b.forwarded + ([x] + more[..k]);
    AcceptSame(b1, Accept(b, ch, [x]), ch, more[..k]);
  }

  lemma AcceptSame(a: Broker, b: Broker, ch: Option<nat>, frames: seq<Frame>)
    requires a.gens == b.gens && |frames| <= Room(a.gens, ch)
    ensures Accept(a, ch, frames).gens == Accept(b, ch, frames).gens
  {
  }

  lemma NothingSentOut(b: Broker, ch: Option<nat>)
    ensures SentOut(b, b, [], ch)
  {
    var none: seq<Frame> := [];
    assert none[..0] == none && none[0..] == none && b.queue + none == b.queue && b.forwarded + none == b.forwarded;
  }

  lemma {:induction false} SendsNothing(b: Broker, i: nat, n: nat)
    requires i < |b.flushes| && b.flushes[i].rest == []
    ensures Sends(b, i, n) == b
    decreases n
  {
    if n > 0 {
      SendsNothing(b, i, n - 1);
    }
  }

  /** Sending frame by frame: as many as fit go to the channel, the rest go back. */
  lemma {:induction false} SendsMean(b: Broker, i: nat, n: nat)
    requires i < |b.flushes| && |b.flushes[i].rest| <= n
    ensures SentOut(b, Sends(b, i, n), b.flushes[i].rest, b.flushes[i].snap.ch)
    decreases n
  {
    var f := b.flushes[i];
    var b1 := Apply(b, FlushSend(i));
    if f.rest == [] {
      SendsNothing(b, i, n);
      NothingSentOut(b, f.snap.ch);
    } else if Room(b.gens, f.snap.ch) > 0 {
      assert b1.flushes[i] == f.(rest := f.rest[1..]);
      SendsMean(b1, i, n - 1);
      SentOutMore(b, b1, Sends(b1, i, n - 1), f.rest[0], f.rest[1..], f.snap.ch);
      assert f.rest == [f.rest[0]] + f.rest[1..];
    } else {
      SendsNothing(b1, i, n - 1);
      GivenBack(b, b1, f.rest, f.snap.ch);
    }
  }

  lemma GivenBack(b: Broker, b': Broker, rest: seq<Frame>, ch: Option<nat>)
    requires Room(b.gens, ch) == 0 && b'.queue == b.queue + rest
    requires b'.forwarded == b.forwarded && b'.gens == b.gens && b'.pub == b.pub
    ensures SentOut(b, b', rest, ch)
  {
    assert rest[0..] == rest && rest[..0] == [] && b.forwarded + [] == b.forwarded;
  }

  lemma SendRoom(b: Broker, ch: Option<nat>, x: Frame)
    requires Room(b.gens, ch) > 0
    ensures Room(Accept(b, ch, [x]).gens, ch) == Room(b.gens, ch) - 1
  {
  }

  /** A flush whose steps nobody comes between is the one-step flush. */
  lemma StepwiseFlushIsWhole(b: Broker)
    ensures var i := |b.flushes|;
      var done := Sends(Apply(Apply(b, FlushBegin), FlushTake(i)), i, |b.queue|);
      var whole := Apply(b, FlushAll);
      b.pub.conn.Some? ==>
        done.queue == whole.queue && done.gens == whole.gens && done.forwarded == whole.forwarded && done.pub == whole.pub
  {
    if b.pub.conn.Some? {
      var i := |b.flushes|;
      var taken := Apply(Apply(b, FlushBegin), FlushTake(i));
      assert taken.flushes[i] == Flush(b.pub, true, b.queue) && taken.queue == [];
      SendsMean(taken, i, |b.queue|);
      var k := Min(|b.queue|, Room(b.gens, b.pub.ch));
      assert [] + b.queue[k..] == b.queue[k..];
    }
  }

  // A writer that has stopped.

  lemma RunSnoc(labels: seq<Label>, l: Label)
    ensures Run(labels + [l]) == Apply(Run(labels), l)
  {
    assert (labels + [l])[..|labels|] == labels;
  }

  /** The writer of `g` has stopped, and `written` is what its socket was given. */
  ghost predicate Stopped(b: Broker, g: nat, written: seq<Frame>) {
    g < |b.gens| && b.gens[g].writer != Running && b.gens[g].written == written
  }

  lemma StoppedStep(b: Broker, l: Label, g: nat, written: seq<Frame>)
    requires Stopped(b, g, written)
    ensures Stopped(Apply(b, l), g, written)
  {
  }

  /** Once a generation's writer has stopped, nothing more ever reaches its socket, so
      a frame left in its channel is lost. */
  lemma {:induction false} StrandedForever(labels: seq<Label>, more: seq<Label>, g: nat, written: seq<Frame>)
    requires Stopped(Run(labels), g, written)
    ensures Stopped(Run(labels + more), g, written)
  {
    if more == [] {
      assert labels + more == labels;
    } else {
      var n := |more| - 1;
      StrandedForever(labels, more[..n], g, written);
      assert labels + more == labels + more[..n] + [more[n]];
      RunSnoc(labels + more[..n], more[n]);
      StoppedStep(Run(labels + more[..n]), more[n], g, written);
    }
  }

  /** The step puts a frame into the channel of a generation whose writer has stopped. */
  ghost predicate Strands(b: Broker, l: Label, g: nat) {
    && g < |b.gens| && b.gens[g].writer != Running
    && g < |Apply(b, l).gens| && |Apply(b, l).gens[g].channel| > |b.gens[g].channel|
  }

  /** The channel that a sending step uses, if it has anything to send. */
  function Target(b: Broker, l: Label): Option<nat> {
    match l
    case DirectSend(i) => if i < |b.snaps| && b.snaps[i].conn.Some? then b.snaps[i].ch else None
    case FlushSend(i) => if i < |b.flushes| && b.flushes[i].rest != [] then b.flushes[i].snap.ch else None
    case FlushAll => if b.pub.conn.Some? && b.queue != [] then b.pub.ch else None
    case _ => None
  }

  /** A send to `ch` makes the channel of `g` longer exactly when it is that channel. */
  lemma AcceptLengthens(b: Broker, ch: Option<nat>, frames: seq<Frame>, g: nat)
    requires |frames| <= Room(b.gens, ch) && g < |b.gens|
    ensures |Accept(b, ch, frames).gens| == |b.gens|
    ensures |Accept(b, ch, frames).gens[g].channel| > |b.gens[g].channel| <==> frames != [] && ch == Some(g)
  {
  }

  lemma LoopDoesNotStrand(b: Broker, l: Label, g: nat)
    requires LoopLabel(l)
    ensures !Strands(b, l, g)
  {
  }

  lemma SendStrands(b: Broker, l: Label, g: nat)
    requires !LoopLabel(l) && (l.FlushAll? ==> Matched(b.pub, |b.gens|))
    ensures Strands(b, l, g) <==>
      Target(b, l) == Some(g) && Room(b.gens, Some(g)) > 0 && b.gens[g].writer != Running
  {
    if g < |b.gens| {
      if l.DirectSend? && l.snap < |b.snaps| && Room(b.gens, b.snaps[l.snap].ch) > 0 {
        AcceptLengthens(b, b.snaps[l.snap].ch, [b.next], g);
      } else if l.FlushSend? && l.flush < |b.flushes| && b.flushes[l.flush].rest != [] && Room(b.gens, b.flushes[l.flush].snap.ch) > 0 {
        AcceptLengthens(b, b.flushes[l.flush].snap.ch, [b.flushes[l.flush].rest[0]], g);
      } else if l.FlushAll? {
        var k := Min(|b.queue|, Room(b.gens, b.pub.ch));
        AcceptLengthens(b, b.pub.ch, b.queue[..k], g);
      }
    }
  }

  /** Any step, in any run, strands a frame exactly when it sends to a channel with room
      whose writer has stopped. */
  lemma StrandsExactly(labels: seq<Label>, l: Label, g: nat)
    ensures var b := Run(labels);
      Strands(b, l, g) <==>
        Target(b, l) == Some(g) && Room(b.gens, Some(g)) > 0 && b.gens[g].writer != Running
  {
    RunsKeepGenerations(labels);
    if LoopLabel(l) {
      LoopDoesNotStrand(Run(labels), l, g);
    } else {
      SendStrands(Run(labels), l, g);
    }
  }

  /** A write failed on the published connection, and its writer has not yet taken the
      channel back. */
  ghost predicate FailedButPublished(b: Broker, g: nat) {
    g < |b.gens| && b.pub == Published(Some(g), Some(g)) && b.gens[g].lost != []
  }

  lemma FreshFlushStrands(labels: seq<Label>, g: nat)
    ensures var b := Run(labels);
      Strands(b, FlushAll, g) <==> FailedButPublished(b, g) && Room(b.gens, Some(g)) > 0 && b.queue != []
  {
    PublishedWindow(labels, g);
    StrandsExactly(labels, FlushAll, g);
  }

  lemma FreshEnqueueStrands(labels: seq<Label>, g: nat)
    ensures var b := Run(labels);
      Strands(Apply(b, Snapshot), DirectSend(|b.snaps|), g) <==> FailedButPublished(b, g) && Room(b.gens, Some(g)) > 0
  {
    var b := Run(labels);
    PublishedWindow(labels, g);
    RunSnoc(labels, Snapshot);
    StrandsExactly(labels + [Snapshot], DirectSend(|b.snaps|), g);
    assert Target(Apply(b, Snapshot), DirectSend(|b.snaps|)) == if b.pub.conn.Some? then b.pub.ch else None;
  }

  /** A flush or an enqueue that takes its snapshot now strands a frame exactly in that
      window, given room and something to send: the snapshot need not be an old one. */
  lemma FreshSendStrands(labels: seq<Label>, g: nat)
    ensures var b := Run(labels);
      Strands(b, FlushAll, g) <==> FailedButPublished(b, g) && Room(b.gens, Some(g)) > 0 && b.queue != []
    ensures var b := Run(labels);
      Strands(Apply(b, Snapshot), DirectSend(|b.snaps|), g) <==> FailedButPublished(b, g) && Room(b.gens, Some(g)) > 0
  {
    FreshFlushStrands(labels, g);
    FreshEnqueueStrands(labels, g);
  }

  /** A published connection whose writer has stopped is one whose writer failed. */
  lemma PublishedWindow(labels: seq<Label>, g: nat)
    ensures var b := Run(labels);
      FailedButPublished(b, g) <==>
        g < |b.gens| && b.pub.conn.Some? && b.pub.ch == Some(g) && b.gens[g].writer != Running
  {
    RunsKeepGenerations(labels);
    var b := Run(labels);
    if g < |b.gens| {
      assert InOrder(b.gens[g]);
    }
  }

  function FailedWrite(): seq<Label> {
    [Buffer, Connect, Snapshot, DirectSend(0), Write(0, false)]
  }

  /** Concrete runs: after a failed write a whole flush and a whole enqueue strand a frame;
      after an orderly teardown an enqueue with an older snapshot does. */
  lemma StrandingRuns()
    ensures Strands(Run(FailedWrite()), FlushAll, 0)
    ensures Strands(Run(FailedWrite() + [Snapshot]), DirectSend(1), 0)
    ensures |Run(OrderlyTeardown()).gens| == 1 && Run(OrderlyTeardown()).gens[0].writer == Gone
    ensures Strands(Run(OrderlyTeardown()), DirectSend(0), 0)
  {
    AfterFailedWrite();
    FreshSendStrands(FailedWrite(), 0);
    RunSnoc(FailedWrite(), Snapshot);
    TornDown();
    StrandsExactly(OrderlyTeardown(), DirectSend(0), 0);
  }

  lemma AfterConnect()
    ensures Run([] + [Buffer] + [Connect]) ==
      NewBroker.(queue := [0], gens := [Generation([], [], [], [], true, Running)], pub := Published(Some(0), Some(0)), next := 1)
  {
    var b := NewBroker.(queue := [0], next := 1);
    RunSnoc([], Buffer);
    assert Buffered(NewBroker) == b by {
      assert [] + [0] == [0];
    }
    RunSnoc([] + [Buffer], Connect);
    assert [] + [Generation([], [], [], [], true, Running)] == [Generation([], [], [], [], true, Running)];
  }

  lemma AfterSend()
    ensures Run([] + [Buffer] + [Connect] + [Snapshot] + [DirectSend(0)]) ==
      NewBroker.(queue := [0], gens := [Generation([1], [1], [], [], true, Running)], pub := Published(Some(0), Some(0)),
                 snaps := [Published(Some(0), Some(0))], next := 2)
  {
    var connected := [] + [Buffer] + [Connect];
    AfterConnect();
    var b := Run(connected);
    RunSnoc(connected, Snapshot);
    RunSnoc(connected + [Snapshot], DirectSend(0));
    assert [] + [1] == [1] && [] + [b.pub] == [b.pub];
    assert b.gens[0 := Pushed(b.gens[0], [1])] == [Generation([1], [1], [], [], true, Running)];
  }

  lemma AfterFailedWrite()
    ensures var b := Run(FailedWrite());
      FailedButPublished(b, 0) && Room(b.gens, Some(0)) > 0 && b.queue == [0] && |b.snaps| == 1
  {
    var sent := [] + [Buffer] + [Connect] + [Snapshot] + [DirectSend(0)];
    AfterSend();
    RunSnoc(sent, Write(0, false));
    assert FailedWrite() == sent + [Write(0, false)];
  }

  function OrderlyTeardown(): seq<Label> {
    [Connect, Snapshot, ReaderExit(0), WriterStop(0), WriterClear(0)]
  }

  lemma TornDown()
    ensures var torn := OrderlyTeardown();
      Run(torn).gens == [Generation([], [], [], [], false, Gone)] && Run(torn).snaps == [Published(Some(0), Some(0))]
  {
    var torn := OrderlyTeardown();
    assert torn == [] + [Connect] + [Snapshot] + [ReaderExit(0)] + [WriterStop(0)] + [WriterClear(0)];
    RunSnoc([], Connect);
    RunSnoc([] + [Connect], Snapshot);
    RunSnoc([] + [Connect] + [Snapshot], ReaderExit(0));
    RunSnoc([] + [Connect] + [Snapshot] + [ReaderExit(0)], WriterStop(0));
    RunSnoc([] + [Connect] + [Snapshot] + [ReaderExit(0)] + [WriterStop(0)], WriterClear(0));
  }

  // The flush loop as coded, including frames that fail to marshal.

  /** The loop stops at `p`: the first marshallable frame for which there is no room. */
  ghost predicate StopsAt(frames: seq<Frame>, ok: Frame -> bool, room: nat, p: nat) {
    && p < |frames| && ok(frames[p]) && |Filter(frames[..p], ok)| >= room
    && forall i | 0 <= i < p && ok(frames[i]) :: |Filter(frames[..i], ok)| < room
  }

  /** What one pass over the taken frames sends and gives back: the marshallable frames
      before the stop, and the tail that starts at the number of frames sent. */
  ghost predicate FlushOutcome(frames: seq<Frame>, ok: Frame -> bool, room: nat,
                               sent: seq<Frame>, back: seq<Frame>, stop: Option<nat>) {
    && |sent| <= room && |sent| <= |frames|
    && (stop.Some? ==> StopsAt(frames, ok, room, stop.value) && sent == Filter(frames[..stop.value], ok) && back == frames[|sent|..])
    && (stop.None? ==> sent == Filter(frames, ok) && back == [])
  }

  method FlushLoop(frames: seq<Frame>, ok: Frame -> bool, room: nat) returns (sent: seq<Frame>, back: seq<Frame>, ghost stop: Option<nat>)
    ensures FlushOutcome(frames, ok, room, sent, back, stop)
  {
    sent, back, stop := [], [], None;
    var flushed := 0;
    for i := 0 to |frames|
      invariant sent == Filter(frames[..i], ok) && flushed == |sent| <= i && |sent| <= room
      invariant forall k | 0 <= k < i && ok(frames[k]) :: |Filter(frames[..k], ok)| < room
    {
      FilterStep(frames, i, ok);
      if !ok(frames[i]) {
        continue;
      }
      if |sent| < room {
        sent := sent + [frames[i]];
        flushed := flushed + 1;
      } else {
        back := frames[flushed..];
        stop := Some(i);
        return;
      }
    }
    assert frames[..|frames|] == frames;
  }

  lemma {:induction false} FilterAllOk(frames: seq<Frame>, ok: Frame -> bool)
    requires forall i | 0 <= i < |frames| :: ok(frames[i])
    ensures Filter(frames, ok) == frames
  {
    if frames != [] {
      FilterAllOk(frames[..|frames| - 1], ok);
    }
  }

  /** Every frame of the prefix that was sent was sent before every one that failed. */
  ghost predicate FailuresLast(frames: seq<Frame>, ok: Frame -> bool, p: nat)
    requires p <= |frames|
  {
    forall i, j | 0 <= i < j < p :: ok(frames[j]) ==> ok(frames[i])
  }

  lemma {:induction false} FailuresLastSplit(frames: seq<Frame>, ok: Frame -> bool)
    requires FailuresLast(frames, ok, |frames|)
    ensures |Filter(frames, ok)| <= |frames|
    ensures forall i | 0 <= i < |frames| :: ok(frames[i]) <==> i < |Filter(frames, ok)|
  {
    if frames != [] {
      var n := |frames| - 1;
      FailuresLastSplit(frames[..n], ok);
      if ok(frames[n]) {
        assert forall i | 0 <= i < n :: ok(frames[..n][i]);
        FilterAllOk(frames[..n], ok);
      }
    }
  }

  lemma NoDuplicate(frames: seq<Frame>, ok: Frame -> bool, p: nat, f: Frame)
    requires Ascending(frames) && p <= |frames| && FailuresLast(frames, ok, p)
    requires |Filter(frames[..p], ok)| <= p && f in Filter(frames[..p], ok)
    ensures f !in frames[|Filter(frames[..p], ok)|..]
  {
    var head := frames[..p];
    FilterMembers(head, ok);
    FailuresLastSplit(head, ok);
    var i :| 0 <= i < |head| && head[i] == f;
  }

  lemma SomeDuplicate(frames: seq<Frame>, ok: Frame -> bool, p: nat, i: nat, j: nat) returns (f: Frame)
    requires i < j < p <= |frames| && ok(frames[j]) && !ok(frames[i])
    ensures |Filter(frames[..p], ok)| <= p
    ensures f in Filter(frames[..p], ok) && f in frames[|Filter(frames[..p], ok)|..]
  {
    var head := frames[..p];
    var n := |Filter(head, ok)|;
    FilterSize(head, ok);
    FilterMembers(head, ok);
    if forall k | n <= k < p :: !ok(head[k]) {
      assert head[i] == frames[i] && head[j] == frames[j];
      FewOks(head, ok, n, i);
    }
    var k :| n <= k < p && ok(head[k]);
    f := head[k];
    assert f == frames[n..][k - n];
  }

  /** Re-buffering after a full channel puts a frame back that was already sent exactly
      when some sent frame came after one that failed to marshal: the loop counts sent
      frames but uses the count as a position. */
  lemma RebufferDuplicates(frames: seq<Frame>, ok: Frame -> bool, room: nat, p: nat)
    requires Ascending(frames) && StopsAt(frames, ok, room, p)
    ensures |Filter(frames[..p], ok)| <= p
    ensures (exists f :: f in Filter(frames[..p], ok) && f in frames[|Filter(frames[..p], ok)|..])
      <==> !FailuresLast(frames, ok, p)
  {
    FilterSize(frames[..p], ok);
    if FailuresLast(frames, ok, p) {
      forall f | f in Filter(frames[..p], ok)
        ensures f !in frames[|Filter(frames[..p], ok)|..]
      {
        NoDuplicate(frames, ok, p, f);
      }
    } else {
      var i, j :| 0 <= i < j < p && ok(frames[j]) && !ok(frames[i]);
      var f := SomeDuplicate(frames, ok, p, i, j);
    }
  }

  function NotFirst(): Frame -> bool {
    (f: Frame) => f != 0
  }

  /** Three frames of which the first does not marshal, and room for one: the second is
      sent and given back as well. */
  lemma RebufferExample()
    ensures var frames: seq<Frame> := [0, 1, 2];
      && StopsAt(frames, NotFirst(), 1, 2) && Filter(frames[..2], NotFirst()) == [1]
      && 1 in frames[|Filter(frames[..2], NotFirst())|..]
  {
    var frames: seq<Frame> := [0, 1, 2];
    assert frames[..0] == [];
    FilterStep(frames, 0, NotFirst());
    FilterStep(frames, 1, NotFirst());
    assert frames[1..][0] == 1;
  }

  /** Fewer than `n` frames pass if one of the first `n` fails and all later ones do. */
  lemma {:induction false} FewOks(s: seq<Frame>, ok: Frame -> bool, n: nat, i: nat)
    requires i < |s| && !ok(s[i]) && n <= |s|
    requires forall k | n <= k < |s| :: !ok(s[k])
    ensures i < n ==> |Filter(s, ok)| < n
    ensures |Filter(s, ok)| <= n
  {
    var last := |s| - 1;
    if i < last {
      FewOks(s[..last], ok, if n <= last then n else last, i);
    } else {
      FilterSize(s[..last], ok);
      if n < last {
        FewPass(s[..last], ok, n);
      }
    }
  }

  lemma {:induction false} FewPass(s: seq<Frame>, ok: Frame -> bool, n: nat)
    requires n <= |s| && forall k | n <= k < |s| :: !ok(s[k])
    ensures |Filter(s, ok)| <= n
  {
    if n < |s| {
      FewPass(s[..|s| - 1], ok, n);
    } else {
      FilterSize(s, ok);
    }
  }

  lemma {:induction false} AllOkStop(frames: seq<Frame>, ok: Frame -> bool, room: nat, p: nat)
    requires (forall i | 0 <= i < |frames| :: ok(frames[i])) && StopsAt(frames, ok, room, p)
    ensures p == room
  {
    FilterAllOk(frames[..p], ok);
    if p > room {
      FilterAllOk(frames[..room], ok);
    }
  }

  lemma {:induction false} AllOkLoop(frames: seq<Frame>, ok: Frame -> bool, room: nat, sent: seq<Frame>, back: seq<Frame>, stop: Option<nat>)
    requires forall i | 0 <= i < |frames| :: ok(frames[i])
    requires FlushOutcome(frames, ok, room, sent, back, stop)
    ensures var k := Min(|frames|, room); sent == frames[..k] && back == frames[k..]
  {
    if stop.Some? {
      AllOkStop(frames, ok, room, stop.value);
      FilterAllOk(frames[..stop.value], ok);
    } else {
      FilterAllOk(frames, ok);
    }
  }

  /** The relay's fields; each method is one critical section, or one call with no
      other goroutine in between. */
  class Relay {
    var workerQueue: seq<Frame>
    var routerConn: Option<nat>
    var routerSendCh: Option<nat>
    var generations: seq<Generation>
    ghost var dropped: seq<Frame>
    ghost var refused: seq<Frame>
    ghost var forwarded: seq<Frame>
    ghost var next: Frame

    ghost function View(): Broker
      reads this
    {
      Broker(workerQueue, Published(routerConn, routerSendCh), generations, [], [], dropped, refused, forwarded, next)
    }

    ghost predicate Valid()
      reads this
    {
      GenInv(View())
    }

    constructor ()
      ensures Valid() && View() == NewBroker
    {
      workerQueue, routerConn, routerSendCh, generations := [], None, None, [];
      dropped, refused, forwarded, next := [], [], [], 0;
    }

    method BufferWorkerMessage(frame: Frame)
      requires Valid() && frame == next
      modifies this
      ensures Valid() && View() == Apply(old(View()), Buffer)
    {
      StepKeepsGenerations(View(), Buffer);
      if |workerQueue| >= SEND_QUEUE_SIZE {
        dropped := dropped + [workerQueue[0]];
        workerQueue := workerQueue[1..];
      }
      workerQueue := workerQueue + [frame];
      next := next + 1;
    }

    method HandleRouter() returns (gen: nat)
      requires Valid()
      modifies this
      ensures Valid() && View() == Apply(old(View()), Connect) && gen == |old(generations)|
    {
      StepKeepsGenerations(View(), Connect);
      gen := |generations|;
      generations := generations + [Generation([], [], [], [], true, Running)];
      routerConn, routerSendCh := Some(gen), Some(gen);
    }

    method ReadLoopTeardown(gen: nat)
      requires Valid() && gen < |generations| && generations[gen].reader
      modifies this
      ensures Valid() && View() == Apply(old(View()), ReaderExit(gen))
    {
      StepKeepsGenerations(View(), ReaderExit(gen));
      if routerConn == Some(gen) {
        routerConn := None;
      }
      generations := generations[gen := generations[gen].(reader := false)];
    }

    method WriterLoopTeardown(gen: nat)
      requires Valid() && gen < |generations| && generations[gen].writer == Exiting
      modifies this
      ensures Valid() && View() == Apply(old(View()), WriterClear(gen))
    {
      StepKeepsGenerations(View(), WriterClear(gen));
      if routerSendCh == Some(gen) {
        routerSendCh := None;
      }
      generations := generations[gen := generations[gen].(writer := Gone)];
    }

    /** Snapshot, gate on a live connection, non-blocking send; a refused frame is dropped
        by the callers. `gaveUp` says that the frame did not marshal or that the select took
        the cancelled context. */
    method EnqueueRouter(frame: Frame, gaveUp: bool) returns (ok: bool)
      requires Valid() && frame == next
      modifies this
      ensures Valid() && (gaveUp ==> !ok && View() == Refuse(old(View())))
      ensures !gaveUp ==> (
        View().(snaps := [Published(old(routerConn), old(routerSendCh))]) == Apply(Apply(old(View()), Snapshot), DirectSend(0)))
      ensures ok <==> generations != old(generations)
    {
      StepKeepsGenerations(View(), Snapshot);
      StepKeepsGenerations(Apply(View(), Snapshot), DirectSend(0));
      next := next + 1;
      if routerConn.Some? && !gaveUp && routerSendCh.Some? && |generations[routerSendCh.value].channel| < SEND_QUEUE_SIZE {
        var g := routerSendCh.value;
        generations := generations[g := Pushed(generations[g], [frame])];
        assert generations[g].channel != old(generations)[g].channel;
        return true;
      }
      refused := refused + [frame];
      return false;
    }

    /** Take the queue, send what fits, give back the rest. */
    method FlushBufferedMessages(marshals: Frame -> bool)
      returns (ghost sent: seq<Frame>, ghost back: seq<Frame>, ghost stop: Option<nat>)
      requires Valid()
      modifies this
      ensures Valid() && FlushedInto(old(View()), View(), marshals, sent, back, stop)
    {
      sent, back, stop := [], [], None;
      ghost var before := View();
      if routerConn.None? || |workerQueue| == 0 {
        EmptyFlush(before, marshals);
        return;
      }
      var workers := workerQueue;
      workerQueue := [];
      var out, rest, at := FlushLoop(workers, marshals, Room(generations, routerSendCh));
      if |out| > 0 {
        generations := generations[routerSendCh.value := Pushed(generations[routerSendCh.value], out)];
      }
      forwarded := forwarded + out;
      workerQueue := workerQueue + rest;
      sent, back, stop := out, rest, at;
      assert View() == Handed(before, out, rest);
      FlushKeepsGenerations(before, View(), marshals, sent, back, stop);
    }
  }

  /** The published channel took `sent`; the queue is left with `back`. */
  function Handed(b: Broker, sent: seq<Frame>, back: seq<Frame>): Broker
    requires |sent| <= Room(b.gens, b.pub.ch)
  {
    Accept(b, b.pub.ch, sent).(queue := back, forwarded := b.forwarded + sent)
  }

  /** A whole flush in which some frames may fail to marshal. */
  ghost predicate FlushedInto(b: Broker, b': Broker, ok: Frame -> bool, sent: seq<Frame>, back: seq<Frame>, stop: Option<nat>) {
    if b.pub.conn.None? then b' == b
    else FlushOutcome(b.queue, ok, Room(b.gens, b.pub.ch), sent, back, stop) && b' == Handed(b, sent, back)
  }

  lemma FlushKeepsGenerations(b: Broker, b': Broker, ok: Frame -> bool, sent: seq<Frame>, back: seq<Frame>, stop: Option<nat>)
    requires GenInv(b) && FlushedInto(b, b', ok, sent, back, stop)
    ensures GenInv(b')
  {
    if b.pub.conn.Some? && sent != [] {
      PushKeepsOrder(b.gens[b.pub.ch.value], sent);
    }
  }

  /** When every frame marshals, the whole flush is the one-step flush. */
  lemma {:induction false} FlushIsOneStep(b: Broker, b': Broker, ok: Frame -> bool, sent: seq<Frame>, back: seq<Frame>, stop: Option<nat>)
    requires FlushedInto(b, b', ok, sent, back, stop)
    requires forall i | 0 <= i < |b.queue| :: ok(b.queue[i])
    ensures b' == Apply(b, FlushAll)
  {
    if b.pub.conn.Some? {
      AllOkLoop(b.queue, ok, Room(b.gens, b.pub.ch), sent, back, stop);
      FlushAllHands(b, sent, back);
    }
  }

  lemma FlushAllHands(b: Broker, sent: seq<Frame>, back: seq<Frame>)
    requires b.pub.conn.Some?
    requires var k := Min(|b.queue|, Room(b.gens, b.pub.ch)); sent == b.queue[..k] && back == b.queue[k..]
    ensures |sent| <= Room(b.gens, b.pub.ch) && Apply(b, FlushAll) == Handed(b, sent, back)
  {
  }

  lemma EmptyFlush(b: Broker, ok: Frame -> bool)
    requires b.pub.conn.None? || b.queue == []
    ensures FlushedInto(b, b, ok, [], [], None)
  {
  }
}
