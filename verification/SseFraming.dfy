/** Relaying a worker's server-sent events: the body is cut into frames that end at blank
    lines, and the frames are sent on verbatim. */
module SseFraming {

  newtype byte = x: int | 0 <= x < 256

  const LF: byte := 10
  const CR: byte := 13

  /** A blank line, "\n" or "\r\n", ends at position e. */
  predicate BlankAt(s: seq<byte>, e: int) {
    && 1 <= e <= |s| && s[e - 1] == LF
    && (LineStart(s, e - 1) || (e >= 2 && s[e - 2] == CR && LineStart(s, e - 2)))
  }

  predicate LineStart(s: seq<byte>, i: int) {
    0 <= i <= |s| && (i == 0 || s[i - 1] == LF)
  }

  /** Ends at its only blank line. */
  ghost predicate Complete(frame: seq<byte>) {
    BlankAt(frame, |frame|) && forall e | e < |frame| :: !BlankAt(frame, e)
  }

  /** Has bytes but no blank line: what a body that stops short leaves over. */
  ghost predicate Unfinished(frame: seq<byte>) {
    frame != [] && forall e :: !BlankAt(frame, e)
  }

  function Concat(frames: seq<seq<byte>>): seq<byte> {
    if frames == [] then [] else frames[0] + Concat(frames[1..])
  }

  /** The body cut after each blank line, and nowhere else. */
  ghost predicate Framing(frames: seq<seq<byte>>, body: seq<byte>) {
    Concat(frames) == body && forall i | 0 <= i < |frames| :: Ends(frames, i)
  }

  ghost predicate Ends(frames: seq<seq<byte>>, i: int)
    requires 0 <= i < |frames|
  {
    Complete(frames[i]) || (i == |frames| - 1 && Unfinished(frames[i]))
  }

  /** Whether a blank line ends here depends only on what comes before. */
  lemma BlankIsLocal(a: seq<byte>, b: seq<byte>, e: int)
    requires e <= |a|
    ensures BlankAt(a + b, e) == BlankAt(a, e)
  {
    var s := a + b;
    assert forall i | 0 <= i < |a| :: s[i] == a[i];
  }

  /** A body has one framing. */
  lemma {:induction false} FramingUnique(a: seq<seq<byte>>, b: seq<seq<byte>>, body: seq<byte>)
    requires Framing(a, body) && Framing(b, body)
    ensures a == b
    decreases |a|
  {
    NoFramesNoBytes(a, body);
    NoFramesNoBytes(b, body);
    if a != [] && b != [] {
      HeadNotShorter(a, b, body);
      HeadNotShorter(b, a, body);
      assert a[0] == body[..|a[0]|] == b[0];
      var rest := body[|a[0]|..];
      TailFrames(a, body);
      TailFrames(b, body);
      FramingUnique(a[1..], b[1..], rest);
      assert a == [a[0]] + a[1..] && b == [b[0]] + b[1..];
    }
  }

  lemma TailFrames(a: seq<seq<byte>>, body: seq<byte>)
    requires Framing(a, body) && a != []
    ensures |a[0]| <= |body| && a[0] == body[..|a[0]|] && Framing(a[1..], body[|a[0]|..])
  {
    assert body == a[0] + Concat(a[1..]);
    forall i | 0 <= i < |a| - 1
      ensures Ends(a[1..], i)
    {
      assert Ends(a, i + 1);
    }
  }

  lemma HeadNotShorter(a: seq<seq<byte>>, b: seq<seq<byte>>, body: seq<byte>)
    requires Framing(a, body) && Framing(b, body) && a != [] && b != []
    ensures |a[0]| >= |b[0]|
  {
    var n := |a[0]|;
    TailFrames(a, body);
    TailFrames(b, body);
    assert Ends(a, 0) && Ends(b, 0);
    if !Complete(a[0]) {
      assert a[1..] == [] && a[0] + Concat(a[1..]) == a[0];
    } else if n <= |b[0]| {
      assert a[0] == b[0][..n];
      assert a[0] + b[0][n..] == b[0];
      BlankIsLocal(a[0], b[0][n..], n);
    }
  }

  // What the reader computes.

  /** Up to and including the first LF; everything if there is none. */
  function Line(s: seq<byte>): (l: seq<byte>)
    ensures |l| <= |s| && (s != [] ==> l != [])
  {
    if s == [] then [] else if s[0] == LF then [LF] else [s[0]] + Line(s[1..])
  }

  lemma {:induction false} LineShape(s: seq<byte>)
    ensures var l := Line(s);
      && l == s[..|l|] && (forall i | 0 <= i < |l| - 1 :: l[i] != LF)
      && (if LF in s then l != [] && l[|l| - 1] == LF else l == s)
  {
    if s != [] && s[0] != LF {
      LineShape(s[1..]);
      assert s == [s[0]] + s[1..];
    }
  }

  predicate Blank(line: seq<byte>) {
    line == [LF] || line == [CR, LF]
  }

  /** Lines up to and including the first blank one; everything if there is none. */
  function Frame(s: seq<byte>): seq<byte> {
    if LF !in s then s
    else if Blank(Line(s)) then Line(s)
    else Line(s) + Frame(s[|Line(s)|..])
  }

  function Frames(s: seq<byte>): seq<seq<byte>>
    decreases |s|
  {
    if s == [] then []
    else
      FirstFrame(s);
      [Frame(s)] + Frames(s[|Frame(s)|..])
  }

  /** A line that is not blank holds no blank line's end, and what follows it counts from
      a fresh line. */
  lemma BlankAfterLine(l: seq<byte>, g: seq<byte>, e: int)
    requires l != [] && l[|l| - 1] == LF && (forall i | 0 <= i < |l| - 1 :: l[i] != LF)
    ensures BlankAt(l + g, e) <==> (e == |l| && Blank(l)) || BlankAt(g, e - |l|)
  {
    var s := l + g;
    assert forall i | 0 <= i < |l| :: s[i] == l[i];
    assert forall i | |l| <= i < |s| :: s[i] == g[i - |l|];
  }

  lemma BlankLineIsComplete(l: seq<byte>)
    requires Blank(l)
    ensures Complete(l)
  {
  }

  /** Putting a line that is not blank in front keeps a frame what it is. */
  lemma LineThenFrame(l: seq<byte>, g: seq<byte>)
    requires l != [] && l[|l| - 1] == LF && (forall i | 0 <= i < |l| - 1 :: l[i] != LF) && !Blank(l)
    ensures Complete(g) ==> Complete(l + g)
    ensures g == [] || Unfinished(g) ==> Unfinished(l + g)
  {
    forall e
      ensures BlankAt(l + g, e) <==> BlankAt(g, e - |l|)
    {
      BlankAfterLine(l, g, e);
    }
  }

  lemma PrefixBehind(l: seq<byte>, g: seq<byte>, rest: seq<byte>)
    requires |g| <= |rest| && g == rest[..|g|]
    ensures l + g == (l + rest)[..|l| + |g|]
  {
  }

  lemma {:induction false} FirstFrame(s: seq<byte>)
    requires s != []
    ensures var f := Frame(s); f != [] && |f| <= |s| && f == s[..|f|] && (Complete(f) || (f == s && Unfinished(f)))
  {
    if LF in s {
      var l := Line(s);
      var rest := s[|l|..];
      LineShape(s);
      assert s == l + rest;
      if Blank(l) {
        BlankLineIsComplete(l);
      } else {
        LineThenFrame(l, Frame(rest));
        if rest != [] {
          FirstFrame(rest);
          PrefixBehind(l, Frame(rest), rest);
        } else {
          assert Frame(rest) == [];
        }
      }
    }
  }

  /** The frames put together are the body, and each ends at its only blank line, save
      perhaps the last. */
  lemma {:induction false} FramesAreFraming(body: seq<byte>)
    ensures Framing(Frames(body), body)
    decreases |body|
  {
    if body != [] {
      var f, rest := Unframed(body);
      FramesAreFraming(rest);
      PrependFrame(f, Frames(rest), rest);
    }
  }

  /** The first frame, and what comes after it. */
  lemma Unframed(body: seq<byte>) returns (f: seq<byte>, rest: seq<byte>)
    requires body != []
    ensures f + rest == body && |rest| < |body| && Frames(body) == [f] + Frames(rest)
    ensures Complete(f) || (rest == [] && Unfinished(f))
  {
    FirstFrame(body);
    f, rest := Frame(body), body[|Frame(body)|..];
  }

  lemma PrependFrame(f: seq<byte>, frames: seq<seq<byte>>, rest: seq<byte>)
    requires Framing(frames, rest) && (Complete(f) || (rest == [] && Unfinished(f)))
    ensures Framing([f] + frames, f + rest)
  {
    var all := [f] + frames;
    assert all[1..] == frames;
    NoFramesNoBytes(frames, rest);
    forall i | 0 <= i < |all|
      ensures Ends(all, i)
    {
      assert i > 0 ==> Ends(frames, i - 1) && all[i] == frames[i - 1];
    }
  }

  lemma NoFramesNoBytes(frames: seq<seq<byte>>, rest: seq<byte>)
    requires Framing(frames, rest)
    ensures rest == [] ==> frames == []
  {
    if frames != [] {
      assert Ends(frames, 0) && frames[0] != [];
      assert |Concat(frames)| >= |frames[0]|;
    }
  }

  // The reader and the relay loop.

  datatype Error = NoError | Eof | Failed

  /** bufio.Reader over a body that ends with EOF or with another error. */
  class Reader {
    const body: seq<byte>
    const end: Error
    var pos: nat

    ghost predicate Valid()
      reads this
    {
      pos <= |body| && end != NoError
    }

    ghost function Unread(): seq<byte>
      reads this
      requires Valid()
    {
      body[pos..]
    }

    constructor (body: seq<byte>, end: Error)
      requires end != NoError
      ensures Valid() && this.body == body && this.end == end && Unread() == body
    {
      this.body, this.end, pos := body, end, 0;
    }

    /** ReadString('\n'): the next line, with the reader's end as error if it has no LF. */
    method ReadString() returns (line: seq<byte>, err: Error)
      requires Valid()
      modifies this
      ensures Valid() && line == Line(old(Unread())) && old(Unread()) == line + Unread()
      ensures err == if LF in line then NoError else end
      ensures pos == old(pos) + |line|
    {
      var stop := FindLf(body, pos);
      ReadCut(body, pos, stop);
      var end' := if stop < |body| then stop + 1 else stop;
      err := if stop < |body| then NoError else end;
      line := body[pos..end'];
      pos := end';
    }

    /** readSSEFrame: the next frame; an error only if no frame is left or the body failed. */
    method ReadSseFrame() returns (frame: seq<byte>, err: Error)
      requires Valid()
      modifies this
      ensures Valid() && frame == Frame(old(Unread())) && old(Unread()) == frame + Unread()
      ensures pos == old(pos) + |frame|
      ensures err != NoError ==> err == end && Unread() == []
      ensures err == NoError ==> frame != []
    {
      frame := [];
      ghost var unread := Unread();
      while true
        invariant Valid() && pos == old(pos) + |frame| && unread == frame + Unread()
        invariant Frame(unread) == frame + Frame(Unread())
        decreases |body| - pos
      {
        ghost var before := Unread();
        var line, e := ReadString();
        FrameAfterLine(before, Unread());
        Associative(frame, line, Unread());
        Associative(frame, line, Frame(Unread()));
        if |line| > 0 {
          frame := frame + line;
          if line == [LF] || line == [CR, LF] {
            return frame, NoError;
          }
        }
        if e != NoError {
          if e == Eof && |frame| > 0 {
            return frame, NoError;
          }
          return frame, e;
        }
      }
    }
  }

  lemma Cut(s: seq<byte>, i: nat, j: nat)
    requires i <= j <= |s|
    ensures s[i..j] == s[i..][..j - i] && s[i..] == s[i..j] + s[j..]
  {
  }

  /** The first line ends with the first LF, or with everything if there is none. */
  lemma {:induction false} LineIs(s: seq<byte>, n: nat)
    requires n <= |s| && (forall i | 0 <= i < n :: s[i] != LF) && (n < |s| ==> s[n] == LF)
    ensures Line(s) == s[..if n < |s| then n + 1 else n]
    ensures LF in Line(s) <==> n < |s|
  {
    if n > 0 {
      LineIs(s[1..], n - 1);
    }
  }

  ghost predicate FirstLf(body: seq<byte>, start: nat, stop: nat) {
    start <= stop <= |body| && (forall k | start <= k < stop :: body[k] != LF) && (stop < |body| ==> body[stop] == LF)
  }

  method FindLf(body: seq<byte>, start: nat) returns (stop: nat)
    requires start <= |body|
    ensures FirstLf(body, start, stop)
  {
    stop := start;
    while stop < |body| && body[stop] != LF
      invariant start <= stop <= |body|
      invariant forall k | start <= k < stop :: body[k] != LF
    {
      stop := stop + 1;
    }
  }

  lemma ReadCut(body: seq<byte>, start: nat, stop: nat)
    requires FirstLf(body, start, stop)
    ensures var end := if stop < |body| then stop + 1 else stop;
      && body[start..end] == Line(body[start..]) && body[start..] == body[start..end] + body[end..]
      && (LF in body[start..end] <==> stop < |body|)
  {
    LineIs(body[start..], stop - start);
    Cut(body, start, if stop < |body| then stop + 1 else stop);
  }

  lemma FrameAfterLine(before: seq<byte>, after: seq<byte>)
    requires before == Line(before) + after
    ensures Frame(before) == if Blank(Line(before)) then Line(before) else Line(before) + Frame(after)
    ensures LF !in Line(before) ==> after == [] && Frame(after) == []
  {
    assert before[|Line(before)|..] == after;
    LineShape(before);
  }

  lemma Associative<T>(a: seq<T>, b: seq<T>, c: seq<T>)
    ensures a + (b + c) == a + b + c
  {
  }

  /** How a relay ends. `lost(n)` says that sending the n-th frame lost to the cancelled
      context; `expired` is the context's state when the reader ends. */
  ghost predicate RelayEnds(all: seq<seq<byte>>, end: Error, lost: nat -> bool, expired: bool,
                            sent: seq<seq<byte>>, err: Error, completed: bool) {
    && |sent| <= |all| && sent == all[..|sent|]
    && (forall n | 0 <= n < |sent| :: !lost(n))
    && (if completed then sent == all && err == if end == Eof || expired then NoError else end
        else |sent| < |all| && lost(|sent|) && err == NoError)
  }

  /** The relay loop of Stream. */
  method Stream(r: Reader, lost: nat -> bool, expired: bool) returns (sent: seq<seq<byte>>, err: Error, completed: bool)
    requires r.Valid() && r.pos == 0
    modifies r
    ensures RelayEnds(Frames(r.body), r.end, lost, expired, sent, err, completed)
  {
    assert r.Unread() == r.body;
    sent, err, completed := RelayFrames(r, lost, expired, Frames(r.body));
  }

  method RelayFrames(r: Reader, lost: nat -> bool, expired: bool, ghost all: seq<seq<byte>>)
    returns (sent: seq<seq<byte>>, err: Error, completed: bool)
    requires r.Valid() && Relayed(all, [], r.Unread())
    modifies r
    ensures RelayEnds(all, r.end, lost, expired, sent, err, completed)
  {
    sent := [];
    while true
      invariant r.Valid() && Relayed(all, sent, r.Unread())
      invariant forall n | 0 <= n < |sent| :: !lost(n)
      decreases |r.body| - r.pos
    {
      ghost var unread := r.Unread();
      var frame, e := r.ReadSseFrame();
      RelayStep(all, sent, unread, frame, r.Unread());
      if |frame| > 0 {
        if lost(|sent|) {
          return sent, NoError, false;
        }
        sent := sent + [frame];
      }
      if e != NoError {
        return sent, if e != Eof && !expired then e else NoError, true;
      }
    }
  }

  /** What has been sent, then the frames of what is unread, are all the frames. */
  ghost predicate Relayed(all: seq<seq<byte>>, sent: seq<seq<byte>>, unread: seq<byte>) {
    all == sent + Frames(unread)
  }

  lemma RelayStep(all: seq<seq<byte>>, sent: seq<seq<byte>>, before: seq<byte>, frame: seq<byte>, after: seq<byte>)
    requires Relayed(all, sent, before) && frame == Frame(before) && before == frame + after
    ensures |sent| <= |all| && sent == all[..|sent|]
    ensures frame != [] ==> Relayed(all, sent + [frame], after) && |sent| < |all| && (after == [] ==> sent + [frame] == all)
    ensures frame == [] ==> sent == all
  {
    FramesStep(before, frame, after);
    Associative(sent, [frame], Frames(after));
    assert frame == [] ==> sent + [] == sent;
  }

  lemma FramesStep(before: seq<byte>, frame: seq<byte>, after: seq<byte>)
    requires frame == Frame(before) && before == frame + after
    ensures frame != [] ==> Frames(before) == [frame] + Frames(after)
    ensures frame == [] ==> before == [] && Frames(before) == []
    ensures after == [] ==> Frames(after) == []
  {
    if before != [] {
      FirstFrame(before);
      assert before[|frame|..] == after;
    }
  }

  /** A relay that runs to the end of the body, and only that, has sent the whole body. */
  lemma RelayedIsBody(sent: seq<seq<byte>>, body: seq<byte>)
    requires |sent| <= |Frames(body)| && sent == Frames(body)[..|sent|]
    ensures Concat(sent) <= body
    ensures Concat(sent) == body <==> sent == Frames(body)
  {
    var frames := Frames(body);
    FramesAreFraming(body);
    var rest := frames[|sent|..];
    assert frames == sent + rest;
    ConcatAppend(sent, rest);
    if rest != [] {
      assert Ends(frames, |sent|);
      assert rest[0] == frames[|sent|] && rest[0] != [];
      assert Concat(rest) == rest[0] + Concat(rest[1..]);
    }
  }

  lemma {:induction false} ConcatAppend(a: seq<seq<byte>>, b: seq<seq<byte>>)
    ensures Concat(a + b) == Concat(a) + Concat(b)
  {
    if a == [] {
      assert a + b == b;
    } else {
      ConcatAppend(a[1..], b);
      assert (a + b)[1..] == a[1..] + b && (a + b)[0] == a[0];
      Associative(a[0], Concat(a[1..]), Concat(b));
    }
  }

  // Section 9.2.5 of the WHATWG HTML Standard ends a line at CR LF, at LF, or at a CR
  // with no LF after it.

  predicate StandardLineEnd(s: seq<byte>, e: int) {
    1 <= e <= |s| && (s[e - 1] == LF || (s[e - 1] == CR && (e == |s| || s[e] != LF)))
  }

  function TerminatorStart(s: seq<byte>, e: int): int
    requires StandardLineEnd(s, e)
  {
    if s[e - 1] == LF && e >= 2 && s[e - 2] == CR then e - 2 else e - 1
  }

  predicate StandardBlankAt(s: seq<byte>, e: int) {
    StandardLineEnd(s, e) && (TerminatorStart(s, e) == 0 || StandardLineEnd(s, TerminatorStart(s, e)))
  }

  predicate LoneCr(s: seq<byte>, i: int) {
    0 <= i < |s| && s[i] == CR && (i + 1 == |s| || s[i + 1] != LF)
  }

  /** A blank line here is one by the standard. The standard knows one more exactly when
      its terminator, or that of the line before it, is a lone CR. */
  lemma StandardBlankLines(s: seq<byte>, e: int)
    ensures BlankAt(s, e) ==> StandardBlankAt(s, e)
    ensures (StandardBlankAt(s, e) && !BlankAt(s, e)) <==>
      StandardBlankAt(s, e) && (LoneCr(s, e - 1) || LoneCr(s, TerminatorStart(s, e) - 1))
  {
  }

  /** A body with two lone CRs: the standard has a blank line in it, the relay one frame. */
  lemma LoneCrExample()
    ensures var body := [97, CR, CR, 98]; StandardBlankAt(body, 3) && !BlankAt(body, 3) && Frames(body) == [body]
  {
    var body := [97, CR, CR, 98];
    assert LF !in body;
    assert Frame(body) == body;
    assert body[|Frame(body)|..] == [];
  }
}
