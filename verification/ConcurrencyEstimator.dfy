/** The worker's concurrency estimator: a cap lowered by 429 responses and latency spikes,
    raised slowly when things are quiet. Times are nanosecond clock readings that never
    go backwards; latencies and averages are computed in exact arithmetic. */
module ConcurrencyEstimator {
  import opened Counting
  import opened Ordering
  import opened Protocol
  import opened Sequences

  const SECOND := 1_000_000_000
  const DEFAULT_INIT_CAP := 4
  const MIN_CAP := 1
  const WINDOW := 10 * SECOND
  const QUIET := 30 * SECOND
  const RECOVERY := 60 * SECOND
  const MAX_SAMPLES := 200
  const MIN_SAMPLES := 5
  const THRESHOLD_429 := 2

  // The percentile.

  function Le(): (int, int) -> bool {
    (a: int, b: int) => a <= b
  }

  function Upto(r: int): int -> bool {
    (x: int) => x <= r
  }

  function Under(r: int): int -> bool {
    (x: int) => x < r
  }

  /** Conversion of a float to an integer: towards zero. */
  function Truncate(x: real): int {
    if x >= 0.0 then x.Floor else -((-x).Floor)
  }

  /** The index of the p-quantile, clamped to the sequence. */
  function RankIndex(n: nat, p: real): (k: nat)
    requires n > 0
    ensures k < n
  {
    var k := Truncate((n - 1) as real * p);
    if k < 0 then 0 else if k >= n then n - 1 else k
  }

  /** The element of rank k, said without sorting: no more than k elements are smaller,
      more than k are not larger. */
  ghost predicate HasRank(s: seq<int>, k: nat, r: int) {
    Count(s, Under(r)) <= k < Count(s, Upto(r))
  }

  lemma {:induction false} CountMonotone(s: seq<int>, p: int -> bool, q: int -> bool)
    requires forall i | 0 <= i < |s| :: p(s[i]) ==> q(s[i])
    ensures Count(s, p) <= Count(s, q)
  {
    if s != [] {
      CountMonotone(s[..|s| - 1], p, q);
    }
  }

  lemma RankOccurs(s: seq<int>, k: nat, r: int)
    requires HasRank(s, k, r)
    ensures r in s
  {
    if r !in s {
      CountAgree(s, Under(r), Upto(r));
    }
  }

  /** There is one element of each rank. */
  lemma RankUnique(s: seq<int>, k: nat, r: int, r': int)
    requires HasRank(s, k, r) && HasRank(s, k, r')
    ensures r == r'
  {
    if r < r' {
      CountMonotone(s, Upto(r), Under(r'));
    } else if r' < r {
      CountMonotone(s, Upto(r'), Under(r));
    }
  }

  lemma {:induction false} CountAll(s: seq<int>, p: int -> bool)
    requires forall i | 0 <= i < |s| :: p(s[i])
    ensures Count(s, p) == |s|
  {
    if s != [] {
      CountAll(s[..|s| - 1], p);
    }
  }

  lemma FewUnder(s: seq<int>, k: nat)
    requires Sorted(s, Le()) && k < |s|
    ensures Count(s, Under(s[k])) <= k
  {
    var p, a, b := Under(s[k]), s[..k], s[k..];
    assert a + b == s;
    CountConcat(a, b, p);
    forall i | 0 <= i < |b|
      ensures !p(b[i])
    {
      assert i == 0 || Le()(s[k], s[k + i]);
    }
    CountNone(b, p);
    CountSize(a, p);
  }

  lemma ManyUpto(s: seq<int>, k: nat)
    requires Sorted(s, Le()) && k < |s|
    ensures Count(s, Upto(s[k])) > k
  {
    var p, a, b := Upto(s[k]), s[..k + 1], s[k + 1..];
    assert a + b == s;
    CountConcat(a, b, p);
    forall i | 0 <= i < |a|
      ensures p(a[i])
    {
      assert i == k || Le()(s[i], s[k]);
    }
    CountAll(a, p);
  }

  /** In a sorted sequence the element at index k has rank k. */
  lemma SortedHasRank(s: seq<int>, k: nat)
    requires Sorted(s, Le()) && k < |s|
    ensures HasRank(s, k, s[k])
  {
    FewUnder(s, k);
    ManyUpto(s, k);
  }

  lemma {:induction false} CountSize(s: seq<int>, p: int -> bool)
    ensures Count(s, p) <= |s|
  {
    if s != [] {
      CountSize(s[..|s| - 1], p);
    }
  }

  /** Counts do not depend on the order of the elements. */
  ghost predicate SameCounts(s: seq<int>, t: seq<int>) {
    |s| == |t| && forall p: int -> bool :: Count(s, p) == Count(t, p)
  }

  lemma RankOfPermutation(s: seq<int>, t: seq<int>, k: nat, r: int)
    requires SameCounts(s, t) && HasRank(s, k, r)
    ensures HasRank(t, k, r)
  {
  }

  function Swapped(s: seq<int>, i: nat, j: nat): seq<int>
    requires i < |s| && j < |s|
  {
    s[i := s[j]][j := s[i]]
  }

  lemma SwapCounts(s: seq<int>, i: nat, j: nat)
    requires i < j < |s|
    ensures SameCounts(s, Swapped(s, i, j))
  {
    forall p: int -> bool
      ensures Count(s, p) == Count(Swapped(s, i, j), p)
    {
      CountUpdate(s, i, s[j], p);
      CountUpdate(s[i := s[j]], j, s[i], p);
    }
  }

  lemma SameCountsChain(s: seq<int>, t: seq<int>, u: seq<int>)
    requires SameCounts(s, t) && SameCounts(t, u)
    ensures SameCounts(s, u)
  {
  }

  /** s[..i + 1] is sorted but for the element at j, which may be too small for its place. */
  ghost predicate SortedButAt(s: seq<int>, i: nat, j: nat) {
    j <= i < |s| && forall p, q | 0 <= p < q <= i && q != j :: s[p] <= s[q]
  }

  lemma SortedButLast(s: seq<int>, i: nat)
    requires i < |s| && Sorted(s[..i], Le())
    ensures SortedButAt(s, i, i)
  {
    forall p, q | 0 <= p < q < i
      ensures s[p] <= s[q]
    {
      assert Le()(s[..i][p], s[..i][q]);
    }
  }

  lemma SinkKeepsOrder(s: seq<int>, i: nat, j: nat)
    requires SortedButAt(s, i, j) && j > 0 && s[j - 1] > s[j]
    ensures SortedButAt(Swapped(s, j - 1, j), i, j - 1)
  {
  }

  /** What the pass keeps while the element is at j. */
  ghost predicate Sinking(start: seq<int>, s: seq<int>, i: nat, j: nat) {
    SortedButAt(s, i, j) && SameCounts(start, s)
  }

  lemma SinkOnce(start: seq<int>, s: seq<int>, i: nat, j: nat)
    requires Sinking(start, s, i, j) && j > 0 && s[j - 1] > s[j]
    ensures Sinking(start, Swapped(s, j - 1, j), i, j - 1)
  {
    SinkKeepsOrder(s, i, j);
    SwapCounts(s, j - 1, j);
    SameCountsChain(start, s, Swapped(s, j - 1, j));
  }

  lemma Sunk(s: seq<int>, i: nat, j: nat)
    requires SortedButAt(s, i, j) && (j == 0 || s[j - 1] <= s[j])
    ensures Sorted(s[..i + 1], Le())
  {
  }

  /** One pass of the insertion sort: the element at i sinks to its place. */
  method Sink(a: array<int>, i: nat)
    requires 0 < i < a.Length && Sorted(a[..i], Le())
    modifies a
    ensures Sorted(a[..i + 1], Le()) && SameCounts(old(a[..]), a[..])
  {
    var j := i;
    ghost var start := a[..];
    assert start[..i] == a[..i];
    SortedButLast(start, i);
    while j > 0 && a[j - 1] > a[j]
      invariant j <= i && Sinking(start, a[..], i, j)
    {
      ghost var before := a[..];
      SinkOnce(start, before, i, j);
      a[j - 1], a[j] := a[j], a[j - 1];
      assert a[..] == Swapped(before, j - 1, j);
      j := j - 1;
    }
    Sunk(a[..], i, j);
    assert a[..][..i + 1] == a[..i + 1];
  }

  method InsertionSort(a: array<int>)
    modifies a
    ensures Sorted(a[..], Le()) && SameCounts(old(a[..]), a[..])
  {
    if a.Length == 0 {
      return;
    }
    for i := 1 to a.Length
      invariant Sorted(a[..i], Le()) && SameCounts(old(a[..]), a[..])
    {
      ghost var before := a[..];
      Sink(a, i);
      SameCountsChain(old(a[..]), before, a[..]);
    }
    assert a[..a.Length] == a[..];
  }

  lemma RankFromSorted(d: seq<int>, sorted: seq<int>, k: nat)
    requires SameCounts(d, sorted) && Sorted(sorted, Le()) && k < |sorted|
    ensures HasRank(d, k, sorted[k])
  {
    SortedHasRank(sorted, k);
    RankOfPermutation(sorted, d, k, sorted[k]);
  }

  /** percentile: sort a copy in place, then pick by rank. */
  method Percentile(d: seq<int>, p: real) returns (r: int)
    ensures d == [] ==> r == 0
    ensures d != [] ==> HasRank(d, RankIndex(|d|, p), r)
  {
    if |d| == 0 {
      return 0;
    }
    var tmp := new int[|d|](i requires 0 <= i < |d| => d[i]);
    assert tmp[..] == d;
    InsertionSort(tmp);
    var idx := RankIndex(tmp.Length, p);
    RankFromSorted(d, tmp[..], idx);
    r := tmp[idx];
  }

  /** The element of rank k exceeds x exactly when at most k elements do not. */
  lemma RankExceeds(s: seq<int>, k: nat, r: int, x: int)
    requires HasRank(s, k, r)
    ensures r > x <==> Count(s, Upto(x)) <= k
  {
    if r > x {
      CountMonotone(s, Upto(x), Under(r));
    } else {
      CountMonotone(s, Upto(r), Upto(x));
    }
  }

  // The estimator's state and its four transitions.

  /** `changedAt` is None before the first change: the zero time lies further back than
      any recovery delay. `notified` says that the change channel holds its token. */
  datatype State = State(
    cap: int, window429: seq<int>, latencies: seq<int>, baseline: int, changedAt: Option<int>, notified: bool)

  function Initial(initCap: int, persisted: int): State {
    State(if persisted > 0 then persisted else if initCap < MIN_CAP then MIN_CAP else initCap, [], [], 0, None, false)
  }

  function Average(baseline: int, lat: int): int {
    Truncate(baseline as real * 0.9 + lat as real * 0.1)
  }

  function Recorded(s: State, start: int, status: int, now: int): State {
    var lat := now - start;
    s.(latencies := s.latencies + [lat],
       baseline := if s.baseline == 0 || |s.latencies| + 1 < 10 then lat else Average(s.baseline, lat),
       window429 := if status == 429 then s.window429 + [now] else s.window429)
  }

  function WithCap(s: State, cap: int, now: int): State {
    s.(cap := cap, changedAt := Some(now))
  }

  function Opened(s: State, now: int): State {
    if s.cap != 1 then WithCap(s, 1, now).(notified := true) else s
  }

  function Closed(s: State, now: int): State {
    if s.cap == 1 then WithCap(s, DEFAULT_INIT_CAP, now).(notified := true) else s
  }

  function After(cutoff: int): int -> bool {
    (t: int) => t > cutoff
  }

  function Newest(latencies: seq<int>): seq<int> {
    if |latencies| > MAX_SAMPLES then latencies[|latencies| - MAX_SAMPLES..] else latencies
  }

  function Pruned(s: State, now: int): State {
    s.(window429 := Filter(s.window429, After(now - WINDOW)), latencies := Newest(s.latencies))
  }

  predicate Throttled(s: State) {
    |s.window429| >= THRESHOLD_429
  }

  /** The 95th percentile exceeds twice the baseline: too few samples stay within it. */
  predicate Spiking(s: State) {
    |s.latencies| >= MIN_SAMPLES && s.baseline > 0
    && Count(s.latencies, Upto(2 * s.baseline)) <= RankIndex(|s.latencies|, 0.95)
  }

  function LoweredIf(s: State, pressure: bool, now: int): State {
    if pressure && s.cap > MIN_CAP then WithCap(s, s.cap - 1, now) else s
  }

  predicate Settled(s: State, now: int) {
    s.changedAt.None? || now - s.changedAt.value > RECOVERY
  }

  /** Recovery, given the answer to "has it been quiet". */
  function RecoveredIf(s: State, quiet: bool, now: int): State {
    if s.cap < DEFAULT_INIT_CAP && Settled(s, now) && quiet then WithCap(s, s.cap + 1, now) else s
  }

  function Recovered(s: State, now: int): State {
    RecoveredIf(s, QuietFor(s.window429, now, QUIET), now)
  }

  /** No 429 among `times` in the last `span`. */
  predicate QuietFor(times: seq<int>, now: int, span: int) {
    forall i | 0 <= i < |times| :: times[i] <= now - span
  }

  /** The tick up to recovery: prune, then a step down for each kind of pressure. */
  function Lowered(s: State, now: int): State {
    var a := Pruned(s, now);
    LoweredIf(LoweredIf(a, Throttled(a), now), Spiking(a), now)
  }

  function Recomputed(s: State, now: int): State {
    var c := Recovered(Lowered(s, now), now);
    c.(notified := s.notified || c.cap != s.cap)
  }

  class Estimator {
    var cap: int
    var window429: seq<int>
    var latencies: seq<int>
    var baselineLatency: int
    var lastCapChanged: Option<int>
    var changed: bool

    ghost function View(): State
      reads this
    {
      State(cap, window429, latencies, baselineLatency, lastCapChanged, changed)
    }

    /** `persisted` is the cap found in the state file, 0 if none can be read. */
    constructor (initCap: int, persisted: int)
      ensures View() == Initial(initCap, persisted)
      ensures cap == if persisted > 0 then persisted else if initCap < 1 then 1 else initCap
    {
      cap := if initCap < MIN_CAP then MIN_CAP else initCap;
      window429, latencies, baselineLatency, lastCapChanged, changed := [], [], 0, None, false;
      new;
      if persisted > 0 {
        cap := if persisted < MIN_CAP then MIN_CAP else persisted;
      }
    }

    method RecordRequest(start: int, statusCode: int, now: int)
      modifies this
      ensures View() == Recorded(old(View()), start, statusCode, now)
    {
      var lat := now - start;
      latencies := latencies + [lat];
      if baselineLatency == 0 || |latencies| < 10 {
        baselineLatency := lat;
      } else {
        baselineLatency := Average(baselineLatency, lat);
      }
      if statusCode == 429 {
        window429 := window429 + [now];
      }
    }

    method RecordCircuitOpen(now: int)
      modifies this
      ensures View() == Opened(old(View()), now)
    {
      if cap != 1 {
        cap, lastCapChanged, changed := 1, Some(now), true;
      }
    }

    method RecordCircuitClosed(now: int)
      modifies this
      ensures View() == Closed(old(View()), now)
    {
      if cap == 1 {
        cap, lastCapChanged, changed := DEFAULT_INIT_CAP, Some(now), true;
      }
    }

    /** The pruning half of recompute. */
    method Prune(now: int)
      modifies this
      ensures View() == Pruned(old(View()), now)
    {
      var cutoff := now - WINDOW;
      var kept: seq<int> := [];
      for i := 0 to |window429|
        invariant View() == old(View())
        invariant kept == Filter(window429[..i], After(cutoff))
      {
        FilterStep(window429, i, After(cutoff));
        if window429[i] > cutoff {
          kept := kept + [window429[i]];
        }
      }
      assert window429[..|window429|] == window429;
      window429 := kept;
      if |latencies| > MAX_SAMPLES {
        latencies := latencies[|latencies| - MAX_SAMPLES..];
      }
    }

    method Lower(now: int)
      modifies this
      ensures View() == LoweredIf(old(View()), true, now)
    {
      if cap > MIN_CAP {
        cap, lastCapChanged := cap - 1, Some(now);
      }
    }

    /** The slow recovery at the end of recompute; the final clamp never acts. */
    method Recover(now: int)
      modifies this
      ensures View() == Recovered(old(View()), now)
    {
      if cap < DEFAULT_INIT_CAP && (lastCapChanged.None? || now - lastCapChanged.value > RECOVERY) {
        var hasRecent429 := false;
        var recentCutoff := now - QUIET;
        for i := 0 to |window429|
          invariant View() == old(View()) && !hasRecent429
          invariant forall k | 0 <= k < i :: window429[k] <= recentCutoff
        {
          if window429[i] > recentCutoff {
            hasRecent429 := true;
            break;
          }
        }
        if !hasRecent429 {
          cap := if cap + 1 > DEFAULT_INIT_CAP then DEFAULT_INIT_CAP else cap + 1;
          lastCapChanged := Some(now);
        }
      }
    }

    method LowerIfThrottled(now: int)
      modifies this
      ensures View() == LoweredIf(old(View()), Throttled(old(View())), now)
    {
      if |window429| >= THRESHOLD_429 {
        Lower(now);
      }
    }

    method LowerIfSpiking(now: int)
      modifies this
      ensures View() == LoweredIf(old(View()), Spiking(old(View())), now)
    {
      if |latencies| >= MIN_SAMPLES && baselineLatency > 0 {
        var p95 := Percentile(latencies, 0.95);
        RankExceeds(latencies, RankIndex(|latencies|, 0.95), p95, 2 * baselineLatency);
        if p95 > 2 * baselineLatency {
          Lower(now);
        }
      }
    }

    method Recompute(now: int)
      modifies this
      ensures View() == Recomputed(old(View()), now)
    {
      Prune(now);
      var originalCap := cap;
      ghost var pruned := View();
      LowerIfThrottled(now);
      SameSpike(pruned, Throttled(pruned), now);
      LowerIfSpiking(now);
      Recover(now);
      if cap != originalCap {
        changed := true;
      }
    }
  }

  /** Lowering the cap for one pressure does not touch the other. */
  lemma SameSpike(s: State, pressure: bool, now: int)
    ensures Spiking(LoweredIf(s, pressure, now)) == Spiking(s)
  {
  }

  // What every run keeps.

  datatype Label =
    | Request(start: int, status: int, now: int)
    | CircuitOpen(now: int)
    | CircuitClosed(now: int)
    | Tick(now: int)

  /** The state with what it forgets: every 429 and every latency ever seen, the clock, and
      the latest pruning cutoff. */
  datatype World = World(s: State, failures: seq<int>, samples: seq<int>, clock: int, cutoff: Option<int>)

  /** A reading behind the clock does not occur. */
  function Apply(w: World, l: Label): World {
    if l.now < w.clock then w
    else match l
      case Request(start, status, now) =>
        World(Recorded(w.s, start, status, now), if status == 429 then w.failures + [now] else w.failures,
              w.samples + [now - start], now, w.cutoff)
      case CircuitOpen(now) => w.(s := Opened(w.s, now), clock := now)
      case CircuitClosed(now) => w.(s := Closed(w.s, now), clock := now)
      case Tick(now) => World(Recomputed(w.s, now), w.failures, w.samples, now, Some(now - WINDOW))
  }

  function Run(initCap: int, persisted: int, clock: int, labels: seq<Label>): World {
    if labels == [] then World(Initial(initCap, persisted), [], [], clock, None)
    else Apply(Run(initCap, persisted, clock, labels[..|labels| - 1]), labels[|labels| - 1])
  }

  function CapLimit(initCap: int, persisted: int): int {
    var first := Initial(initCap, persisted).cap;
    if first > DEFAULT_INIT_CAP then first else DEFAULT_INIT_CAP
  }

  ghost predicate Within(w: World, limit: int) {
    && MIN_CAP <= w.s.cap <= limit
    && (w.s.changedAt.Some? ==> w.s.changedAt.value <= w.clock)
  }

  /** The window is what the latest prune left of all 429s, and what came since. */
  ghost predicate Windowed(w: World) {
    Chronological(w.failures, w.clock) && Cut(w.failures, w.s.window429, w.cutoff, w.clock)
  }

  ghost predicate Chronological(times: seq<int>, clock: int) {
    && (forall i | 0 <= i < |times| :: times[i] <= clock)
    && (forall i, j | 0 <= i < j < |times| :: times[i] <= times[j])
  }

  ghost predicate Cut(failures: seq<int>, window: seq<int>, cutoff: Option<int>, clock: int) {
    && (cutoff.None? ==> window == failures)
    && (cutoff.Some? ==> cutoff.value <= clock - WINDOW && window == Filter(failures, After(cutoff.value)))
  }

  lemma AppendKeepsCut(failures: seq<int>, window: seq<int>, cutoff: Option<int>, clock: int, now: int)
    requires Cut(failures, window, cutoff, clock) && now >= clock
    ensures Cut(failures + [now], window + [now], cutoff, now)
  {
    if cutoff.Some? {
      var f := failures + [now];
      FilterStep(f, |failures|, After(cutoff.value));
      assert f[..|failures|] == failures && f[..|f|] == f;
    }
  }

  lemma {:induction false} FilterTwice(s: seq<int>, early: int, late: int)
    requires early <= late
    ensures Filter(Filter(s, After(early)), After(late)) == Filter(s, After(late))
  {
    if s != [] {
      var n := |s| - 1;
      FilterTwice(s[..n], early, late);
      var f, g := Filter(s, After(early)), Filter(s[..n], After(early));
      if After(early)(s[n]) {
        assert f == g + [s[n]] && f[..|g|] == g && f[..|f|] == f;
        FilterStep(f, |g|, After(late));
      } else {
        assert f == g;
      }
    }
  }

  lemma TickWindow(w: World, now: int)
    requires Windowed(w) && now >= w.clock
    ensures Recomputed(w.s, now).window429 == Filter(w.failures, After(now - WINDOW))
  {
    if w.cutoff.Some? {
      FilterTwice(w.failures, w.cutoff.value, now - WINDOW);
    }
  }

  lemma StepKeepsWindow(w: World, l: Label)
    requires Windowed(w)
    ensures Windowed(Apply(w, l))
  {
    if l.now >= w.clock {
      if l.Tick? {
        TickWindow(w, l.now);
      } else if l.Request? && l.status == 429 {
        AppendKeepsCut(w.failures, w.s.window429, w.cutoff, w.clock, l.now);
      }
    }
  }

  predicate Pressed(a: State) {
    Throttled(a) || Spiking(a)
  }

  function Pressure(a: State): int {
    (if Throttled(a) then 1 else 0) + (if Spiking(a) then 1 else 0)
  }

  /** After pruning, looking back 30 seconds finds a 429 exactly when the 10-second window
      is not empty. */
  lemma RecentIsWindow(s: State, now: int)
    ensures (exists i :: 0 <= i < |Pruned(s, now).window429| && Pruned(s, now).window429[i] > now - QUIET)
      <==> Pruned(s, now).window429 != []
  {
    var window := Pruned(s, now).window429;
    FilterMembers(s.window429, After(now - WINDOW));
    if window != [] {
      assert window[0] in window && After(now - WINDOW)(window[0]);
    }
  }

  /** One tick: lowered once per kind of pressure but not below the minimum, or else raised
      by one if it is low, unchanged for a minute and the window is empty; never both. At
      the minimum, a latency spike does not stop recovery. */
  lemma TickMoves(s: State, now: int)
    requires s.cap >= MIN_CAP && (s.changedAt.Some? ==> s.changedAt.value <= now)
    ensures var a, t := Pruned(s, now), Recomputed(s, now);
      && (Pressed(a) && s.cap > MIN_CAP ==>
        t.cap == (if s.cap - Pressure(a) < MIN_CAP then MIN_CAP else s.cap - Pressure(a)))
      && (!(Pressed(a) && s.cap > MIN_CAP) ==>
        t.cap == s.cap + if s.cap < DEFAULT_INIT_CAP && Settled(s, now) && a.window429 == [] then 1 else 0)
      && t.changedAt == (if t.cap != s.cap then Some(now) else s.changedAt)
      && (t.notified <==> s.notified || t.cap != s.cap)
  {
    RecentIsWindow(s, now);
  }

  lemma StepKeepsCap(w: World, l: Label, limit: int)
    requires Within(w, limit) && limit >= DEFAULT_INIT_CAP
    ensures Within(Apply(w, l), limit)
  {
    if l.now >= w.clock && l.Tick? {
      TickMoves(w.s, l.now);
    }
  }

  /** Over any run the cap stays between 1 and the larger of its initial value and 4, and
      the window holds exactly the 429s after the latest cutoff. */
  lemma {:induction false} RunsKeepBounds(initCap: int, persisted: int, clock: int, labels: seq<Label>)
    ensures var w := Run(initCap, persisted, clock, labels);
      Within(w, CapLimit(initCap, persisted)) && Windowed(w)
  {
    if labels != [] {
      var n := |labels| - 1;
      RunsKeepBounds(initCap, persisted, clock, labels[..n]);
      StepKeepsCap(Run(initCap, persisted, clock, labels[..n]), labels[n], CapLimit(initCap, persisted));
      StepKeepsWindow(Run(initCap, persisted, clock, labels[..n]), labels[n]);
    }
  }

  /** The latest 429 is between 10 and 30 seconds old. */
  predicate Between(failures: seq<int>, now: int) {
    failures != [] && now - QUIET < failures[|failures| - 1] <= now - WINDOW
  }

  /** Recovery is said to wait for 30 seconds without a 429, but waits for 10: the two
      differ exactly when the latest 429 is between 10 and 30 seconds old. */
  lemma RecoveryWaits(w: World, now: int)
    requires Windowed(w) && now >= w.clock
    ensures QuietFor(Pruned(w.s, now).window429, now, QUIET) <==> QuietFor(w.failures, now, WINDOW)
    ensures QuietFor(Pruned(w.s, now).window429, now, QUIET) != QuietFor(w.failures, now, QUIET) <==> Between(w.failures, now)
  {
    TickWindow(w, now);
    EmptyWindowIsQuiet(w.failures, now);
    RecentIsWindow(w.s, now);
  }

  /** The tick as announced: recovery after 30 quiet seconds. */
  function AnnouncedTick(w: World, now: int): State {
    RecoveredIf(Lowered(w.s, now), QuietFor(w.failures, now, QUIET), now)
  }

  /** In every run the actual tick leaves another cap than the announced one exactly when
      the latest 429 is between 10 and 30 seconds old, the cap is low and has not changed
      for a minute, and no pressure lowers it now. */
  lemma TickDiffersFromAnnounced(initCap: int, persisted: int, clock: int, labels: seq<Label>, now: int)
    requires now >= Run(initCap, persisted, clock, labels).clock
    ensures var w := Run(initCap, persisted, clock, labels);
      Recomputed(w.s, now).cap != AnnouncedTick(w, now).cap <==>
        && Between(w.failures, now) && w.s.cap < DEFAULT_INIT_CAP && Settled(w.s, now)
        && !(Pressed(Pruned(w.s, now)) && w.s.cap > MIN_CAP)
  {
    var w := Run(initCap, persisted, clock, labels);
    RunsKeepBounds(initCap, persisted, clock, labels);
    RecoveryWaits(w, now);
    LoweredKeeps(w.s, now);
  }

  /** Lowering touches the windows no further, and a lowered cap has just changed. */
  lemma LoweredKeeps(s: State, now: int)
    requires s.cap >= MIN_CAP
    ensures var b := Lowered(s, now);
      && b.window429 == Pruned(s, now).window429
      && (if Pressed(Pruned(s, now)) && s.cap > MIN_CAP then b.changedAt == Some(now) && b.cap < s.cap
          else b.cap == s.cap && b.changedAt == s.changedAt)
  {
  }

  lemma EmptyWindowIsQuiet(failures: seq<int>, now: int)
    ensures Filter(failures, After(now - WINDOW)) == [] <==> QuietFor(failures, now, WINDOW)
  {
    var p := After(now - WINDOW);
    var window := Filter(failures, p);
    FilterMembers(failures, p);
    if window != [] {
      assert window[0] in window;
    } else {
      forall i | 0 <= i < |failures|
        ensures failures[i] <= now - WINDOW
      {
        assert failures[i] in failures && !p(failures[i]);
      }
    }
  }

  lemma ThreeSteps(initCap: int, a: Label, b: Label, c: Label)
    ensures Run(initCap, 0, 0, [a, b, c])
      == Apply(Apply(Apply(World(Initial(initCap, 0), [], [], 0, None), a), b), c)
  {
    var labels := [a, b, c];
    assert labels[..2] == [a, b] && [a, b][..1] == [a] && [a][..0] == [];
    assert Run(initCap, 0, 0, [a, b]) == Apply(Run(initCap, 0, 0, [a]), b);
  }

  // The tick, told from the history.

  /** The retained latencies are the latest samples, at least 200 of them if there are more. */
  ghost predicate Suffix(samples: seq<int>, kept: seq<int>) {
    |kept| <= |samples| && kept == samples[|samples| - |kept|..] && (|kept| < |samples| ==> |kept| >= 200)
  }

  ghost predicate Latest(w: World) {
    Suffix(w.samples, w.s.latencies)
  }

  function LastOf(samples: seq<int>, n: nat): seq<int> {
    if |samples| > n then samples[|samples| - n..] else samples
  }

  lemma SuffixGrows(samples: seq<int>, kept: seq<int>, x: int)
    requires Suffix(samples, kept)
    ensures Suffix(samples + [x], kept + [x])
  {
    assert (samples + [x])[|samples| - |kept|..] == samples[|samples| - |kept|..] + [x];
  }

  lemma SuffixShrinks(samples: seq<int>, kept: seq<int>)
    requires Suffix(samples, kept)
    ensures Suffix(samples, Newest(kept)) && Newest(kept) == LastOf(samples, 200)
  {
  }

  lemma StepKeepsLatest(w: World, l: Label)
    requires Latest(w)
    ensures Latest(Apply(w, l))
  {
    if l.now >= w.clock {
      if l.Request? {
        SuffixGrows(w.samples, w.s.latencies, l.now - l.start);
      } else if l.Tick? {
        SuffixShrinks(w.samples, w.s.latencies);
        assert Recomputed(w.s, l.now).latencies == Newest(w.s.latencies);
      }
    }
  }

  lemma {:induction false} RunsKeepLatest(initCap: int, persisted: int, clock: int, labels: seq<Label>)
    ensures Latest(Run(initCap, persisted, clock, labels))
  {
    if labels != [] {
      var n := |labels| - 1;
      RunsKeepLatest(initCap, persisted, clock, labels[..n]);
      StepKeepsLatest(Run(initCap, persisted, clock, labels[..n]), labels[n]);
    }
  }

  lemma {:induction false} FilterCounts(s: seq<int>, p: int -> bool)
    ensures |Filter(s, p)| == Count(s, p)
  {
    if s != [] {
      FilterCounts(s[..|s| - 1], p);
    }
  }

  /** At least two 429s in the last ten seconds. */
  predicate Rejecting(failures: seq<int>, now: int) {
    Count(failures, After(now - 10_000_000_000)) >= 2
  }

  /** The sample of rank 0.95 (n - 1), rounded down, of the last 200 exceeds twice the
      baseline, and there are at least five. */
  ghost predicate Slow(samples: seq<int>, baseline: int) {
    var window := LastOf(samples, 200);
    && |window| >= 5 && baseline > 0
    && exists k: nat, r: int :: IsRank95(|window|, k) && HasRank(window, k, r) && r > 2 * baseline
  }

  predicate IsRank95(n: nat, k: nat) {
    100 * k <= 95 * (n - 1) < 100 * (k + 1)
  }

  lemma Rank95(n: nat)
    requires n > 0
    ensures IsRank95(n, RankIndex(n, 0.95))
    ensures forall k: nat | IsRank95(n, k) :: k == RankIndex(n, 0.95)
  {
    var x := (n - 1) as real * 0.95;
    assert x.Floor as real <= x < x.Floor as real + 1.0;
  }

  lemma {:induction false} InsertCounts(s: seq<int>, x: int, p: int -> bool)
    ensures Count(Insert(s, x, Le()), p) == Count(s, p) + (if p(x) then 1 else 0)
    ensures |Insert(s, x, Le())| == |s| + 1
  {
    if s == [] {
      CountOne(x, p);
    } else if Le()(s[|s| - 1], x) {
      CountAppend(s, x, p);
    } else {
      InsertCounts(s[..|s| - 1], x, p);
      CountAppend(Insert(s[..|s| - 1], x, Le()), s[|s| - 1], p);
    }
  }

  lemma {:induction false} SortCounts(s: seq<int>, p: int -> bool)
    ensures Count(SortBy(s, Le()), p) == Count(s, p) && |SortBy(s, Le())| == |s|
  {
    if s != [] {
      SortCounts(s[..|s| - 1], p);
      InsertCounts(SortBy(s[..|s| - 1], Le()), s[|s| - 1], p);
    }
  }

  /** There is an element of each rank. */
  lemma RankExists(s: seq<int>, k: nat) returns (r: int)
    requires k < |s|
    ensures HasRank(s, k, r)
  {
    var sorted := SortBy(s, Le());
    SortBySorts(s, Le());
    SortCounts(s, Under(0));
    SortedHasRank(sorted, k);
    r := sorted[k];
    SortCounts(s, Under(r));
    SortCounts(s, Upto(r));
  }

  lemma SpikingMeans(samples: seq<int>, window: seq<int>, baseline: int)
    requires window == LastOf(samples, 200)
    ensures (|window| >= MIN_SAMPLES && baseline > 0 && Count(window, Upto(2 * baseline)) <= RankIndex(|window|, 0.95))
      <==> Slow(samples, baseline)
  {
    if |window| >= 5 {
      var k := RankIndex(|window|, 0.95);
      Rank95(|window|);
      var r := RankExists(window, k);
      RankExceeds(window, k, r, 2 * baseline);
      forall q | HasRank(window, k, q)
        ensures q == r
      {
        RankUnique(window, k, q, r);
      }
    }
  }

  /** One tick of any run, told from the 429s and latencies seen: two 429s in ten seconds and
      a slow 95th percentile each lower the cap by one, not below 1; a cap not so lowered
      rises by one if it is under 4, has not changed for more than a minute, and no 429 came
      in ten seconds. */
  lemma TickLaw(initCap: int, persisted: int, clock: int, labels: seq<Label>, now: int)
    requires now >= Run(initCap, persisted, clock, labels).clock
    ensures var w := Run(initCap, persisted, clock, labels); var cap, t := w.s.cap, Recomputed(w.s, now).cap;
      var down := (if Rejecting(w.failures, now) then 1 else 0) + (if Slow(w.samples, w.s.baseline) then 1 else 0);
      var settled := w.s.changedAt.None? || now - w.s.changedAt.value > 60_000_000_000;
      if down > 0 && cap > 1 then t == (if cap - down < 1 then 1 else cap - down)
      else t == cap + if cap < 4 && settled && Count(w.failures, After(now - 10_000_000_000)) == 0 then 1 else 0
  {
    var w := Run(initCap, persisted, clock, labels);
    RunsKeepBounds(initCap, persisted, clock, labels);
    RunsKeepLatest(initCap, persisted, clock, labels);
    PressureMeans(w, now);
    TickMoves(w.s, now);
  }

  lemma PressureMeans(w: World, now: int)
    requires Windowed(w) && Latest(w) && now >= w.clock
    ensures var a := Pruned(w.s, now);
      && (Throttled(a) <==> Rejecting(w.failures, now)) && (Spiking(a) <==> Slow(w.samples, w.s.baseline))
      && (a.window429 == [] <==> Count(w.failures, After(now - 10_000_000_000)) == 0)
  {
    var a := Pruned(w.s, now);
    TickWindow(w, now);
    assert a.window429 == Filter(w.failures, After(now - 10_000_000_000));
    FilterCounts(w.failures, After(now - 10_000_000_000));
    SuffixShrinks(w.samples, w.s.latencies);
    SpikingMeans(w.samples, a.latencies, w.s.baseline);
  }

  /** The percentile's rank is (n - 1) p, rounded down. */
  lemma RankIndexMeans(n: nat, p: real)
    requires n > 0 && 0.0 <= p <= 1.0
    ensures RankIndex(n, p) as real <= (n - 1) as real * p < RankIndex(n, p) as real + 1.0
  {
    var x := (n - 1) as real * p;
    RankWithin(n, p);
    assert x.Floor as real <= x < x.Floor as real + 1.0;
  }

  lemma RankWithin(n: nat, p: real)
    requires n > 0 && 0.0 <= p <= 1.0
    ensures 0.0 <= (n - 1) as real * p <= (n - 1) as real
  {
  }

  /** The average is nine parts baseline to one part latency, rounded towards zero, and lies
      between the two. */
  lemma AverageMeans(baseline: int, lat: int)
    ensures var x := 9 * baseline + lat; var a := Average(baseline, lat);
      if x >= 0 then 10 * a <= x < 10 * a + 10 else 10 * a - 10 < x <= 10 * a
    ensures (if baseline <= lat then baseline else lat) <= Average(baseline, lat) <= (if baseline <= lat then lat else baseline)
  {
    var r := baseline as real * 0.9 + lat as real * 0.1;
    assert 10.0 * r == (9 * baseline + lat) as real;
    assert r.Floor as real <= r < r.Floor as real + 1.0;
    assert (-r).Floor as real <= -r < (-r).Floor as real + 1.0;
  }

  /** A request adds its latency, which is the baseline of the first nine and averaged in
      from then on, and its time if it was turned down. */
  lemma RequestMeans(s: State, start: int, status: int, now: int)
    ensures var t := Recorded(s, start, status, now);
      && t.latencies == s.latencies + [now - start] && t.cap == s.cap && t.changedAt == s.changedAt
      && t.window429 == (if status == 429 then s.window429 + [now] else s.window429)
      && (s.baseline == 0 || |s.latencies| < 9 ==> t.baseline == now - start)
      && (s.baseline != 0 && |s.latencies| >= 9 ==> t.baseline == Average(s.baseline, now - start))
  {
  }

  /** An opened circuit leaves a cap of 1, a closed one turns a cap of 1 into 4. */
  lemma CircuitMeans(w: World, now: int)
    requires now >= w.clock
    ensures var s := Apply(w, CircuitOpen(now)).s; s.cap == 1 && (w.s.cap != 1 ==> s.changedAt == Some(now) && s.notified)
    ensures var s := Apply(w, CircuitClosed(now)).s;
      && s.cap == (if w.s.cap == 1 then 4 else w.s.cap)
      && (w.s.cap == 1 ==> s.changedAt == Some(now) && s.notified)
  {
  }

  /** After the circuit opened at 0 and a 429 arrived at 50 seconds. */
  lemma OpenedThenRejected()
    ensures Apply(Apply(World(Initial(4, 0), [], [], 0, None), CircuitOpen(0)), Request(50 * SECOND, 429, 50 * SECOND))
      == World(State(1, [50 * SECOND], [0], 0, Some(0), true), [50 * SECOND], [0], 50 * SECOND, None)
  {
    assert [] + [50 * SECOND] == [50 * SECOND] && [] + [0] == [0];
  }

  /** A run in which the cap recovers 20 seconds after a 429. */
  lemma RecoversTwentySecondsAfterA429()
    ensures Run(4, 0, 0, [CircuitOpen(0), Request(50 * SECOND, 429, 50 * SECOND), Tick(70 * SECOND)]).s.cap == 2
  {
    ThreeSteps(4, CircuitOpen(0), Request(50 * SECOND, 429, 50 * SECOND), Tick(70 * SECOND));
    OpenedThenRejected();
    var w := World(State(1, [50 * SECOND], [0], 0, Some(0), true), [50 * SECOND], [0], 50 * SECOND, None);
    RecoveryWaits(w, 70 * SECOND);
    RecentIsWindow(w.s, 70 * SECOND);
    TickMoves(w.s, 70 * SECOND);
  }
}
