/** The request tracker: live requests in a map, finished ones in a bounded buffer that
    refines the full finish history. Clock readings (nanoseconds) never go backwards. */
module RequestTracker {
  import opened Ordering
  import opened Text

  datatype Record = Record(
    id: string, model: string, workerId: string, workerHost: string, kind: string,
    startedAt: nat, finishedAt: nat, status: string, durationMs: nat)

  const DEFAULT_MAX_COMPLETED := 200
  const DEFAULT_TTL := 600_000_000_000
  const NANOS_PER_MS := 1_000_000

  /** fmt.Sprintf("req-%d-%d", nanos, n). */
  function RequestId(nanos: nat, n: nat): string {
    "req-" + (Decimal(nanos) + ['-'] + Decimal(n))
  }

  /** The counter alone makes request IDs unique. */
  lemma RequestIdInjective(nanos: nat, n: nat, nanos': nat, n': nat)
    requires RequestId(nanos, n) == RequestId(nanos', n')
    ensures nanos == nanos' && n == n'
  {
    DecimalDigits(nanos);
    DecimalDigits(nanos');
    var a, b := RequestId(nanos, n)[4..], RequestId(nanos', n')[4..];
    assert a == Decimal(nanos) + ['-'] + Decimal(n);
    assert b == Decimal(nanos') + ['-'] + Decimal(n');
    SplitAtSeparator(Decimal(nanos), Decimal(n), Decimal(nanos'), Decimal(n'), '-');
    DecimalInjective(nanos, nanos');
    DecimalInjective(n, n');
  }

  /** The length of the longest newest-first prefix of the finish history that has at
      most `max` entries, none of them finished before `threshold`. */
  function Retained(history: seq<Record>, max: nat, threshold: int): nat {
    if history == [] || max == 0 || history[0].finishedAt < threshold then 0
    else 1 + Retained(history[1..], max - 1, threshold)
  }

  /** It is a prefix of that kind, and the next entry, if any, would break it. */
  lemma {:induction false} RetainedIsLongest(history: seq<Record>, max: nat, threshold: int)
    ensures var k := Retained(history, max, threshold);
      && k <= |history| && k <= max
      && (forall i | 0 <= i < k :: history[i].finishedAt >= threshold)
      && (k < |history| && k < max ==> history[k].finishedAt < threshold)
  {
    if history != [] && max > 0 && history[0].finishedAt >= threshold {
      RetainedIsLongest(history[1..], max - 1, threshold);
    }
  }

  lemma {:induction false} RetainedFromBounds(history: seq<Record>, max: nat, threshold: int, k: nat)
    requires k <= |history| && k <= max
    requires forall i | 0 <= i < k :: history[i].finishedAt >= threshold
    requires k < |history| && k < max ==> history[k].finishedAt < threshold
    ensures k == Retained(history, max, threshold)
  {
    if k > 0 {
      RetainedFromBounds(history[1..], max - 1, threshold, k - 1);
    }
  }

  ghost predicate NewestFirst(history: seq<Record>) {
    forall i, j | 0 <= i < j < |history| :: history[i].finishedAt >= history[j].finishedAt
  }

  /** pruneLocked on the buffer: cap it, then cut expired entries off its old end. */
  method PruneBuffer(completed: seq<Record>, max: nat, threshold: int) returns (kept: seq<Record>)
    requires NewestFirst(completed)
    ensures Retained(completed, max, threshold) <= |completed|
    ensures kept == completed[..Retained(completed, max, threshold)]
  {
    kept := completed;
    if |kept| > max {
      kept := kept[..max];
    }
    var cut := |kept|;
    while cut > 0 && kept[cut - 1].finishedAt < threshold
      invariant 0 <= cut <= |kept|
      invariant forall i | cut <= i < |kept| :: kept[i].finishedAt < threshold
    {
      cut := cut - 1;
    }
    RetainedFromBounds(completed, max, threshold, cut);
    kept := kept[..cut];
  }

  /** What an earlier prune dropped, a later one would drop too: pruning the buffer is
      pruning the whole history. */
  lemma BufferSuffices(history: seq<Record>, k: nat, max: nat, threshold: int)
    requires NewestFirst(history) && k <= |history|
    requires k < |history| && k < max ==> history[k].finishedAt < threshold
    ensures Retained(history[..k], max, threshold) == Retained(history, max, threshold) <= k
  {
    var r := Retained(history[..k], max, threshold);
    RetainedIsLongest(history[..k], max, threshold);
    RetainedFromBounds(history, max, threshold, r);
  }

  function Ids(records: seq<Record>): set<string> {
    set r | r in records :: r.id
  }

  ghost predicate DistinctIds(records: seq<Record>) {
    forall i, j | 0 <= i < j < |records| :: records[i].id != records[j].id
  }

  /** Newest start first, request ID on ties. */
  function Newest(): (Record, Record) -> bool {
    (a: Record, b: Record) => a.startedAt > b.startedAt || (a.startedAt == b.startedAt && AtMost(a.id, b.id))
  }

  lemma NewestIsTotal()
    ensures TotalOrder(Newest())
  {
    forall x: Record, y: Record
      ensures Comparable(Newest(), x, y)
    {
      Trichotomy(x.id, y.id);
    }
    forall x: Record, y: Record, z: Record
      ensures Chains(Newest(), x, y, z)
    {
      if AtMost(x.id, y.id) && AtMost(y.id, z.id) {
        AtMostTransitive(x.id, y.id, z.id);
      }
    }
  }

  /** The live records and the buffer, each exactly once, newest first. */
  ghost predicate Listing(out: seq<Record>, active: map<string, Record>, completed: seq<Record>) {
    && Distinct(out)
    && (forall r :: r in out <==> r in completed || (r.id in active && active[r.id] == r))
    && Sorted(out, Newest())
  }

  /** There is only one such listing, so repeated polls cannot shuffle it. */
  lemma ListingUnique(a: seq<Record>, b: seq<Record>, active: map<string, Record>, completed: seq<Record>)
    requires Listing(a, active, completed) && Listing(b, active, completed)
    requires DistinctIds(completed) && active.Keys !! Ids(completed)
    ensures a == b
  {
    DistinctBag(a);
    DistinctBag(b);
    assert (set r | r in a) == (set r | r in b);
    forall x, y | x in a && y in a && Newest()(x, y) && Newest()(y, x)
      ensures x == y
    {
      Trichotomy(x.id, y.id);
      assert x.id == y.id;
    }
    SortedUnique(a, b, Newest());
  }

  /** Begun requests are live or in the history, never both, and IDs never repeat. */
  ghost predicate Accounts(active: map<string, Record>, history: seq<Record>, begun: set<string>, seqNo: nat, now: nat) {
    && (forall id | id in active :: active[id].id == id && active[id].startedAt <= now)
    && begun == active.Keys + Ids(history) && active.Keys !! Ids(history) && DistinctIds(history)
    && (forall id | id in begun :: Minted(id, seqNo))
  }

  ghost predicate Minted(id: string, seqNo: nat) {
    exists t: nat, n: nat :: n <= seqNo && id == RequestId(t, n)
  }

  lemma NextIdIsNew(at: nat, seqNo: nat)
    ensures Minted(RequestId(at, seqNo + 1), seqNo + 1) && !Minted(RequestId(at, seqNo + 1), seqNo)
    ensures forall id | Minted(id, seqNo) :: Minted(id, seqNo + 1)
  {
    if Minted(RequestId(at, seqNo + 1), seqNo) {
      var t: nat, n: nat :| n <= seqNo && RequestId(at, seqNo + 1) == RequestId(t, n);
      RequestIdInjective(at, seqNo + 1, t, n);
    }
  }

  lemma FinishAccounts(active: map<string, Record>, history: seq<Record>, begun: set<string>, seqNo: nat, now: nat,
                       r: Record, at: nat)
    requires Accounts(active, history, begun, seqNo, now) && r.id in active && at >= now
    ensures Accounts(active - {r.id}, [r] + history, begun, seqNo, at)
  {
    IdsCons(r, history);
  }

  lemma BeginAccounts(active: map<string, Record>, history: seq<Record>, begun: set<string>, seqNo: nat, now: nat,
                      r: Record, mintedAt: nat, at: nat)
    requires Accounts(active, history, begun, seqNo, now) && at >= now
    requires r.id == RequestId(mintedAt, seqNo + 1) && r.startedAt == at
    ensures r.id !in begun && Accounts(active[r.id := r], history, begun + {r.id}, seqNo + 1, at)
  {
    NextIdIsNew(mintedAt, seqNo);
  }

  /** The buffer is the retained prefix of the history as of the prune at `at`. */
  ghost predicate Keeps(completed: seq<Record>, history: seq<Record>, max: nat, ttl: int, at: nat) {
    && NewestFirst(history) && (forall i | 0 <= i < |history| :: history[i].finishedAt <= at)
    && Retained(history, max, at - ttl) <= |history|
    && completed == history[..Retained(history, max, at - ttl)]
  }

  /** The buffer is a prefix; what is missing is beyond the cap or expired at `at`. */
  ghost predicate Prunable(completed: seq<Record>, history: seq<Record>, max: nat, ttl: int, at: nat) {
    && NewestFirst(history) && (forall i | 0 <= i < |history| :: history[i].finishedAt <= at)
    && |completed| <= |history| && completed == history[..|completed|]
    && (|completed| < |history| && |completed| < max ==> history[|completed|].finishedAt < at - ttl)
  }

  lemma LaterPrunable(completed: seq<Record>, history: seq<Record>, max: nat, ttl: int, prunedAt: nat, at: nat)
    requires Keeps(completed, history, max, ttl, prunedAt) && at >= prunedAt
    ensures Prunable(completed, history, max, ttl, at)
  {
    RetainedIsLongest(history, max, prunedAt - ttl);
  }

  lemma FinishPrunable(completed: seq<Record>, history: seq<Record>, max: nat, ttl: int, prunedAt: nat, r: Record, at: nat)
    requires Keeps(completed, history, max, ttl, prunedAt) && at >= prunedAt && r.finishedAt == at
    ensures Prunable([r] + completed, [r] + history, max, ttl, at)
  {
    LaterPrunable(completed, history, max, ttl, prunedAt, at);
    assert ([r] + history)[..|completed| + 1] == [r] + completed;
  }

  /** pruneLocked: the buffer becomes the retained prefix of the whole history. */
  method PruneLocked(completed: seq<Record>, ghost history: seq<Record>, max: nat, ttl: int, at: nat)
    returns (kept: seq<Record>)
    requires Prunable(completed, history, max, ttl, at)
    ensures Keeps(kept, history, max, ttl, at)
  {
    BufferSuffices(history, |completed|, max, at - ttl);
    kept := PruneBuffer(completed, max, at - ttl);
  }

  /** A finished request enters at the front, and the buffer is pruned. */
  method PrependAndPrune(r: Record, completed: seq<Record>, ghost history: seq<Record>, max: nat, ttl: int,
                         ghost prunedAt: nat, at: nat) returns (kept: seq<Record>)
    requires Keeps(completed, history, max, ttl, prunedAt) && at >= prunedAt && r.finishedAt == at
    ensures Keeps(kept, [r] + history, max, ttl, at)
  {
    FinishPrunable(completed, history, max, ttl, prunedAt, r, at);
    kept := PruneLocked([r] + completed, [r] + history, max, ttl, at);
  }

  class Tracker {
    const maxCompleted: nat
    const completedTTL: int
    var active: map<string, Record>
    var completed: seq<Record>
    var requestIDSeq: nat
    /** Every request ever finished, newest first; every ID ever begun; the clock. */
    ghost var history: seq<Record>
    ghost var begun: set<string>
    ghost var now: nat
    ghost var prunedAt: nat

    /** The requests no longer shown. */
    ghost function Reaped(): set<string>
      reads this
    {
      Ids(history) - Ids(completed)
    }

    ghost predicate Valid()
      reads this
    {
      && prunedAt <= now
      && Accounts(active, history, begun, requestIDSeq, now)
      && Keeps(completed, history, maxCompleted, completedTTL, prunedAt)
    }

    constructor (maxCompleted: int, completedTTL: int)
      ensures Valid() && active == map[] && completed == [] && begun == {} && history == []
      ensures this.maxCompleted == if maxCompleted <= 0 then 200 else maxCompleted
      ensures this.completedTTL == if completedTTL <= 0 then 600_000_000_000 else completedTTL
    {
      this.maxCompleted := if maxCompleted <= 0 then DEFAULT_MAX_COMPLETED else maxCompleted;
      this.completedTTL := if completedTTL <= 0 then DEFAULT_TTL else completedTTL;
      active, completed, requestIDSeq, history, begun, now, prunedAt := map[], [], 0, [], {}, 0, 0;
    }

    /** The clock is read for the ID, then for the start time. */
    method Begin(model: string, workerId: string, workerHost: string, kind: string, mintedAt: nat, at: nat) returns (id: string)
      requires Valid() && at >= mintedAt >= now
      modifies this
      ensures Valid() && id !in old(begun) && begun == old(begun) + {id}
      ensures active == old(active)[id := Record(id, model, workerId, workerHost, kind, at, 0, "in-flight", 0)]
      ensures completed == old(completed) && history == old(history)
      ensures requestIDSeq == old(requestIDSeq) + 1 && id == "req-" + (Decimal(mintedAt) + ['-'] + Decimal(requestIDSeq))
    {
      id := RequestId(mintedAt, requestIDSeq + 1);
      var r := Record(id, model, workerId, workerHost, kind, at, 0, "in-flight", 0);
      BeginAccounts(active, history, begun, requestIDSeq, now, r, mintedAt, at);
      requestIDSeq := requestIDSeq + 1;
      active := active[id := r];
      begun, now := begun + {id}, at;
    }

    /** Unknown and finished IDs are ignored. */
    method SetStatus(id: string, status: string)
      requires Valid()
      modifies this`active
      ensures Valid()
      ensures active == if id in old(active) then old(active)[id := old(active)[id].(status := status)] else old(active)
    {
      if id in active {
        active := active[id := active[id].(status := status)];
        assert active.Keys == old(active).Keys;
      }
    }

    /** Move a live request to the front of the buffer; unknown IDs are ignored. */
    method Finish(id: string, status: string, at: nat)
      requires Valid() && at >= now
      modifies this
      ensures Valid() && begun == old(begun)
      ensures id !in old(active) ==> active == old(active) && history == old(history) && completed == old(completed)
      ensures id in old(active) ==>
        && active == old(active) - {id} && prunedAt == at
        && history == [Completion(old(active)[id], status, at)] + old(history)
    {
      if id !in active {
        return;
      }
      var r := Completion(active[id], status, at);
      FinishAccounts(active, history, begun, requestIDSeq, now, r, at);
      active := active - {id};
      completed := PrependAndPrune(r, completed, history, maxCompleted, completedTTL, prunedAt, at);
      history, now, prunedAt := [r] + history, at, at;
    }

    /** Prune, then list the live requests and the buffer, newest first. */
    method Snapshot(at: nat) returns (out: seq<Record>)
      requires Valid() && at >= now
      modifies this
      ensures Valid() && prunedAt == at && active == old(active) && history == old(history) && begun == old(begun)
      ensures Listing(out, active, completed)
    {
      LaterPrunable(completed, history, maxCompleted, completedTTL, prunedAt, at);
      completed := PruneLocked(completed, history, maxCompleted, completedTTL, at);
      now, prunedAt := at, at;
      PrefixIds(history, |completed|);
      var all := Collected(active, completed);
      out := Arranged(all, active, completed);
    }
  }

  /** The live records, in whatever order the map yields them, then the buffer. */
  method Collected(active: map<string, Record>, completed: seq<Record>) returns (all: seq<Record>)
    requires forall id | id in active :: active[id].id == id
    requires DistinctIds(completed) && active.Keys !! Ids(completed)
    ensures Distinct(all)
    ensures forall r :: r in all <==> r in completed || (r.id in active && active[r.id] == r)
  {
    all := [];
    var todo := active.Keys;
    while todo != {}
      invariant todo <= active.Keys && Distinct(all)
      invariant forall r :: r in all <==> r.id in active && r.id !in todo && active[r.id] == r
      decreases |todo|
    {
      var id :| id in todo;
      all, todo := all + [active[id]], todo - {id};
    }
    ghost var live := all;
    all := all + completed;
    forall i, j | 0 <= i < j < |all|
      ensures all[i] != all[j]
    {
      assert i < |live| <= j ==> live[i] in live && all[j] in completed && all[j].id in Ids(completed);
    }
  }

  /** The finished form of a live record. */
  function Completion(r: Record, status: string, at: nat): Record {
    r.(finishedAt := at, status := status, durationMs := if at >= r.startedAt then (at - r.startedAt) / NANOS_PER_MS else 0)
  }

  lemma IdsCons(r: Record, records: seq<Record>)
    ensures Ids([r] + records) == {r.id} + Ids(records)
    ensures r.id !in Ids(records) && DistinctIds(records) ==> DistinctIds([r] + records)
  {
    var all := [r] + records;
    assert forall x :: x in all <==> x == r || x in records;
    if r.id !in Ids(records) && DistinctIds(records) {
      forall i, j | 0 <= i < j < |all|
        ensures all[i].id != all[j].id
      {
        assert all[j] == records[j - 1] && records[j - 1] in records;
      }
    }
  }

  lemma PrefixIds(records: seq<Record>, k: nat)
    requires k <= |records|
    ensures Ids(records[..k]) <= Ids(records)
    ensures DistinctIds(records) ==> DistinctIds(records[..k])
  {
    assert forall x | x in records[..k] :: x in records;
  }

  /** Sorting the collected records gives the listing. */
  method Arranged(all: seq<Record>, active: map<string, Record>, completed: seq<Record>) returns (out: seq<Record>)
    requires Distinct(all)
    requires forall r :: r in all <==> r in completed || (r.id in active && active[r.id] == r)
    ensures Listing(out, active, completed)
  {
    out := SortBy(all, Newest());
    NewestIsTotal();
    SortBySorts(all, Newest());
    SortByPermutes(all, Newest());
    SameMembers(out, all);
    DistinctBag(all);
    BagDistinct(out, set r | r in all);
  }

  lemma SameMembers(a: seq<Record>, b: seq<Record>)
    requires multiset(a) == multiset(b)
    ensures forall r :: r in a <==> r in b
  {
    assert forall r :: r in a <==> r in multiset(a);
    assert forall r :: r in b <==> r in multiset(b);
  }

  lemma RepeatCounts(s: seq<Record>, i: nat, j: nat)
    requires i < j < |s| && s[i] == s[j]
    ensures multiset(s)[s[i]] >= 2
  {
    assert s == s[..i] + [s[i]] + s[i + 1..j] + [s[j]] + s[j + 1..];
  }

  lemma BagDistinct(s: seq<Record>, members: set<Record>)
    requires multiset(s) == multiset(members)
    ensures Distinct(s)
  {
    forall i, j | 0 <= i < j < |s|
      ensures s[i] != s[j]
    {
      if s[i] == s[j] {
        RepeatCounts(s, i, j);
      }
    }
  }

  /** Every begun request is live, shown as completed, or reaped: exactly one of these. */
  lemma ExactlyOneHome(t: Tracker, id: string)
    requires t.Valid() && id in t.begun
    ensures (if id in t.active then 1 else 0) + (if id in Ids(t.completed) then 1 else 0)
      + (if id in t.Reaped() then 1 else 0) == 1
  {
    PrefixIds(t.history, |t.completed|);
  }

  /** What finishing makes of a record: the status and the time of the end are noted, the
      duration is in whole milliseconds, and nothing else changes. */
  lemma CompletionMeans(r: Record, status: string, at: nat)
    ensures var d := Completion(r, status, at);
      && d.id == r.id && d.model == r.model && d.workerId == r.workerId && d.workerHost == r.workerHost && d.kind == r.kind
      && d.startedAt == r.startedAt && d.finishedAt == at && d.status == status
      && (at >= r.startedAt ==> 1_000_000 * d.durationMs <= at - r.startedAt < 1_000_000 * (d.durationMs + 1))
      && (at < r.startedAt ==> d.durationMs == 0)
  {
  }

  /** What a listing shows: the latest start first, the lower ID first among equal starts. */
  lemma ListingMeans(out: seq<Record>, active: map<string, Record>, completed: seq<Record>, i: nat, j: nat)
    requires Listing(out, active, completed) && i < j < |out|
    requires DistinctIds(completed) && active.Keys !! Ids(completed)
    ensures out[i].startedAt > out[j].startedAt || (out[i].startedAt == out[j].startedAt && Below(out[i].id, out[j].id))
  {
    assert Newest()(out[i], out[j]) && out[i] != out[j];
    assert out[i] in out && out[j] in out;
  }

  /** What the buffer holds: the newest of the history, at most as many as allowed, none older
      than allowed at the last prune, and all of the history that meets both. */
  lemma BufferMeans(t: Tracker)
    requires t.Valid()
    ensures t.completed <= t.history && |t.completed| <= t.maxCompleted
    ensures forall r | r in t.completed :: r.finishedAt >= t.prunedAt - t.completedTTL
    ensures |t.completed| < |t.history| && |t.completed| < t.maxCompleted ==>
      forall i | |t.completed| <= i < |t.history| :: t.history[i].finishedAt < t.prunedAt - t.completedTTL
  {
    RetainedIsLongest(t.history, t.maxCompleted, t.prunedAt - t.completedTTL);
  }
}
