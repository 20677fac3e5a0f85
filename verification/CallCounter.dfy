/** Model call counts over a rolling window, refining the full call history. Clock
    readings are parameters that never go backwards. */
module CallCounter {
  import opened Counting

  datatype CallEvent = CallEvent(model: string, at: int)

  function CallsFor(model: string): CallEvent -> bool {
    (e: CallEvent) => e.model == model
  }

  function RecentCallsFor(model: string, since: int): CallEvent -> bool {
    (e: CallEvent) => e.model == model && e.at >= since
  }

  /** Calls for `model` in `history` at or after `since`. */
  function Recent(history: seq<CallEvent>, model: string, since: int): nat {
    Count(history, RecentCallsFor(model, since))
  }

  predicate TalliesAt(counts: map<string, int>, events: seq<CallEvent>, model: string) {
    && (model in counts <==> Count(events, CallsFor(model)) > 0)
    && (model in counts ==> counts[model] == Count(events, CallsFor(model)))
  }

  /** The counts are those of `events`, with no entry for a model without events. */
  ghost predicate Tallies(counts: map<string, int>, events: seq<CallEvent>) {
    forall m :: TalliesAt(counts, events, m)
  }

  lemma DropFirst(events: seq<CallEvent>, model: string)
    requires events != []
    ensures Count(events, CallsFor(model)) ==
      Count(events[1..], CallsFor(model)) + if events[0].model == model then 1 else 0
  {
    assert events == [events[0]] + events[1..];
    CountConcat([events[0]], events[1..], CallsFor(model));
    CountAppend([], events[0], CallsFor(model));
    assert [] + [events[0]] == [events[0]];
  }

  function Uncounted(counts: map<string, int>, model: string): map<string, int> {
    if model !in counts then counts
    else if counts[model] <= 1 then counts - {model}
    else counts[model := counts[model] - 1]
  }

  lemma UncountTallies(counts: map<string, int>, events: seq<CallEvent>)
    requires events != [] && Tallies(counts, events)
    ensures Tallies(Uncounted(counts, events[0].model), events[1..])
  {
    forall m
      ensures TalliesAt(Uncounted(counts, events[0].model), events[1..], m)
    {
      DropFirst(events, m);
      DropFirst(events, events[0].model);
      assert TalliesAt(counts, events, m) && TalliesAt(counts, events, events[0].model);
    }
  }

  function Counted(counts: map<string, int>, model: string): map<string, int> {
    counts[model := (if model in counts then counts[model] else 0) + 1]
  }

  lemma CountTallies(counts: map<string, int>, events: seq<CallEvent>, e: CallEvent)
    requires Tallies(counts, events)
    ensures Tallies(Counted(counts, e.model), events + [e])
  {
    forall m
      ensures TalliesAt(Counted(counts, e.model), events + [e], m)
    {
      CountAppend(events, e, CallsFor(m));
      assert TalliesAt(counts, events, m);
    }
  }

  /** The prune loop: cut the expired front and keep the counts in step with it. */
  method PruneLoop(counts: map<string, int>, events: seq<CallEvent>, threshold: int)
    returns (cut: nat, left: map<string, int>)
    requires Tallies(counts, events)
    ensures cut <= |events| && (cut < |events| ==> events[cut].at >= threshold)
    ensures forall k | 0 <= k < cut :: events[k].at < threshold
    ensures Tallies(left, events[cut..])
  {
    cut, left := 0, counts;
    assert events[0..] == events;
    while cut < |events| && events[cut].at < threshold
      invariant cut <= |events|
      invariant forall k | 0 <= k < cut :: events[k].at < threshold
      invariant Tallies(left, events[cut..])
    {
      UncountTallies(left, events[cut..]);
      assert events[cut..][1..] == events[cut + 1..];
      var model := events[cut].model;
      if model in left {
        if left[model] <= 1 {
          left := left - {model};
        } else {
          left := left[model := left[model] - 1];
        }
      }
      cut := cut + 1;
    }
  }

  /** Everything cut off is too old to count, and everything kept is recent: so counting
      what is kept is counting the window of the full history. */
  lemma SuffixIsWindow(history: seq<CallEvent>, cut: nat, model: string, since: int)
    requires cut <= |history|
    requires forall i | 0 <= i < cut :: history[i].at < since
    requires forall i | cut <= i < |history| :: history[i].at >= since
    ensures Count(history[cut..], CallsFor(model)) == Recent(history, model, since)
  {
    var recent := RecentCallsFor(model, since);
    assert history == history[..cut] + history[cut..];
    CountConcat(history[..cut], history[cut..], recent);
    CountNone(history[..cut], recent);
    CountAgree(history[cut..], CallsFor(model), recent);
  }

  ghost predicate TimeOrdered(s: seq<CallEvent>) {
    forall i, j | 0 <= i < j < |s| :: s[i].at <= s[j].at
  }

  /** The counts refine the history: for every model, its calls within the window, and
      no entry when there are none. */
  ghost predicate Refines(counts: map<string, int>, history: seq<CallEvent>, since: int) {
    forall m ::
      && (m in counts <==> Recent(history, m, since) > 0)
      && (m in counts ==> counts[m] == Recent(history, m, since))
  }

  lemma TalliesRefine(counts: map<string, int>, history: seq<CallEvent>, cut: nat, since: int)
    requires cut <= |history| && Tallies(counts, history[cut..])
    requires forall i | 0 <= i < cut :: history[i].at < since
    requires forall i | cut <= i < |history| :: history[i].at >= since
    ensures Refines(counts, history, since)
  {
    forall m
      ensures m in counts <==> Recent(history, m, since) > 0
      ensures m in counts ==> counts[m] == Recent(history, m, since)
    {
      SuffixIsWindow(history, cut, m, since);
      assert TalliesAt(counts, history[cut..], m);
    }
  }

  class Counter {
    const window: int
    var counts: map<string, int>
    var events: seq<CallEvent>
    /** Every call ever recorded, how many of them were pruned, the latest clock reading. */
    ghost var history: seq<CallEvent>
    ghost var pruned: nat
    ghost var now: int

    ghost predicate Valid()
      reads this
    {
      && pruned <= |history| && events == history[pruned..]
      && TimeOrdered(history) && Tallies(counts, events)
      && (forall i | 0 <= i < |history| :: history[i].at <= now)
      && (forall i | 0 <= i < pruned :: history[i].at < now - window)
    }

    constructor (window: int, start: int)
      ensures Valid() && history == [] && counts == map[] && this.window == window
    {
      this.window := window;
      counts, events, history, pruned, now := map[], [], [], 0, start;
    }

    method Prune(at: int)
      requires Valid() && at >= now
      modifies this
      ensures Valid() && now == at && history == old(history)
      ensures Refines(counts, history, at - window)
    {
      now := at;
      var cut, left := PruneLoop(counts, events, at - window);
      ghost var gone := pruned + cut;
      forall i | 0 <= i < gone
        ensures history[i].at < at - window
      {
        assert i >= pruned ==> history[i] == events[i - pruned];
      }
      forall i | gone <= i < |history|
        ensures history[i].at >= at - window
      {
        assert events[cut] == history[gone];
      }
      assert events[cut..] == history[gone..];
      TalliesRefine(left, history, gone, at - window);
      counts, pruned := left, gone;
      if cut > 0 {
        events := events[cut..];
      }
    }

    method Record(model: string, at: int)
      requires Valid() && at >= now
      modifies this
      ensures Valid() && now == at && history == old(history) + [CallEvent(model, at)]
      ensures Refines(counts, history, at - window)
    {
      var e := CallEvent(model, at);
      CountTallies(counts, events, e);
      events := events + [e];
      counts := counts[model := (if model in counts then counts[model] else 0) + 1];
      history := history + [e];
      now := at;
      Prune(at);
    }

    method Snapshot(at: int) returns (snapshot: map<string, int>)
      requires Valid() && at >= now
      modifies this
      ensures Valid() && now == at && history == old(history)
      ensures Refines(snapshot, history, at - window)
    {
      Prune(at);
      snapshot := map m | m in counts :: counts[m];
      assert snapshot == counts;
    }
  }
}
