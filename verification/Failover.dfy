/** Failover of a non-streaming request across workers. The environment (`script`)
    answers each attempt separately: the cache, the rate limits and the workers'
    replies may all change arbitrarily between attempts, and the cache within one. */
module Failover {
  import opened Counting
  import opened Ordering
  import opened Protocol
  import opened Selection

  /** Sentinels that errors.Is finds in a worker error's chain. */
  datatype Sentinel =
    | Canceled | NoMatching | AllUnavailable
    | Timeout | ConnClosed | RelayDisconnected | RateLimited | InferenceError | DeadlineExceeded

  /** An error: the sentinels it wraps and the HTTP status if it wraps a worker's response. */
  datatype Failure = Failure(wraps: set<Sentinel>, status: Option<int>)

  datatype Reply = Response(body: string) | Failed(err: Failure)

  /** One attempt's environment: the cache when candidates are built, when they are scored
      and when the fallback runs, with iteration orders for the first and the last. */
  datatype Attempt = Attempt(
    expired: bool, built: Env, scoring: Env, later: Env, orders: Orders, fallback: Orders,
    limited: set<string>, answer: string -> Reply)

  ghost predicate Proper(a: Attempt) {
    Admissible(a.built, a.orders) && Admissible(a.later, a.fallback)
  }

  /** Cached, not excluded and willing in a snapshot of the attempt. */
  predicate AbleIn(a: Attempt, model: string, excluded: set<string>, id: string) {
    Able(a.built, model, excluded, id) || Able(a.later, model, excluded, id)
  }

  /** The worker that selection chooses in the attempt: the winner by score and then ID of the
      first snapshot's pool, or the fallback choice of the last. */
  ghost predicate ChosenBy(a: Attempt, model: string, excluded: set<string>, id: string) {
    exists w :: IsChoice(a, model, excluded, w) && w.id == id
  }

  ghost predicate IsChoice(a: Attempt, model: string, excluded: set<string>, w: WorkerInfo) {
    SelectsAcross(a.built, a.scoring, a.later, model, excluded, a.fallback.fallback, w)
  }

  lemma ChosenIsAble(a: Attempt, model: string, excluded: set<string>, id: string)
    requires ChosenBy(a, model, excluded, id)
    ensures AbleIn(a, model, excluded, id) && id !in excluded
  {
    var w :| IsChoice(a, model, excluded, w) && w.id == id;
  }

  /** There is one such worker. */
  lemma ChoiceIsUnique(a: Attempt, model: string, excluded: set<string>, id: string, id': string)
    requires Proper(a) && ChosenBy(a, model, excluded, id) && ChosenBy(a, model, excluded, id')
    ensures id == id'
  {
    var w :| IsChoice(a, model, excluded, w) && w.id == id;
    var w' :| IsChoice(a, model, excluded, w') && w'.id == id';
    if EmptyPool(a.built, model, excluded) {
      FallbackUnique(a.later, model, excluded, a.fallback.fallback, w, w');
    } else {
      assert Beats(a.scoring, model, w, w') && Beats(a.scoring, model, w', w);
      Trichotomy(w.id, w'.id);
    }
  }

  /** Nobody to select: no candidate at first, and no able worker later. */
  ghost predicate Empty(a: Attempt, model: string, excluded: set<string>) {
    EmptyPool(a.built, model, excluded) && forall id :: !Able(a.later, model, excluded, id)
  }

  /** isRetryableError. */
  predicate Retryable(e: Failure) {
    if e.wraps * {Canceled, NoMatching, AllUnavailable} != {} then false
    else if e.wraps != {} then true
    else e.status.Some? && (e.status.value >= 500 || e.status.value == 429)
  }

  datatype Verdict = Limited | Answered(reply: Reply)

  /** One selected worker, the attempt it was selected in, and what became of it. */
  datatype Turn = Turn(attempt: nat, worker: string, verdict: Verdict)

  /** Effects on the popularity counter, the request tracker and the hub. */
  datatype Effect = Counted | Begun(worker: string) | Finished(worker: string, ok: bool) | Rejected(worker: string)

  datatype Cause = Budget | NoWorker | AtCap | WorkerFailed(err: Failure)

  datatype Outcome = Success(body: string) | FailFast(err: Failure) | AllFailed(cause: Cause)

  datatype Parts = Parts(counter: bool, tracker: bool, hub: bool)

  function EffectsOf(t: Turn, parts: Parts): seq<Effect> {
    if t.verdict.Limited? then [Rejected(t.worker)]
    else if parts.tracker then [Begun(t.worker), Finished(t.worker, t.verdict.reply.Response?)]
    else []
  }

  function TurnEffects(turns: seq<Turn>, parts: Parts): seq<Effect> {
    if turns == [] then [] else TurnEffects(turns[..|turns| - 1], parts) + EffectsOf(turns[|turns| - 1], parts)
  }

  function Effects(turns: seq<Turn>, parts: Parts): seq<Effect> {
    (if turns != [] && parts.counter then [Counted] else []) + TurnEffects(turns, parts)
  }

  lemma EffectsSnoc(turns: seq<Turn>, t: Turn, parts: Parts)
    ensures Effects(turns + [t], parts) ==
      Effects(turns, parts) + (if turns == [] && parts.counter then [Counted] else []) + EffectsOf(t, parts)
  {
    assert (turns + [t])[..|turns|] == turns;
  }

  lemma {:induction false} TurnsDoNotCount(turns: seq<Turn>, parts: Parts)
    ensures forall i | 0 <= i < |TurnEffects(turns, parts)| :: !TurnEffects(turns, parts)[i].Counted?
  {
    if turns != [] {
      TurnsDoNotCount(turns[..|turns| - 1], parts);
    }
  }

  /** The popularity counter is bumped exactly once iff some worker was selected. */
  lemma CountedOnce(turns: seq<Turn>, parts: Parts)
    ensures Count(Effects(turns, parts), (e: Effect) => e.Counted?) == if parts.counter && turns != [] then 1 else 0
  {
    var counted := (e: Effect) => e.Counted?;
    var first := if turns != [] && parts.counter then [Counted] else [];
    TurnsDoNotCount(turns, parts);
    CountNone(TurnEffects(turns, parts), counted);
    CountConcat(first, TurnEffects(turns, parts), counted);
    CountAppend([], Counted, counted);
    assert [] + [Counted] == [Counted];
  }

  /** Every Begin is closed by its own Finish before anything else happens, and there
      is no other Finish. */
  ghost predicate Bracketed(effects: seq<Effect>) {
    && (forall i | 0 <= i < |effects| && effects[i].Begun? ::
          i + 1 < |effects| && effects[i + 1].Finished? && effects[i + 1].worker == effects[i].worker)
    && (forall i | 0 <= i < |effects| && effects[i].Finished? :: i > 0 && effects[i - 1] == Begun(effects[i].worker))
  }

  lemma BracketedConcat(a: seq<Effect>, b: seq<Effect>)
    requires Bracketed(a) && Bracketed(b)
    ensures Bracketed(a + b)
  {
    var c := a + b;
    forall i | 0 <= i < |c| && c[i].Begun?
      ensures i + 1 < |c| && c[i + 1].Finished? && c[i + 1].worker == c[i].worker
    {
      assert i < |a| ==> c[i] == a[i] && c[i + 1] == a[i + 1];
      assert i >= |a| ==> c[i] == b[i - |a|] && c[i + 1] == b[i - |a| + 1];
    }
    forall i | 0 <= i < |c| && c[i].Finished?
      ensures i > 0 && c[i - 1] == Begun(c[i].worker)
    {
      assert i < |a| ==> c[i] == a[i] && c[i - 1] == a[i - 1];
      assert i >= |a| ==> c[i] == b[i - |a|] && c[i - 1] == b[i - |a| - 1];
    }
  }

  lemma TurnIsBracketed(t: Turn, parts: Parts)
    ensures Bracketed(EffectsOf(t, parts))
  {
  }

  lemma {:induction false} EffectsBracketed(turns: seq<Turn>, parts: Parts)
    ensures Bracketed(TurnEffects(turns, parts)) && Bracketed(Effects(turns, parts))
  {
    if turns != [] {
      var last := turns[|turns| - 1];
      EffectsBracketed(turns[..|turns| - 1], parts);
      TurnIsBracketed(last, parts);
      BracketedConcat(TurnEffects(turns[..|turns| - 1], parts), EffectsOf(last, parts));
    }
    BracketedConcat(if turns != [] && parts.counter then [Counted] else [], TurnEffects(turns, parts));
  }

  function Workers(turns: seq<Turn>): set<string> {
    set t | t in turns :: t.worker
  }

  lemma WorkersSnoc(turns: seq<Turn>, t: Turn)
    ensures Workers(turns + [t]) == Workers(turns) + {t.worker}
    ensures forall s :: s in turns + [t] <==> s in turns || s == t
  {
    assert forall s :: s in turns + [t] <==> s in turns || s == t;
  }

  function WorkersBefore(turns: seq<Turn>, attempt: nat): set<string> {
    set t | t in turns && t.attempt < attempt :: t.worker
  }

  predicate GoesOn(v: Verdict) {
    v.Limited? || (v.reply.Failed? && Retryable(v.reply.err))
  }

  function Verdicts(a: Attempt, parts: Parts, worker: string): Verdict {
    if parts.hub && worker in a.limited then Limited else Answered(a.answer(worker))
  }

  /** The turn is what the environment made of the worker that selection chooses among those
      not tried yet. */
  ghost predicate Honest(script: nat -> Attempt, model: string, parts: Parts, turns: seq<Turn>, t: Turn) {
    var a := script(t.attempt);
    && !a.expired
    && ChosenBy(a, model, WorkersBefore(turns, t.attempt), t.worker)
    && t.verdict == Verdicts(a, parts, t.worker)
  }

  /** No able worker was left when the attempt looked for one. */
  ghost predicate Barren(script: nat -> Attempt, model: string, turns: seq<Turn>, attempt: nat) {
    Empty(script(attempt), model, WorkersBefore(turns, attempt))
  }

  ghost predicate WellFormed(script: nat -> Attempt, model: string, parts: Parts, turns: seq<Turn>, upto: nat) {
    && Increasing(turns) && (forall i | 0 <= i < |turns| - 1 :: GoesOn(turns[i].verdict))
    && (forall t | t in turns :: 1 <= t.attempt <= upto && Honest(script, model, parts, turns, t))
  }

  /** Later turns belong to later attempts and other workers. */
  ghost predicate Increasing(turns: seq<Turn>) {
    forall i, j | 0 <= i < j < |turns| :: turns[i].attempt < turns[j].attempt && turns[i].worker != turns[j].worker
  }

  /** Up to `upto`, every attempt selected a worker or found none able. */
  ghost predicate Thorough(script: nat -> Attempt, model: string, turns: seq<Turn>, upto: nat) {
    forall k: nat | 1 <= k <= upto :: (exists t :: t in turns && t.attempt == k) || Barren(script, model, turns, k)
  }

  lemma TurnsBound(turns: seq<Turn>, upto: nat)
    requires forall i, j | 0 <= i < j < |turns| :: turns[i].attempt < turns[j].attempt
    requires forall t | t in turns :: 1 <= t.attempt <= upto
    ensures |turns| <= upto
  {
    if turns != [] {
      var n := |turns| - 1;
      forall i | 0 <= i <= n
        ensures turns[i].attempt >= i + 1
      {
        AttemptsGrow(turns, i);
      }
      assert turns[n] in turns;
    }
  }

  lemma {:induction false} AttemptsGrow(turns: seq<Turn>, i: nat)
    requires i < |turns|
    requires forall i, j | 0 <= i < j < |turns| :: turns[i].attempt < turns[j].attempt
    requires forall t | t in turns :: 1 <= t.attempt
    ensures turns[i].attempt >= i + 1
  {
    if i > 0 {
      AttemptsGrow(turns, i - 1);
    } else {
      assert turns[0] in turns;
    }
  }

  lemma WorkersBeforeStable(turns: seq<Turn>, t: Turn, k: nat)
    requires k <= t.attempt
    ensures WorkersBefore(turns + [t], k) == WorkersBefore(turns, k)
  {
    assert forall s | s in turns + [t] :: s in turns || s == t;
    assert forall s | s in turns :: s in turns + [t];
  }

  lemma AddTurnWellFormed(script: nat -> Attempt, model: string, parts: Parts, turns: seq<Turn>, t: Turn)
    requires t.attempt >= 1 && WellFormed(script, model, parts, turns, t.attempt - 1)
    requires forall s | s in turns :: GoesOn(s.verdict)
    requires t.worker !in Workers(turns) && Honest(script, model, parts, turns, t)
    ensures WellFormed(script, model, parts, turns + [t], t.attempt)
  {
    var all := turns + [t];
    forall i | 0 <= i < |turns|
      ensures turns[i].attempt < t.attempt && turns[i].worker != t.worker && GoesOn(turns[i].verdict)
    {
      assert turns[i] in turns;
    }
    WorkersSnoc(turns, t);
    forall s | s in all
      ensures 1 <= s.attempt <= t.attempt && Honest(script, model, parts, all, s)
    {
      WorkersBeforeStable(turns, t, s.attempt);
      assert Honest(script, model, parts, turns, s);
    }
  }

  lemma AddTurnThorough(script: nat -> Attempt, model: string, turns: seq<Turn>, t: Turn)
    requires t.attempt >= 1 && Thorough(script, model, turns, t.attempt - 1)
    ensures Thorough(script, model, turns + [t], t.attempt)
  {
    var all := turns + [t];
    forall k: nat | 1 <= k <= t.attempt
      ensures (exists s :: s in all && s.attempt == k) || Barren(script, model, all, k)
    {
      if k == t.attempt {
        assert all[|turns|] == t && t in all;
      } else if exists s :: s in turns && s.attempt == k {
        var s :| s in turns && s.attempt == k;
        assert s in all;
      } else {
        WorkersBeforeStable(turns, t, k);
        assert Barren(script, model, turns, k);
      }
    }
  }

  /** Select a worker that was not tried yet and see what becomes of it. */
  method TakeTurn(script: nat -> Attempt, model: string, parts: Parts, attempt: nat, excluded: set<string>)
    returns (t: Option<Turn>)
    requires Proper(script(attempt))
    ensures t.None? <==> Empty(script(attempt), model, excluded)
    ensures t.Some? ==> t.value.attempt == attempt && ChosenBy(script(attempt), model, excluded, t.value.worker)
    ensures t.Some? ==> t.value.verdict == Verdicts(script(attempt), parts, t.value.worker)
  {
    var a := script(attempt);
    var sel := SelectAcrossSnapshots(a.built, a.scoring, a.later, model, excluded, a.orders, a.fallback);
    if sel.Err? {
      return None;
    }
    var worker := sel.value.id;
    assert IsChoice(a, model, excluded, sel.value);
    if parts.hub && worker in a.limited {
      return Some(Turn(attempt, worker, Limited));
    }
    return Some(Turn(attempt, worker, Answered(a.answer(worker))));
  }

  /** Count the request once, then note the rejection or bracket the dispatch. */
  method Record(effects: seq<Effect>, recorded: bool, t: Turn, parts: Parts) returns (all: seq<Effect>, counted: bool)
    ensures all == effects + (if !recorded && parts.counter then [Counted] else []) + EffectsOf(t, parts)
    ensures counted == (recorded || parts.counter)
  {
    all, counted := effects, recorded;
    if !recorded && parts.counter {
      all, counted := all + [Counted], true;
    }
    if t.verdict.Limited? {
      all := all + [Rejected(t.worker)];
    } else if parts.tracker {
      all := all + [Begun(t.worker)];
      all := all + [Finished(t.worker, t.verdict.reply.Response?)];
    }
  }

  /** The loop's progress: everything so far went on, nothing was skipped. */
  ghost predicate Going(script: nat -> Attempt, model: string, parts: Parts, turns: seq<Turn>, upto: nat) {
    && WellFormed(script, model, parts, turns, upto) && Thorough(script, model, turns, upto)
    && forall t | t in turns :: GoesOn(t.verdict)
  }

  lemma AddBarren(script: nat -> Attempt, model: string, parts: Parts, turns: seq<Turn>, attempt: nat)
    requires attempt >= 1 && Going(script, model, parts, turns, attempt - 1) && Barren(script, model, turns, attempt)
    ensures Going(script, model, parts, turns, attempt)
  {
    ThoroughStep(script, model, turns, attempt);
  }

  lemma ThoroughStep(script: nat -> Attempt, model: string, turns: seq<Turn>, attempt: nat)
    requires attempt >= 1 && Thorough(script, model, turns, attempt - 1) && Barren(script, model, turns, attempt)
    ensures Thorough(script, model, turns, attempt)
  {
    forall k: nat | 1 <= k <= attempt
      ensures (exists t :: t in turns && t.attempt == k) || Barren(script, model, turns, k)
    {
    }
  }

  lemma AddTurn(script: nat -> Attempt, model: string, parts: Parts, turns: seq<Turn>, t: Turn)
    requires t.attempt >= 1 && Going(script, model, parts, turns, t.attempt - 1)
    requires t.worker !in Workers(turns) && Honest(script, model, parts, turns, t)
    ensures WellFormed(script, model, parts, turns + [t], t.attempt)
    ensures GoesOn(t.verdict) ==> Going(script, model, parts, turns + [t], t.attempt)
  {
    WorkersSnoc(turns, t);
    AddTurnWellFormed(script, model, parts, turns, t);
    AddTurnThorough(script, model, turns, t);
  }

  lemma UntriedIsHonest(script: nat -> Attempt, model: string, parts: Parts, turns: seq<Turn>, t: Turn)
    requires t.attempt >= 1 && WellFormed(script, model, parts, turns, t.attempt - 1) && !script(t.attempt).expired
    requires ChosenBy(script(t.attempt), model, Workers(turns), t.worker)
    requires t.verdict == Verdicts(script(t.attempt), parts, t.worker)
    ensures Honest(script, model, parts, turns, t) && t.worker !in Workers(turns)
  {
    assert WorkersBefore(turns, t.attempt) == Workers(turns);
    ChosenIsAble(script(t.attempt), model, Workers(turns), t.worker);
  }

  /** How a loop that stops early reports its last turn. */
  ghost predicate Reports(r: Outcome, turns: seq<Turn>) {
    && turns != []
    && (var v := turns[|turns| - 1].verdict;
        || (r.Success? && v == Answered(Response(r.body)))
        || (r.FailFast? && v == Answered(Failed(r.err)) && !Retryable(r.err)))
  }

  /** What the loop carries from one attempt to the next. */
  ghost predicate Carried(turns: seq<Turn>, parts: Parts, effects: seq<Effect>, excluded: set<string>, recorded: bool) {
    && excluded == Workers(turns) && effects == Effects(turns, parts)
    && recorded == (parts.counter && turns != [])
  }

  lemma CarriedOn(turns: seq<Turn>, t: Turn, parts: Parts, effects: seq<Effect>, excluded: set<string>, recorded: bool)
    requires Carried(turns, parts, effects, excluded, recorded)
    ensures Carried(turns + [t], parts,
                    effects + (if !recorded && parts.counter then [Counted] else []) + EffectsOf(t, parts),
                    excluded + {t.worker}, recorded || parts.counter)
  {
    EffectsSnoc(turns, t, parts);
    WorkersSnoc(turns, t);
  }

  lemma TurnCounts(script: nat -> Attempt, model: string, parts: Parts, turns: seq<Turn>, t: Turn)
    requires t.attempt >= 1 && !script(t.attempt).expired && Going(script, model, parts, turns, t.attempt - 1)
    requires ChosenBy(script(t.attempt), model, Workers(turns), t.worker)
    requires t.verdict == Verdicts(script(t.attempt), parts, t.worker)
    ensures WellFormed(script, model, parts, turns + [t], t.attempt)
    ensures GoesOn(t.verdict) ==> Going(script, model, parts, turns + [t], t.attempt)
    ensures !GoesOn(t.verdict) ==> t.verdict.Answered? && Reports(Final(t.verdict), turns + [t])
  {
    UntriedIsHonest(script, model, parts, turns, t);
    AddTurn(script, model, parts, turns, t);
  }

  lemma CauseIs(turns: seq<Turn>, t: Turn)
    requires GoesOn(t.verdict)
    ensures CauseAt(turns + [t], t.attempt) == if t.verdict.Limited? then AtCap else WorkerFailed(t.verdict.reply.err)
  {
  }

  lemma NobodyCounts(script: nat -> Attempt, model: string, parts: Parts, turns: seq<Turn>, attempt: nat)
    requires attempt >= 1 && Going(script, model, parts, turns, attempt - 1) && Empty(script(attempt), model, Workers(turns))
    ensures Going(script, model, parts, turns, attempt) && CauseAt(turns, attempt) == NoWorker
  {
    assert turns != [] ==> turns[|turns| - 1] in turns;
    assert WorkersBefore(turns, attempt) == Workers(turns);
    AddBarren(script, model, parts, turns, attempt);
  }

  /** Why the attempt `k` did not succeed, read off the turns. */
  function CauseAt(turns: seq<Turn>, k: nat): Cause {
    if turns == [] || turns[|turns| - 1].attempt != k then NoWorker
    else
      match turns[|turns| - 1].verdict
      case Answered(Failed(err)) => WorkerFailed(err)
      case _ => AtCap
  }

  function Final(v: Verdict): Outcome
    requires v.Answered?
  {
    if v.reply.Response? then Success(v.reply.body) else FailFast(v.reply.err)
  }

  /** What the loop does with a verdict: stop, or remember the error and go on. */
  method Conclude(v: Verdict) returns (lastErr: Cause, stop: Option<Outcome>)
    ensures stop.None? <==> GoesOn(v)
    ensures stop.Some? ==> v.Answered? && stop.value == Final(v)
    ensures stop.None? ==> lastErr == if v.Limited? then AtCap else WorkerFailed(v.reply.err)
  {
    lastErr, stop := AtCap, None;
    if v.Answered? {
      if v.reply.Response? {
        stop := Some(Success(v.reply.body));
        return;
      }
      lastErr := WorkerFailed(v.reply.err);
      if !Retryable(v.reply.err) {
        stop := Some(FailFast(v.reply.err));
      }
    }
  }

  /** Where an attempt leaves the loop: at a stop that reports its turn, or going on. */
  ghost predicate Attempted(script: nat -> Attempt, model: string, parts: Parts, turns: seq<Turn>, attempt: nat,
                            lastErr: Cause, stop: Option<Outcome>) {
    && WellFormed(script, model, parts, turns, attempt)
    && (stop.Some? ==> Reports(stop.value, turns))
    && (stop.None? ==> Going(script, model, parts, turns, attempt) && lastErr == CauseAt(turns, attempt))
  }

  lemma AttemptedTurn(script: nat -> Attempt, model: string, parts: Parts, turns: seq<Turn>, t: Turn,
                      lastErr: Cause, stop: Option<Outcome>)
    requires t.attempt >= 1 && !script(t.attempt).expired && Going(script, model, parts, turns, t.attempt - 1)
    requires ChosenBy(script(t.attempt), model, Workers(turns), t.worker)
    requires t.verdict == Verdicts(script(t.attempt), parts, t.worker)
    requires stop.None? <==> GoesOn(t.verdict)
    requires stop.Some? ==> t.verdict.Answered? && stop.value == Final(t.verdict)
    requires stop.None? ==> lastErr == if t.verdict.Limited? then AtCap else WorkerFailed(t.verdict.reply.err)
    ensures Attempted(script, model, parts, turns + [t], t.attempt, lastErr, stop)
  {
    TurnCounts(script, model, parts, turns, t);
    if GoesOn(t.verdict) {
      CauseIs(turns, t);
    }
  }

  /** One pass through the loop body, after the budget check. */
  method OneAttempt(script: nat -> Attempt, model: string, parts: Parts, attempt: nat,
                    turns: seq<Turn>, effects: seq<Effect>, excluded: set<string>, recorded: bool)
    returns (turns': seq<Turn>, effects': seq<Effect>, excluded': set<string>, recorded': bool,
             lastErr: Cause, stop: Option<Outcome>)
    requires attempt >= 1 && !script(attempt).expired && Proper(script(attempt))
    requires Going(script, model, parts, turns, attempt - 1) && Carried(turns, parts, effects, excluded, recorded)
    ensures Attempted(script, model, parts, turns', attempt, lastErr, stop)
    ensures Carried(turns', parts, effects', excluded', recorded')
  {
    turns', effects', excluded', recorded', lastErr, stop := turns, effects, excluded, recorded, NoWorker, None;
    var taken := TakeTurn(script, model, parts, attempt, excluded);
    if taken.None? {
      NobodyCounts(script, model, parts, turns, attempt);
      return;
    }
    var turn := taken.value;
    CarriedOn(turns, turn, parts, effects, excluded, recorded);
    effects', recorded' := Record(effects, recorded, turn, parts);
    turns', excluded' := turns + [turn], excluded + {turn.worker};
    lastErr, stop := Conclude(turn.verdict);
    AttemptedTurn(script, model, parts, turns, turn, lastErr, stop);
  }

  lemma Widen(script: nat -> Attempt, model: string, parts: Parts, turns: seq<Turn>, upto: nat, limit: nat)
    requires WellFormed(script, model, parts, turns, upto) && upto <= limit
    ensures WellFormed(script, model, parts, turns, limit) && |turns| <= limit
  {
    TurnsBound(turns, upto);
  }

  /** How a dispatch of at most `limit` attempts ends. */
  ghost predicate Dispatched(script: nat -> Attempt, model: string, limit: nat, parts: Parts, r: Outcome, turns: seq<Turn>) {
    && WellFormed(script, model, parts, turns, limit) && |turns| <= limit
    && (!r.AllFailed? ==> Reports(r, turns))
    && (r.AllFailed? && r.cause != Budget ==> Going(script, model, parts, turns, limit) && r.cause == CauseAt(turns, limit))
    && (r == AllFailed(Budget) ==>
        exists k: nat :: 1 <= k <= limit && script(k).expired && Going(script, model, parts, turns, k - 1))
  }

  /** The loop of dispatchWithFailover, for at least one attempt. */
  method DispatchUpTo(script: nat -> Attempt, model: string, limit: nat, parts: Parts)
    returns (r: Outcome, turns: seq<Turn>, effects: seq<Effect>)
    requires limit >= 1 && forall k :: Proper(script(k))
    ensures Dispatched(script, model, limit, parts, r, turns) && effects == Effects(turns, parts)
  {
    turns, effects := [], [];
    var excluded: set<string>, recorded := {}, false;
    var lastErr: Option<Cause> := None;
    for attempt := 1 to limit + 1
      invariant Going(script, model, parts, turns, attempt - 1)
      invariant Carried(turns, parts, effects, excluded, recorded)
      invariant attempt > 1 ==> lastErr == Some(CauseAt(turns, attempt - 1))
    {
      if script(attempt).expired {
        Widen(script, model, parts, turns, attempt - 1, limit);
        return AllFailed(Budget), turns, effects;
      }
      var cause, stop;
      turns, effects, excluded, recorded, cause, stop :=
        OneAttempt(script, model, parts, attempt, turns, effects, excluded, recorded);
      if stop.Some? {
        Widen(script, model, parts, turns, attempt, limit);
        return stop.value, turns, effects;
      }
      lastErr := Some(cause);
    }
    Widen(script, model, parts, turns, limit, limit);
    return AllFailed(lastErr.value), turns, effects;
  }

  /** dispatchWithFailover, with at least one attempt. Each turn went to the worker that
      selection chooses among those not tried before; the workers are pairwise distinct, at
      most one per attempt; all but the last turn ended retryably; the effects are exactly
      one count (if any worker was selected) and one closed begin/finish pair per dispatched
      turn; and giving up without the budget running out means every attempt was spent or
      found no able worker, and reports the last of them. */
  method DispatchWithFailover(script: nat -> Attempt, model: string, maxAttempts: int, parts: Parts)
    returns (r: Outcome, turns: seq<Turn>, effects: seq<Effect>, ghost limit: nat)
    requires forall k :: Proper(script(k))
    ensures limit == if maxAttempts < 1 then 1 else maxAttempts
    ensures Dispatched(script, model, limit, parts, r, turns) && effects == Effects(turns, parts)
  {
    var attempts := if maxAttempts < 1 then 1 else maxAttempts;
    limit := attempts;
    r, turns, effects := DispatchUpTo(script, model, attempts, parts);
  }

  // What the verdicts and effects mean.

  /** Cancellation and scheduler exhaustion are final; after them, any of the six transport
      and worker sentinels is retried; after those, an HTTP status is if it is 429 or from
      500 on; anything else is final. */
  lemma RetryClasses(e: Failure)
    ensures Canceled in e.wraps || NoMatching in e.wraps || AllUnavailable in e.wraps ==> !Retryable(e)
    ensures Canceled !in e.wraps && NoMatching !in e.wraps && AllUnavailable !in e.wraps ==> (
      Retryable(e) <==>
        Timeout in e.wraps || ConnClosed in e.wraps || RelayDisconnected in e.wraps || RateLimited in e.wraps
        || InferenceError in e.wraps || DeadlineExceeded in e.wraps
        || (e.status.Some? && (e.status.value >= 500 || e.status.value == 429)))
  {
    var final := {Canceled, NoMatching, AllUnavailable};
    assert forall x | x in final && x in e.wraps :: x in e.wraps * final;
    if Canceled !in e.wraps && NoMatching !in e.wraps && AllUnavailable !in e.wraps {
      assert e.wraps * final == {};
      forall x | x in e.wraps
        ensures x in {Timeout, ConnClosed, RelayDisconnected, RateLimited, InferenceError, DeadlineExceeded}
      {
        Sentinels(x);
      }
      assert e.wraps != {} <==> exists x :: x in e.wraps;
    }
  }

  lemma Sentinels(x: Sentinel)
    ensures x in {Canceled, NoMatching, AllUnavailable, Timeout, ConnClosed, RelayDisconnected, RateLimited, InferenceError,
                  DeadlineExceeded}
  {
  }

  /** With a hub, a worker at its cap is turned down without being asked; any other worker's
      answer is the verdict. */
  lemma VerdictMeans(a: Attempt, parts: Parts, worker: string)
    ensures Verdicts(a, parts, worker) == Limited <==> parts.hub && worker in a.limited
    ensures Verdicts(a, parts, worker) != Limited ==> Verdicts(a, parts, worker) == Answered(a.answer(worker))
  {
  }

  /** Every dispatched turn, and no other, has its own Begin and its own Finish, which tells
      success from failure; every rate-limited one is noted as rejected. */
  lemma {:induction false} EffectsTell(turns: seq<Turn>, parts: Parts, worker: string, ok: bool)
    ensures parts.tracker ==>
      Count(TurnEffects(turns, parts), (e: Effect) => e == Begun(worker)) == Count(turns, (t: Turn) => t.worker == worker && t.verdict.Answered?)
    ensures parts.tracker ==>
      Count(TurnEffects(turns, parts), (e: Effect) => e == Finished(worker, ok))
        == Count(turns, (t: Turn) => t.worker == worker && t.verdict.Answered? && t.verdict.reply.Response? == ok)
    ensures Count(TurnEffects(turns, parts), (e: Effect) => e == Rejected(worker))
      == Count(turns, (t: Turn) => t.worker == worker && t.verdict.Limited?)
  {
    if turns != [] {
      var n := |turns| - 1;
      EffectsTell(turns[..n], parts, worker, ok);
      TurnTells(TurnEffects(turns[..n], parts), turns[n], parts, (e: Effect) => e == Begun(worker));
      TurnTells(TurnEffects(turns[..n], parts), turns[n], parts, (e: Effect) => e == Finished(worker, ok));
      TurnTells(TurnEffects(turns[..n], parts), turns[n], parts, (e: Effect) => e == Rejected(worker));
    }
  }

  lemma TurnTells(before: seq<Effect>, t: Turn, parts: Parts, p: Effect -> bool)
    ensures Count(before + EffectsOf(t, parts), p) == Count(before, p)
      + (if t.verdict.Limited? then if p(Rejected(t.worker)) then 1 else 0
         else if !parts.tracker then 0
         else (if p(Begun(t.worker)) then 1 else 0) + (if p(Finished(t.worker, t.verdict.reply.Response?)) then 1 else 0))
  {
    CountConcat(before, EffectsOf(t, parts), p);
    if t.verdict.Limited? {
      CountOne(Rejected(t.worker), p);
    } else if parts.tracker {
      var begun, finished := [Begun(t.worker)], [Finished(t.worker, t.verdict.reply.Response?)];
      assert EffectsOf(t, parts) == begun + finished;
      CountConcat(begun, finished, p);
      CountOne(begun[0], p);
      CountOne(finished[0], p);
    }
  }
}
