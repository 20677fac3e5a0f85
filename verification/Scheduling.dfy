/** The weighted scorer, the scheduler's filters and the first-maximum selection.
    Scores are real numbers; a clock reading is one parameter per selection. */
module Scheduling {
  import opened Protocol
  import opened Sequences

  datatype SchedWorker = SchedWorker(
    id: string,
    models: seq<ModelInfo>,
    vramTotalMB: int,
    vramFreeMB: int,
    gpuUtilPct: real,
    queueDepth: int,
    inFlight: int,
    maxInFlight: int,
    avgLatencyMS: real,
    lastHeartbeat: int,
    tokensPerSecond: real,
    allowedModels: seq<string>,
    excludedModels: seq<string>)

  datatype Scorer = Scorer(
    quantMatch: real, vramFree: real, gpuUtil: real, queueDepth: real, latency: real,
    loadedBonus: real, coldPenalty: real, throughput: real,
    maxQueueDepth: int, unavailableTTL: int)

  datatype Request = Request(model: string, quantization: string, maxVramMB: int, minVramMB: int)

  datatype Error = WorkerUnavailable | NoMatchingWorkers | NoCapacity | AllWorkersUnavailable

  datatype Result<T> = Ok(value: T) | Err(error: Error)

  const DEFAULT_UNAVAILABLE_TTL := 30
  const DEFAULT_MAX_QUEUE_DEPTH := 10

  function Min(a: real, b: real): real {
    if a <= b then a else b
  }

  function Clamp(x: real): real {
    if x < 0.0 then 0.0 else if x > 1.0 then 1.0 else x
  }

  function FirstIndex(models: seq<ModelInfo>, name: string): nat {
    if models == [] || models[0].name == name then 0 else 1 + FirstIndex(models[1..], name)
  }

  function FindModel(models: seq<ModelInfo>, name: string): Option<ModelInfo> {
    var i := FirstIndex(models, name);
    if i < |models| then Some(models[i]) else None
  }

  function Capability(quantization: string): nat {
    if quantization == "FP16" then 5
    else if quantization == "Q8" then 4
    else if quantization == "Q6" then 3
    else if quantization == "Q5" then 2
    else if quantization == "Q4" then 1
    else 0
  }

  predicate QuantizationCompatible(requested: string, actual: string) {
    || requested == ""
    || requested == actual
    || (Capability(requested) != 0 && Capability(actual) >= Capability(requested))
  }

  function QuantizationScore(requested: string, actual: string): real {
    if requested == "" || requested == actual then 1.0
    else if Capability(requested) == 0 || Capability(actual) <= Capability(requested) then 0.0
    else Min(0.8, (Capability(actual) - Capability(requested)) as real * 0.2)
  }

  function VramScore(w: SchedWorker): real {
    if w.vramTotalMB > 0 then Min(w.vramFreeMB as real / w.vramTotalMB as real, 1.0) else 0.5
  }

  function GpuScore(w: SchedWorker): real {
    if w.gpuUtilPct >= 0.0 then Clamp(1.0 - w.gpuUtilPct / 100.0) else 0.5
  }

  function MaxQueueDepth(s: Scorer): int {
    if s.maxQueueDepth <= 0 then DEFAULT_MAX_QUEUE_DEPTH else s.maxQueueDepth
  }

  predicate InFlightKnown(w: SchedWorker) {
    w.inFlight >= 0 && w.maxInFlight > 0
  }

  function InFlightRatio(w: SchedWorker): real
    requires InFlightKnown(w)
  {
    Min(w.inFlight as real / w.maxInFlight as real, 1.0)
  }

  /** Queue load: the worse of the queue-depth score and the in-flight score. */
  function QueueScore(s: Scorer, w: SchedWorker): real {
    var depth := if w.queueDepth >= 0
                 then Clamp(1.0 - Min(w.queueDepth as real / MaxQueueDepth(s) as real, 1.0)) else 0.5;
    if InFlightKnown(w) then Min(Clamp(1.0 - InFlightRatio(w)), depth) else depth
  }

  function LatencyScore(w: SchedWorker): real {
    if w.avgLatencyMS >= 0.0 then Clamp(1.0 - Min(w.avgLatencyMS / 1000.0, 1.0)) else 0.5
  }

  /** The cold-load penalty is compounded by how busy the worker is. */
  function ColdScore(w: SchedWorker): real {
    if InFlightKnown(w) then 0.5 + 0.5 * InFlightRatio(w) else 0.5
  }

  function ThroughputScore(s: Scorer, w: SchedWorker): real {
    if s.throughput <= 0.0 then 0.0
    else if w.tokensPerSecond < 0.0 then 0.5
    else Min(w.tokensPerSecond / 100.0, 1.0)
  }

  /** The part of the weighted sum that does not depend on load or on being loaded. */
  function StaticSum(s: Scorer, req: Request, model: ModelInfo, w: SchedWorker): real {
    Static(s, QuantizationScore(req.quantization, model.quantization), VramScore(w), ThroughputScore(s, w))
  }

  function Static(s: Scorer, quantization: real, vram: real, throughput: real): real {
    s.quantMatch * quantization + s.vramFree * vram + s.throughput * throughput
  }

  function Weigh(s: Scorer, gpu: real, queue: real, latency: real): real {
    s.gpuUtil * gpu + s.queueDepth * queue + s.latency * latency
  }

  function LoadSum(s: Scorer, w: SchedWorker): real {
    Weigh(s, GpuScore(w), QueueScore(s, w), LatencyScore(w))
  }

  function Charge(s: Scorer, loaded: bool, cold: real): real {
    if loaded then s.loadedBonus else -(s.coldPenalty * cold)
  }

  function LoadedSum(s: Scorer, loaded: bool, w: SchedWorker): real {
    Charge(s, loaded, ColdScore(w))
  }

  function RawScore(s: Scorer, req: Request, model: ModelInfo, w: SchedWorker): real {
    StaticSum(s, req, model, w) + LoadSum(s, w) + LoadedSum(s, model.loaded, w)
  }

  /** The checks that reject a worker before anything is added up. */
  function Rejection(s: Scorer, req: Request, w: SchedWorker, now: int): Option<Error> {
    if now - w.lastHeartbeat > s.unavailableTTL then Some(WorkerUnavailable)
    else
      match FindModel(w.models, req.model)
      case None => Some(NoMatchingWorkers)
      case Some(m) =>
        if !m.loaded && s.loadedBonus == 0.0 && s.coldPenalty == 0.0 then Some(NoMatchingWorkers)
        else if !QuantizationCompatible(req.quantization, m.quantization) then Some(NoMatchingWorkers)
        else if req.maxVramMB > 0 && w.vramFreeMB < req.maxVramMB then Some(NoCapacity)
        else if req.minVramMB > 0 && w.vramFreeMB < req.minVramMB then Some(NoCapacity)
        else None
  }

  function Score(s: Scorer, req: Request, w: SchedWorker, now: int): (r: Result<real>)
    ensures r.Ok? ==> 0.0 <= r.value <= 1.0
  {
    match Rejection(s, req, w, now)
    case Some(e) => Err(e)
    case None => Ok(Clamp(RawScore(s, req, FindModel(w.models, req.model).value, w)))
  }

  predicate NonNegative(s: Scorer) {
    && s.quantMatch >= 0.0 && s.vramFree >= 0.0 && s.gpuUtil >= 0.0 && s.queueDepth >= 0.0
    && s.latency >= 0.0 && s.loadedBonus >= 0.0 && s.coldPenalty >= 0.0 && s.throughput >= 0.0
  }

  /** `b` is the same worker as `a` under at least as much load, all signals known. */
  predicate AtLeastAsLoaded(a: SchedWorker, b: SchedWorker) {
    && b == a.(gpuUtilPct := b.gpuUtilPct, queueDepth := b.queueDepth, inFlight := b.inFlight, avgLatencyMS := b.avgLatencyMS)
    && 0.0 <= a.gpuUtilPct <= b.gpuUtilPct
    && 0 <= a.queueDepth <= b.queueDepth
    && 0 <= a.inFlight <= b.inFlight
    && 0.0 <= a.avgLatencyMS <= b.avgLatencyMS
  }

  lemma WeightedAtMost(w: real, a: real, b: real)
    requires w >= 0.0 && a <= b
    ensures w * a <= w * b
  {
  }

  lemma QuotientMonotone(a: int, b: int, d: int)
    requires a <= b && d > 0
    ensures a as real / d as real <= b as real / d as real
  {
    WeightedAtMost(1.0 / d as real, a as real, b as real);
    assert a as real / d as real == 1.0 / d as real * a as real;
    assert b as real / d as real == 1.0 / d as real * b as real;
  }

  lemma QueueScoreAntitone(s: Scorer, a: SchedWorker, b: SchedWorker)
    requires AtLeastAsLoaded(a, b)
    ensures QueueScore(s, b) <= QueueScore(s, a)
    ensures ColdScore(a) <= ColdScore(b)
  {
    QuotientMonotone(a.queueDepth, b.queueDepth, MaxQueueDepth(s));
    if a.maxInFlight > 0 {
      QuotientMonotone(a.inFlight, b.inFlight, a.maxInFlight);
      assert InFlightRatio(a) <= InFlightRatio(b);
    }
  }

  lemma GpuAndLatencyAntitone(a: SchedWorker, b: SchedWorker)
    requires AtLeastAsLoaded(a, b)
    ensures GpuScore(b) <= GpuScore(a) && LatencyScore(b) <= LatencyScore(a)
  {
  }

  lemma WeighMonotone(s: Scorer, g: real, q: real, l: real, g': real, q': real, l': real)
    requires NonNegative(s) && g <= g' && q <= q' && l <= l'
    ensures Weigh(s, g, q, l) <= Weigh(s, g', q', l')
  {
    WeightedAtMost(s.gpuUtil, g, g');
    WeightedAtMost(s.queueDepth, q, q');
    WeightedAtMost(s.latency, l, l');
  }

  lemma LoadSumAntitone(s: Scorer, a: SchedWorker, b: SchedWorker)
    requires NonNegative(s) && AtLeastAsLoaded(a, b)
    ensures LoadSum(s, b) <= LoadSum(s, a)
  {
    GpuAndLatencyAntitone(a, b);
    QueueScoreAntitone(s, a, b);
    WeighMonotone(s, GpuScore(b), QueueScore(s, b), LatencyScore(b), GpuScore(a), QueueScore(s, a), LatencyScore(a));
  }

  lemma ChargeAntitone(s: Scorer, loaded: bool, c: real, c': real)
    requires NonNegative(s) && c <= c'
    ensures Charge(s, loaded, c') <= Charge(s, loaded, c)
  {
    WeightedAtMost(s.coldPenalty, c, c');
  }

  lemma LoadedSumAntitone(s: Scorer, a: SchedWorker, b: SchedWorker, loaded: bool)
    requires NonNegative(s) && AtLeastAsLoaded(a, b)
    ensures LoadedSum(s, loaded, b) <= LoadedSum(s, loaded, a)
  {
    QueueScoreAntitone(s, a, b);
    ChargeAntitone(s, loaded, ColdScore(a), ColdScore(b));
  }

  lemma StaticSumSame(s: Scorer, req: Request, m: ModelInfo, m': ModelInfo, a: SchedWorker, b: SchedWorker)
    requires m.quantization == m'.quantization
    requires a.vramTotalMB == b.vramTotalMB && a.vramFreeMB == b.vramFreeMB && a.tokensPerSecond == b.tokensPerSecond
    ensures StaticSum(s, req, m, a) == StaticSum(s, req, m', b)
  {
    assert VramScore(a) == VramScore(b) && ThroughputScore(s, a) == ThroughputScore(s, b);
  }

  /** More in-flight calls, a deeper queue, more latency or more GPU use, in any
      combination, never raise a score and never turn a rejection into a score. */
  lemma ScoreAntitone(s: Scorer, req: Request, a: SchedWorker, b: SchedWorker, now: int)
    requires NonNegative(s) && AtLeastAsLoaded(a, b)
    ensures Score(s, req, a, now).Err? ==> Score(s, req, b, now) == Score(s, req, a, now)
    ensures Score(s, req, a, now).Ok? ==>
      Score(s, req, b, now).Ok? && Score(s, req, b, now).value <= Score(s, req, a, now).value
  {
    assert Rejection(s, req, b, now) == Rejection(s, req, a, now);
    if Rejection(s, req, a, now).None? {
      var m := FindModel(a.models, req.model).value;
      LoadSumAntitone(s, a, b);
      LoadedSumAntitone(s, a, b, m.loaded);
      StaticSumSame(s, req, m, m, a, b);
    }
  }

  /** Set the loaded flag of the first entry for `name`, the entry that scoring looks at. */
  /** The same when GPU use is not known for either. */
  lemma GpuUnknownAntitone(s: Scorer, req: Request, a: SchedWorker, b: SchedWorker, now: int)
    requires NonNegative(s) && a.gpuUtilPct < 0.0
    requires b == a.(queueDepth := b.queueDepth, inFlight := b.inFlight, avgLatencyMS := b.avgLatencyMS)
    requires 0 <= a.queueDepth <= b.queueDepth && 0 <= a.inFlight <= b.inFlight && 0.0 <= a.avgLatencyMS <= b.avgLatencyMS
    ensures Score(s, req, a, now).Err? ==> Score(s, req, b, now) == Score(s, req, a, now)
    ensures Score(s, req, a, now).Ok? ==>
      Score(s, req, b, now).Ok? && Score(s, req, b, now).value <= Score(s, req, a, now).value
  {
    var a', b' := a.(gpuUtilPct := 50.0), b.(gpuUtilPct := 50.0);
    HalfGpu(s, req, a, now);
    HalfGpu(s, req, b, now);
    ScoreAntitone(s, req, a', b', now);
  }

  /** Not known and half used are the same to the scorer. */
  lemma HalfGpu(s: Scorer, req: Request, w: SchedWorker, now: int)
    requires w.gpuUtilPct < 0.0
    ensures Score(s, req, w.(gpuUtilPct := 50.0), now) == Score(s, req, w, now)
  {
    var v := w.(gpuUtilPct := 50.0);
    assert GpuScore(v) == GpuScore(w) == 0.5;
    assert LoadSum(s, v) == LoadSum(s, w);
  }

  function WithLoaded(w: SchedWorker, name: string, loaded: bool): SchedWorker {
    var i := FirstIndex(w.models, name);
    if i < |w.models| then w.(models := w.models[i := w.models[i].(loaded := loaded)]) else w
  }

  lemma {:induction false} FirstIndexStable(models: seq<ModelInfo>, name: string, loaded: bool)
    requires FirstIndex(models, name) < |models|
    ensures var i := FirstIndex(models, name); FirstIndex(models[i := models[i].(loaded := loaded)], name) == i
  {
    if models[0].name != name {
      var i := FirstIndex(models, name);
      FirstIndexStable(models[1..], name, loaded);
      assert models[i := models[i].(loaded := loaded)][1..] == models[1..][i - 1 := models[1..][i - 1].(loaded := loaded)];
    }
  }

  lemma LoadedSumNeverLess(s: Scorer, w: SchedWorker)
    requires NonNegative(s)
    ensures LoadedSum(s, false, w) <= LoadedSum(s, true, w)
  {
    if InFlightKnown(w) {
      QuotientMonotone(0, w.inFlight, w.maxInFlight);
    }
    WeightedAtMost(s.coldPenalty, 0.0, ColdScore(w));
  }

  /** Having the model loaded never costs a worker anything. */
  lemma LoadedNeverWorse(s: Scorer, req: Request, w: SchedWorker, now: int)
    requires NonNegative(s)
    ensures var cold, warm := Score(s, req, WithLoaded(w, req.model, false), now), Score(s, req, WithLoaded(w, req.model, true), now);
      cold.Ok? ==> warm.Ok? && cold.value <= warm.value
  {
    var i := FirstIndex(w.models, req.model);
    if i < |w.models| {
      var m, m' := w.models[i].(loaded := false), w.models[i].(loaded := true);
      var cold, warm := WithLoaded(w, req.model, false), WithLoaded(w, req.model, true);
      FirstIndexStable(w.models, req.model, false);
      FirstIndexStable(w.models, req.model, true);
      LoadSumSame(s, cold, warm);
      StaticSumSame(s, req, m, m', cold, warm);
      LoadedSumNeverLess(s, warm);
    }
  }

  lemma LoadSumSame(s: Scorer, a: SchedWorker, b: SchedWorker)
    requires b == a.(models := b.models)
    ensures LoadSum(s, a) == LoadSum(s, b)
    ensures forall loaded :: LoadedSum(s, loaded, a) == LoadedSum(s, loaded, b)
  {
    assert QueueScore(s, a) == QueueScore(s, b) && ColdScore(a) == ColdScore(b);
    assert GpuScore(a) == GpuScore(b) && LatencyScore(a) == LatencyScore(b);
  }

  lemma FullRatio(w: SchedWorker)
    requires InFlightKnown(w)
    ensures InFlightRatio(w) == 1.0 <==> w.inFlight >= w.maxInFlight
  {
    var x := w.inFlight as real / w.maxInFlight as real;
    assert x * w.maxInFlight as real == w.inFlight as real;
    if x >= 1.0 {
      WeightedAtMost(w.maxInFlight as real, 1.0, x);
    } else {
      assert (1.0 - x) * w.maxInFlight as real > 0.0;
    }
  }

  /** The gap between loaded and cold is the bonus plus the penalty in full only for a
      worker at its in-flight cap (or with no penalty at all); an idle one pays half. */
  lemma LoadedSpread(s: Scorer, w: SchedWorker)
    ensures LoadedSum(s, true, w) - LoadedSum(s, false, w) == s.loadedBonus + s.coldPenalty * ColdScore(w)
    ensures LoadedSum(s, true, w) - LoadedSum(s, false, w) == s.loadedBonus + s.coldPenalty <==>
      s.coldPenalty == 0.0 || (InFlightKnown(w) && w.inFlight >= w.maxInFlight)
  {
    if InFlightKnown(w) {
      FullRatio(w);
    }
    var c := ColdScore(w);
    assert s.coldPenalty - s.coldPenalty * c == s.coldPenalty * (1.0 - c);
    assert s.coldPenalty * (1.0 - c) == 0.0 <==> s.coldPenalty == 0.0 || c == 1.0;
  }

  /** An idle worker's gap is the bonus and half the penalty: 0.3 where 0.4 is announced. */
  lemma LoadedSpreadExample(w: SchedWorker, s: Scorer)
    requires w.inFlight == 0 && w.maxInFlight == 4 && s.loadedBonus == 0.2 && s.coldPenalty == 0.2
    ensures LoadedSum(s, true, w) - LoadedSum(s, false, w) == 0.3
    ensures s.loadedBonus + s.coldPenalty == 0.4
  {
    LoadedSpread(s, w);
    assert ColdScore(w) == 0.5;
  }

  /** Compatible quantizations are the ones that score, an exact match or no preference
      scores in full, and more capability than asked for never scores less. */
  lemma QuantizationLaw(requested: string, actual: string, better: string)
    ensures QuantizationScore(requested, actual) > 0.0 <==> QuantizationCompatible(requested, actual)
    ensures QuantizationScore(requested, actual) == 1.0 <==> requested in {"", actual}
    ensures requested !in {"", actual} ==> QuantizationScore(requested, actual) <= 0.8
    ensures requested !in {actual, better} && Capability(actual) <= Capability(better)
      ==> QuantizationScore(requested, actual) <= QuantizationScore(requested, better)
  {
    SameCapability(requested, actual);
  }

  lemma SameCapability(a: string, b: string)
    ensures Capability(a) == Capability(b) > 0 ==> a == b
  {
  }

  // What each signal is worth.

  function Max(a: real, b: real): real {
    if a <= b then b else a
  }

  /** Every load signal is known and within the range in which it counts. */
  predicate InRange(s: Scorer, w: SchedWorker) {
    && 0.0 <= w.gpuUtilPct <= 100.0 && 0.0 <= w.avgLatencyMS <= 1000.0
    && 0 <= w.queueDepth <= MaxQueueDepth(s) && 0 <= w.inFlight <= w.maxInFlight && w.maxInFlight > 0
  }

  /** The worse of the two load ratios. */
  function LoadRatio(s: Scorer, w: SchedWorker): real
    requires InRange(s, w)
  {
    Max(w.queueDepth as real / MaxQueueDepth(s) as real, w.inFlight as real / w.maxInFlight as real)
  }

  lemma AtMostOne(n: int, d: int)
    requires 0 <= n <= d && d > 0
    ensures 0.0 <= n as real / d as real <= 1.0
  {
    QuotientMonotone(0, n, d);
    QuotientMonotone(n, d, d);
  }

  lemma InRangeScores(s: Scorer, w: SchedWorker)
    requires InRange(s, w)
    ensures QueueScore(s, w) == 1.0 - LoadRatio(s, w)
    ensures GpuScore(w) == 1.0 - w.gpuUtilPct / 100.0 && LatencyScore(w) == 1.0 - w.avgLatencyMS / 1000.0
    ensures ColdScore(w) == 0.5 + 0.5 * (w.inFlight as real / w.maxInFlight as real)
  {
    AtMostOne(w.queueDepth, MaxQueueDepth(s));
    AtMostOne(w.inFlight, w.maxInFlight);
  }

  /** The load part of two workers differs, signal by signal, by the weight of the signal
      times the difference of the normalised signals. */
  lemma LoadDifference(s: Scorer, a: SchedWorker, b: SchedWorker)
    requires InRange(s, a) && InRange(s, b)
    ensures LoadSum(s, a) - LoadSum(s, b) ==
      s.gpuUtil * (b.gpuUtilPct / 100.0 - a.gpuUtilPct / 100.0)
      + s.queueDepth * (LoadRatio(s, b) - LoadRatio(s, a))
      + s.latency * (b.avgLatencyMS / 1000.0 - a.avgLatencyMS / 1000.0)
  {
    InRangeScores(s, a);
    InRangeScores(s, b);
    var g, g', l, l' := GpuScore(a), GpuScore(b), LatencyScore(a), LatencyScore(b);
    var q, q' := QueueScore(s, a), QueueScore(s, b);
    assert g - g' == b.gpuUtilPct / 100.0 - a.gpuUtilPct / 100.0;
    assert l - l' == b.avgLatencyMS / 1000.0 - a.avgLatencyMS / 1000.0;
    assert q - q' == LoadRatio(s, b) - LoadRatio(s, a);
    WeighDifference(s, g, q, l, g', q', l');
  }

  lemma WeighDifference(s: Scorer, g: real, q: real, l: real, g': real, q': real, l': real)
    ensures Weigh(s, g, q, l) - Weigh(s, g', q', l') == s.gpuUtil * (g - g') + s.queueDepth * (q - q') + s.latency * (l - l')
  {
  }

  /** On top of that a cold worker pays half the penalty weight per unit of in-flight
      ratio, and nothing else in the sum depends on load. */
  lemma ScoreDifference(s: Scorer, req: Request, m: ModelInfo, a: SchedWorker, b: SchedWorker)
    requires AtLeastAsLoaded(a, b) && InRange(s, a) && InRange(s, b)
    ensures RawScore(s, req, m, a) - RawScore(s, req, m, b) == LoadSum(s, a) - LoadSum(s, b)
      + if m.loaded then 0.0
        else s.coldPenalty * (0.5 * (b.inFlight as real / b.maxInFlight as real - a.inFlight as real / a.maxInFlight as real))
  {
    StaticSumSame(s, req, m, m, a, b);
    ColdDifference(s, m.loaded, a, b);
  }

  lemma ColdDifference(s: Scorer, loaded: bool, a: SchedWorker, b: SchedWorker)
    requires InRange(s, a) && InRange(s, b)
    ensures LoadedSum(s, loaded, a) - LoadedSum(s, loaded, b) == if loaded then 0.0
      else s.coldPenalty * (0.5 * (b.inFlight as real / b.maxInFlight as real - a.inFlight as real / a.maxInFlight as real))
  {
    InRangeScores(s, a);
    InRangeScores(s, b);
    ChargeDifference(s, loaded, ColdScore(a), ColdScore(b));
  }

  lemma ChargeDifference(s: Scorer, loaded: bool, c: real, c': real)
    ensures Charge(s, loaded, c) - Charge(s, loaded, c') == if loaded then 0.0 else s.coldPenalty * (c' - c)
  {
  }

  lemma MemoryInRange(w: SchedWorker)
    requires 0 <= w.vramFreeMB <= w.vramTotalMB && w.vramTotalMB > 0
    ensures VramScore(w) == w.vramFreeMB as real / w.vramTotalMB as real
  {
    AtMostOne(w.vramFreeMB, w.vramTotalMB);
  }

  /** All of memory and throughput known and in range. */
  predicate StaticInRange(w: SchedWorker) {
    0 <= w.vramFreeMB <= w.vramTotalMB && w.vramTotalMB > 0 && 0.0 <= w.tokensPerSecond <= 100.0
  }

  function FreeRatio(w: SchedWorker): real
    requires w.vramTotalMB > 0
  {
    w.vramFreeMB as real / w.vramTotalMB as real
  }

  lemma StaticIs(s: Scorer, req: Request, m: ModelInfo, w: SchedWorker)
    requires StaticInRange(w) && s.throughput > 0.0
    ensures StaticSum(s, req, m, w)
      == Static(s, QuantizationScore(req.quantization, m.quantization), FreeRatio(w), w.tokensPerSecond / 100.0)
  {
    MemoryInRange(w);
  }

  /** Memory and throughput likewise. */
  lemma StaticDifference(s: Scorer, req: Request, m: ModelInfo, a: SchedWorker, b: SchedWorker)
    requires StaticInRange(a) && StaticInRange(b) && s.throughput > 0.0
    ensures StaticSum(s, req, m, a) - StaticSum(s, req, m, b) ==
      s.vramFree * (FreeRatio(a) - FreeRatio(b)) + s.throughput * (a.tokensPerSecond / 100.0 - b.tokensPerSecond / 100.0)
  {
    StaticIs(s, req, m, a);
    StaticIs(s, req, m, b);
    WorkersDiffer(s, QuantizationScore(req.quantization, m.quantization),
                  FreeRatio(a), a.tokensPerSecond / 100.0, FreeRatio(b), b.tokensPerSecond / 100.0);
  }

  lemma WorkersDiffer(s: Scorer, q: real, v: real, t: real, v': real, t': real)
    ensures Static(s, q, v, t) - Static(s, q, v', t') == s.vramFree * (v - v') + s.throughput * (t - t')
  {
  }

  /** And for one worker with two entries: the quantization weight times the difference. */
  lemma EntryDifference(s: Scorer, req: Request, m: ModelInfo, m': ModelInfo, w: SchedWorker)
    ensures StaticSum(s, req, m, w) - StaticSum(s, req, m', w) ==
      s.quantMatch * (QuantizationScore(req.quantization, m.quantization) - QuantizationScore(req.quantization, m'.quantization))
  {
    EntriesDiffer(s, QuantizationScore(req.quantization, m.quantization),
                  QuantizationScore(req.quantization, m'.quantization), VramScore(w), ThroughputScore(s, w));
  }

  lemma EntriesDiffer(s: Scorer, q: real, q': real, v: real, t: real)
    ensures Static(s, q, v, t) - Static(s, q', v, t) == s.quantMatch * (q - q')
  {
  }

  lemma Whole(d: int)
    requires d > 0
    ensures d as real / d as real == 1.0
  {
  }

  /** A signal that is not known counts one half; one beyond its range counts as the end of
      the range; without a throughput weight throughput counts nothing. */
  lemma UnknownMemory(w: SchedWorker)
    ensures w.vramTotalMB <= 0 ==> VramScore(w) == 0.5
    ensures w.vramTotalMB > 0 && w.vramFreeMB >= w.vramTotalMB ==> VramScore(w) == 1.0
  {
    if w.vramTotalMB > 0 && w.vramFreeMB >= w.vramTotalMB {
      QuotientMonotone(w.vramTotalMB, w.vramFreeMB, w.vramTotalMB);
      Whole(w.vramTotalMB);
    }
  }

  lemma UnknownSpeed(s: Scorer, w: SchedWorker)
    ensures w.gpuUtilPct < 0.0 ==> GpuScore(w) == 0.5
    ensures w.gpuUtilPct >= 100.0 ==> GpuScore(w) == 0.0
    ensures w.avgLatencyMS < 0.0 ==> LatencyScore(w) == 0.5
    ensures w.avgLatencyMS >= 1000.0 ==> LatencyScore(w) == 0.0
    ensures s.throughput > 0.0 && w.tokensPerSecond < 0.0 ==> ThroughputScore(s, w) == 0.5
    ensures s.throughput > 0.0 && w.tokensPerSecond >= 100.0 ==> ThroughputScore(s, w) == 1.0
    ensures s.throughput <= 0.0 ==> ThroughputScore(s, w) == 0.0
  {
  }

  lemma UnknownLoad(s: Scorer, w: SchedWorker)
    requires w.inFlight < 0 || w.maxInFlight <= 0
    ensures w.queueDepth < 0 ==> QueueScore(s, w) == 0.5
    ensures ColdScore(w) == 0.5
  {
  }

  lemma FullQueue(s: Scorer, w: SchedWorker)
    requires w.queueDepth >= (if s.maxQueueDepth <= 0 then 10 else s.maxQueueDepth)
    ensures QueueScore(s, w) == 0.0
  {
    QuotientMonotone(MaxQueueDepth(s), w.queueDepth, MaxQueueDepth(s));
    Whole(MaxQueueDepth(s));
    assert Min(w.queueDepth as real / MaxQueueDepth(s) as real, 1.0) == 1.0;
    if InFlightKnown(w) {
      QuotientMonotone(0, w.inFlight, w.maxInFlight);
    }
  }

  lemma FullInFlight(s: Scorer, w: SchedWorker)
    requires w.inFlight >= w.maxInFlight > 0
    ensures QueueScore(s, w) == 0.0
  {
    FullRatio(w);
    if w.queueDepth >= 0 {
      QuotientMonotone(0, w.queueDepth, MaxQueueDepth(s));
    }
  }

  /** The whole sum of a worker that is best in everything is the sum of the weights. */
  lemma BestWorker(s: Scorer, req: Request, m: ModelInfo, w: SchedWorker)
    requires m.loaded && req.quantization in {"", m.quantization}
    requires w.vramFreeMB == w.vramTotalMB > 0 && w.gpuUtilPct == 0.0 && w.avgLatencyMS == 0.0
    requires w.queueDepth == 0 && w.inFlight == 0 && w.maxInFlight > 0 && w.tokensPerSecond >= 100.0 && s.throughput > 0.0
    ensures RawScore(s, req, m, w) ==
      s.quantMatch + s.vramFree + s.throughput + s.gpuUtil + s.queueDepth + s.latency + s.loadedBonus
  {
    InRangeScores(s, w);
    UnknownMemory(w);
    UnknownSpeed(s, w);
  }

  /** Two idle workers with the model loaded, 10% and 90% of their memory free, GPU use not
      known, score 0.7 and 0.9 with the weights 0.40, 0.25, 0.15, 0.10 and 0.10. */
  lemma FreeMemoryExample(s: Scorer, req: Request, m: ModelInfo, w: SchedWorker)
    requires s.quantMatch == 0.4 && s.vramFree == 0.25 && s.gpuUtil == 0.15 && s.queueDepth == 0.1 && s.latency == 0.1
    requires s.loadedBonus == 0.0 && s.coldPenalty == 0.0 && s.throughput == 0.0
    requires m.loaded && req.quantization == "" && w.vramTotalMB == 1000
    requires w.gpuUtilPct == -1.0 && w.avgLatencyMS == 0.0 && w.queueDepth == 0 && w.inFlight == 0 && w.maxInFlight == 4
    ensures RawScore(s, req, m, w.(vramFreeMB := 100)) == 0.7
    ensures RawScore(s, req, m, w.(vramFreeMB := 900)) == 0.9
  {
    MemoryInRange(w.(vramFreeMB := 100));
    MemoryInRange(w.(vramFreeMB := 900));
  }

  /** What a score is made of: the weighted sum, cut off at 0 and 1. */
  lemma ScoreIsTheSum(s: Scorer, req: Request, w: SchedWorker, now: int, i: nat)
    requires Score(s, req, w, now).Ok? && FirstEntry(w.models, req.model, i)
    ensures var raw, score := RawScore(s, req, w.models[i], w), Score(s, req, w, now).value;
      score == if raw < 0.0 then 0.0 else if raw > 1.0 then 1.0 else raw
  {
    FirstEntryIs(w.models, req.model, i);
  }

  /** The entry that counts is the first one with the name. */
  predicate FirstEntry(models: seq<ModelInfo>, name: string, i: nat) {
    i < |models| && models[i].name == name && forall j | 0 <= j < i :: models[j].name != name
  }

  lemma {:induction false} FirstEntryIs(models: seq<ModelInfo>, name: string, i: nat)
    requires FirstEntry(models, name, i)
    ensures FirstIndex(models, name) == i
  {
    if i > 0 {
      assert models[0].name != name;
      FirstEntryIs(models[1..], name, i - 1);
    }
  }

  lemma {:induction false} NoEntry(models: seq<ModelInfo>, name: string)
    requires forall i | 0 <= i < |models| :: models[i].name != name
    ensures FirstIndex(models, name) == |models|
  {
    if models != [] {
      NoEntry(models[1..], name);
    }
  }

  /** Each rejection, and nothing else, exactly: a stale heartbeat; else no entry, an
      entry that is not loaded while neither the bonus nor the penalty is set, or an
      incompatible quantization; else too little free memory for either bound. */
  lemma RejectionsExactly(s: Scorer, req: Request, w: SchedWorker, now: int)
    ensures var r := Score(s, req, w, now);
      var stale := now - w.lastHeartbeat > s.unavailableTTL;
      var fits := exists i: nat :: FirstEntry(w.models, req.model, i) && Serves(s, req, w.models[i]);
      var short := (req.maxVramMB > 0 && w.vramFreeMB < req.maxVramMB) || (req.minVramMB > 0 && w.vramFreeMB < req.minVramMB);
      && (r == Err(WorkerUnavailable) <==> stale)
      && (r == Err(NoMatchingWorkers) <==> !stale && !fits)
      && (r == Err(NoCapacity) <==> !stale && fits && short)
      && (r.Ok? <==> !stale && fits && !short)
  {
    if i: nat :| FirstEntry(w.models, req.model, i) {
      FirstEntryIs(w.models, req.model, i);
      assert forall j: nat | FirstEntry(w.models, req.model, j) :: j == i;
    } else {
      FirstIndexIsFirst(w.models, req.model);
    }
  }

  /** An entry that can serve the request, hot or cold. */
  predicate Serves(s: Scorer, req: Request, m: ModelInfo) {
    && (m.loaded || s.loadedBonus != 0.0 || s.coldPenalty != 0.0)
    && (req.quantization == "" || req.quantization == m.quantization || BetterQuantization(req.quantization, m.quantization))
  }

  /** FP16 over Q8 over Q6 over Q5 over Q4; other names are not comparable. */
  predicate BetterQuantization(requested: string, actual: string) {
    || (requested == "Q4" && actual in {"Q5", "Q6", "Q8", "FP16"})
    || (requested == "Q5" && actual in {"Q6", "Q8", "FP16"})
    || (requested == "Q6" && actual in {"Q8", "FP16"})
    || (requested == "Q8" && actual == "FP16")
  }

  lemma {:induction false} FirstIndexIsFirst(models: seq<ModelInfo>, name: string)
    ensures var i := FirstIndex(models, name); i <= |models| && (i < |models| ==> FirstEntry(models, name, i))
  {
    if models != [] && models[0].name != name {
      FirstIndexIsFirst(models[1..], name);
      var i := FirstIndex(models[1..], name);
      if i < |models[1..]| {
        assert forall j | 0 < j <= i :: models[j] == models[1..][j - 1];
      }
    }
  }

  /** One fifth for each step above what was asked for. */
  lemma PartialCredit()
    ensures QuantizationScore("Q4", "Q5") == 0.2 && QuantizationScore("Q4", "Q6") == 0.4
    ensures QuantizationScore("Q4", "Q8") == 0.6 && QuantizationScore("Q4", "FP16") == 0.8
    ensures QuantizationScore("Q5", "Q6") == 0.2 && QuantizationScore("Q5", "Q8") == 0.4 && QuantizationScore("Q5", "FP16") == 0.6
    ensures QuantizationScore("Q6", "Q8") == 0.2 && QuantizationScore("Q6", "FP16") == 0.4
    ensures QuantizationScore("Q8", "FP16") == 0.2
  {
  }

  /** What a change of memory or throughput leaves alone. */
  lemma LoadIsSeparate(s: Scorer, w: SchedWorker, v: SchedWorker, loaded: bool)
    requires v == w.(vramFreeMB := v.vramFreeMB, tokensPerSecond := v.tokensPerSecond)
    ensures LoadSum(s, v) == LoadSum(s, w) && LoadedSum(s, loaded, v) == LoadedSum(s, loaded, w)
  {
  }

  lemma StaticMonotone(s: Scorer, q: real, v: real, t: real, v': real, t': real)
    requires NonNegative(s) && v <= v' && t <= t'
    ensures Static(s, q, v, t) <= Static(s, q, v', t')
  {
    WeightedAtMost(s.vramFree, v, v');
    WeightedAtMost(s.throughput, t, t');
  }

  lemma BetterStatic(s: Scorer, req: Request, w: SchedWorker, v: SchedWorker, now: int)
    requires NonNegative(s) && v == w.(vramFreeMB := v.vramFreeMB, tokensPerSecond := v.tokensPerSecond)
    requires v.vramFreeMB >= w.vramFreeMB
    requires VramScore(w) <= VramScore(v) && ThroughputScore(s, w) <= ThroughputScore(s, v)
    ensures Score(s, req, w, now).Ok? ==> Score(s, req, v, now).Ok? && Score(s, req, w, now).value <= Score(s, req, v, now).value
  {
    if Rejection(s, req, w, now).None? {
      var m := FindModel(w.models, req.model).value;
      StaticMonotone(s, QuantizationScore(req.quantization, m.quantization),
                     VramScore(w), ThroughputScore(s, w), VramScore(v), ThroughputScore(s, v));
      LoadIsSeparate(s, w, v, m.loaded);
      assert RawScore(s, req, m, w) <= RawScore(s, req, m, v);
    }
  }

  /** More free memory never scores less, and never turns a score into a rejection. */
  lemma MoreMemoryNeverWorse(s: Scorer, req: Request, w: SchedWorker, free: int, now: int)
    requires NonNegative(s) && free >= w.vramFreeMB
    ensures var less, more := Score(s, req, w, now), Score(s, req, w.(vramFreeMB := free), now);
      less.Ok? ==> more.Ok? && less.value <= more.value
  {
    if w.vramTotalMB > 0 {
      QuotientMonotone(w.vramFreeMB, free, w.vramTotalMB);
    }
    BetterStatic(s, req, w, w.(vramFreeMB := free), now);
  }

  /** Nor does more throughput. */
  lemma MoreThroughputNeverWorse(s: Scorer, req: Request, w: SchedWorker, tps: real, now: int)
    requires NonNegative(s) && tps >= w.tokensPerSecond >= 0.0
    ensures var less, more := Score(s, req, w, now), Score(s, req, w.(tokensPerSecond := tps), now);
      less.Ok? ==> more.Ok? && less.value <= more.value
  {
    BetterStatic(s, req, w, w.(tokensPerSecond := tps), now);
  }

  // Filters and selection.

  predicate Fresh(w: SchedWorker, ttl: int, now: int) {
    now - w.lastHeartbeat <= (if ttl <= 0 then DEFAULT_UNAVAILABLE_TTL else ttl)
  }

  /** Whitelist over blacklist: a non-empty allow list governs alone. */
  predicate WillingLists(allowed: seq<string>, excluded: seq<string>, model: string) {
    if allowed != [] then model in allowed else model !in excluded
  }

  predicate Willing(w: SchedWorker, model: string) {
    WillingLists(w.allowedModels, w.excludedModels, model)
  }

  /** Fresh means heard from within the limit, 30 seconds by default. */
  lemma FreshMeans(w: SchedWorker, ttl: int, now: int)
    ensures ttl > 0 ==> (Fresh(w, ttl, now) <==> w.lastHeartbeat >= now - ttl)
    ensures ttl <= 0 ==> (Fresh(w, ttl, now) <==> w.lastHeartbeat >= now - 30)
  {
  }

  method FilterUnavailable(workers: seq<SchedWorker>, ttl: int, now: int) returns (kept: seq<SchedWorker>)
    ensures kept == Filter(workers, (w: SchedWorker) => Fresh(w, ttl, now))
  {
    var limit := if ttl <= 0 then DEFAULT_UNAVAILABLE_TTL else ttl;
    kept := [];
    for i := 0 to |workers|
      invariant kept == Filter(workers[..i], (w: SchedWorker) => Fresh(w, ttl, now))
    {
      FilterStep(workers, i, (w: SchedWorker) => Fresh(w, ttl, now));
      if now - workers[i].lastHeartbeat <= limit {
        kept := kept + [workers[i]];
      }
    }
    assert workers[..|workers|] == workers;
  }

  method FilterByAllowedModels(workers: seq<SchedWorker>, model: string) returns (kept: seq<SchedWorker>)
    ensures kept == Filter(workers, (w: SchedWorker) => Willing(w, model))
  {
    kept := [];
    for i := 0 to |workers|
      invariant kept == Filter(workers[..i], (w: SchedWorker) => Willing(w, model))
    {
      FilterStep(workers, i, (w: SchedWorker) => Willing(w, model));
      var w := workers[i];
      if |w.allowedModels| > 0 {
        if model !in w.allowedModels {
          continue;
        }
      } else if |w.excludedModels| > 0 {
        if model in w.excludedModels {
          continue;
        }
      }
      kept := kept + [w];
    }
    assert workers[..|workers|] == workers;
  }

  /** A scoring algorithm, applied to one request at one instant. */
  type Algorithm = SchedWorker -> Result<real>

  /** list[k] is the first element with the greatest score. */
  ghost predicate FirstMaximum(algo: Algorithm, list: seq<SchedWorker>, k: nat) {
    && k < |list| && algo(list[k]).Ok?
    && forall i: nat | i < |list| && algo(list[i]).Ok? ::
         && algo(list[i]).value <= algo(list[k]).value
         && (i < k ==> algo(list[i]).value < algo(list[k]).value)
  }

  /** The workers that survive both filters, in list order. */
  function Contenders(workers: seq<SchedWorker>, model: string, ttl: int, now: int): seq<SchedWorker> {
    Filter(Filter(workers, (w: SchedWorker) => Fresh(w, ttl, now)), (w: SchedWorker) => Willing(w, model))
  }

  /** The contenders are the workers heard from in time that their lists allow. */
  lemma ContendersMeans(workers: seq<SchedWorker>, model: string, ttl: int, now: int, w: SchedWorker)
    ensures w in Contenders(workers, model, ttl, now) <==>
      && w in workers && w.lastHeartbeat >= now - (if ttl > 0 then ttl else 30)
      && (w.allowedModels != [] ==> model in w.allowedModels) && (w.allowedModels == [] ==> model !in w.excludedModels)
  {
    var young, willing := (w: SchedWorker) => Fresh(w, ttl, now), (w: SchedWorker) => Willing(w, model);
    FilterMembers(workers, young);
    FilterMembers(Filter(workers, young), willing);
  }

  /** Highest score, first on ties; an error exactly when no contender can be scored. */
  method SelectWorker(algo: Algorithm, model: string, workers: seq<SchedWorker>, ttl: int, now: int)
    returns (r: Result<SchedWorker>)
    ensures r.Ok? ==> exists k: nat ::
      FirstMaximum(algo, Contenders(workers, model, ttl, now), k) && Contenders(workers, model, ttl, now)[k] == r.value
    ensures r.Err? ==> forall w | w in Contenders(workers, model, ttl, now) :: algo(w).Err?
    ensures r.Err? ==> r.error == if workers != [] && forall w | w in workers :: !Fresh(w, ttl, now)
                                  then AllWorkersUnavailable else NoMatchingWorkers
  {
    if |workers| == 0 {
      return Err(NoMatchingWorkers);
    }
    FilterMembers(workers, (w: SchedWorker) => Fresh(w, ttl, now));
    var available := FilterUnavailable(workers, ttl, now);
    if |available| == 0 {
      return Err(AllWorkersUnavailable);
    }
    assert available[0] in available;
    available := FilterByAllowedModels(available, model);
    if |available| == 0 {
      return Err(NoMatchingWorkers);
    }
    r := BestOf(algo, available);
    assert available == Contenders(workers, model, ttl, now);
  }

  /** The first of the highest scores; an error if nobody can be scored. */
  method BestOf(algo: Algorithm, available: seq<SchedWorker>) returns (r: Result<SchedWorker>)
    ensures r.Ok? ==> exists k: nat :: FirstMaximum(algo, available, k) && available[k] == r.value
    ensures r.Err? ==> r.error == NoMatchingWorkers && forall w | w in available :: algo(w).Err?
  {
    var best, bestScore, found := 0, 0.0, false;
    for i := 0 to |available|
      invariant found ==> FirstMaximum(algo, available[..i], best) && algo(available[best]) == Ok(bestScore)
      invariant !found ==> forall k | 0 <= k < i :: algo(available[k]).Err?
    {
      var score := algo(available[i]);
      if score.Ok? && (!found || score.value > bestScore) {
        best, bestScore, found := i, score.value, true;
      }
    }
    if !found {
      return Err(NoMatchingWorkers);
    }
    assert available[..|available|] == available;
    assert FirstMaximum(algo, available, best);
    return Ok(available[best]);
  }
}
