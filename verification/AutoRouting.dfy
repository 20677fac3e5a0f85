/** The auto-routing configuration and its wire form: building a configuration from a
    request normalises it, and the wire form loses nothing of a normal one. */
module AutoRouting {
  import opened Protocol
  import opened Ordering
  import opened Text

  /** ComplexityTier is an integer; TierComplex is another name for TierHardest. */
  const TIER_SIMPLE := 0
  const TIER_MEDIUM := 1
  const TIER_HARD := 2
  const TIER_HARDEST := 3

  const DEFAULT_SIMPLE := 200
  const DEFAULT_MEDIUM := 600
  const MAX_TOKENS := 1_000_000

  /** A nil model map is None. */
  datatype Config = Config(models: Option<map<int, string>>, simpleMax: int, mediumMax: int, fourTier: bool)

  datatype Request = Request(enabled: bool, fourTier: bool, models: Option<map<string, string>>, simpleMax: int, mediumMax: int)

  function TierToString(tier: int): string {
    if tier == TIER_SIMPLE then "simple"
    else if tier == TIER_MEDIUM then "medium"
    else if tier == TIER_HARD then "hard"
    else if tier == TIER_HARDEST then "hardest"
    else ""
  }

  function StringToTier(name: string): Option<int> {
    if name == "simple" then Some(TIER_SIMPLE)
    else if name == "medium" then Some(TIER_MEDIUM)
    else if name == "hard" then Some(TIER_HARD)
    else if name == "hardest" || name == "complex" then Some(TIER_HARDEST)
    else None
  }

  predicate Known(tier: int) {
    TIER_SIMPLE <= tier <= TIER_HARDEST
  }

  /** Wire names are a section of the name table: reading a tier's name gives the tier,
      and the only name that is not its tier's own is the old "complex". */
  lemma TierNames(tier: int, name: string)
    ensures TierToString(tier) != "" <==> Known(tier)
    ensures Known(tier) ==> StringToTier(TierToString(tier)) == Some(tier) && Trim(TierToString(tier)) == TierToString(tier)
    ensures StringToTier(name).Some? ==> Known(StringToTier(name).value)
    ensures StringToTier(name).Some? ==> (TierToString(StringToTier(name).value) == name <==> name != "complex")
  {
    TrimFixesTrimmed(TierToString(tier));
  }

  // Reading the models of a request.

  function Read(models: map<int, string>, name: string, model: string): map<int, string> {
    var n, m := Trim(name), Trim(model);
    if n == "" || m == "" || StringToTier(n).None? then models else models[StringToTier(n).value := m]
  }

  /** The tiers read so far, in iteration order; later names overwrite earlier ones. */
  function ReadAll(raw: map<string, string>, order: seq<string>): map<int, string>
    requires forall k | k in order :: k in raw
  {
    if order == [] then map[]
    else Read(ReadAll(raw, order[..|order| - 1]), order[|order| - 1], raw[order[|order| - 1]])
  }

  function Clamp(tokens: int, default: int): int {
    var t := if tokens <= 0 then default else tokens;
    if t > MAX_TOKENS then MAX_TOKENS else t
  }

  function AtLeastAbove(medium: int, simple: int): int {
    if medium <= simple then simple + 1 else medium
  }

  function Build(req: Option<Request>, order: seq<string>): Option<Config>
    requires req.Some? && req.value.models.Some? ==> forall k | k in order :: k in req.value.models.value
  {
    if req.None? || !req.value.enabled || req.value.models.None? then None
    else
      var models := ReadAll(req.value.models.value, order);
      var simple := Clamp(req.value.simpleMax, DEFAULT_SIMPLE);
      var medium := AtLeastAbove(Clamp(req.value.mediumMax, DEFAULT_MEDIUM), simple);
      if models == map[] then None else Some(Config(Some(models), simple, medium, req.value.fourTier))
  }

  /** buildAutoRoutingConfig, for one iteration order of the request's models. */
  method BuildAutoRoutingConfig(req: Option<Request>, order: seq<string>) returns (cfg: Option<Config>)
    requires req.Some? && req.value.models.Some? ==> IsOrder(order, req.value.models.value.Keys)
    ensures cfg == Build(req, order)
  {
    if req.None? || !req.value.enabled || req.value.models.None? {
      return None;
    }
    var raw := req.value.models.value;
    var models: map<int, string> := map[];
    var hasModel := false;
    for i := 0 to |order|
      invariant models == ReadAll(raw, order[..i])
      invariant hasModel <==> models != map[]
    {
      var name, model := Trim(order[i]), Trim(raw[order[i]]);
      assert order[..i + 1][..i] == order[..i];
      if name == "" || model == "" {
        continue;
      }
      var tier := StringToTier(name);
      if tier.None? {
        continue;
      }
      models := models[tier.value := model];
      assert tier.value in models;
      hasModel := true;
    }
    assert order[..|order|] == order;
    if !hasModel {
      return None;
    }
    var simpleMax := req.value.simpleMax;
    if simpleMax <= 0 {
      simpleMax := DEFAULT_SIMPLE;
    }
    if simpleMax > MAX_TOKENS {
      simpleMax := MAX_TOKENS;
    }
    var mediumMax := req.value.mediumMax;
    if mediumMax <= 0 {
      mediumMax := DEFAULT_MEDIUM;
    }
    if mediumMax > MAX_TOKENS {
      mediumMax := MAX_TOKENS;
    }
    if mediumMax <= simpleMax {
      mediumMax := simpleMax + 1;
    }
    cfg := Some(Config(Some(models), simpleMax, mediumMax, req.value.fourTier));
  }

  // Writing a configuration.

  /** Each known tier's model under the tier's wire name. */
  function Written(models: map<int, string>): map<string, string> {
    map tier | tier in models && Known(tier) :: TierToString(tier) := models[tier]
  }

  lemma WrittenHas(models: map<int, string>, tier: int)
    requires tier in models && Known(tier)
    ensures TierToString(tier) in Written(models) && Written(models)[TierToString(tier)] == models[tier]
  {
  }

  lemma WrittenFrom(models: map<int, string>, name: string)
    requires name in Written(models)
    ensures StringToTier(name).Some? && StringToTier(name).value in models
    ensures TierToString(StringToTier(name).value) == name && Written(models)[name] == models[StringToTier(name).value]
  {
  }

  lemma WrittenAdd(models: map<int, string>, tier: int, model: string)
    ensures Written(models[tier := model])
      == if Known(tier) then Written(models)[TierToString(tier) := model] else Written(models)
  {
    var more := models[tier := model];
    forall name
      ensures name in Written(more) <==> name in Written(models) || (Known(tier) && name == TierToString(tier))
      ensures name in Written(more) && name != TierToString(tier) ==> Written(more)[name] == Written(models)[name]
    {
      if name in Written(more) {
        WrittenFrom(more, name);
        var t := StringToTier(name).value;
        if t != tier {
          WrittenHas(models, t);
        }
      }
      if name in Written(models) {
        WrittenFrom(models, name);
        WrittenHas(more, StringToTier(name).value);
      }
      if Known(tier) {
        WrittenHas(more, tier);
      }
    }
    if Known(tier) {
      WrittenHas(more, tier);
    }
  }

  const DISABLED := Request(false, false, Some(map[]), 0, 0)

  function ToDto(cfg: Option<Config>): Request {
    if cfg.None? || cfg.value.models.None? then DISABLED
    else Request(true, cfg.value.fourTier, Some(Written(cfg.value.models.value)),
                 if cfg.value.simpleMax <= 0 then DEFAULT_SIMPLE else cfg.value.simpleMax,
                 if cfg.value.mediumMax <= 0 then DEFAULT_MEDIUM else cfg.value.mediumMax)
  }

  /** The tiers not in `todo` have been written. */
  ghost predicate Progress(tiers: map<int, string>, todo: set<int>, models: map<string, string>) {
    todo <= tiers.Keys && models == Written(tiers - todo)
  }

  lemma ProgressStep(tiers: map<int, string>, todo: set<int>, models: map<string, string>, tier: int)
    requires Progress(tiers, todo, models) && tier in todo
    ensures TierToString(tier) == "" ==> Progress(tiers, todo - {tier}, models)
    ensures TierToString(tier) != "" ==> Progress(tiers, todo - {tier}, models[TierToString(tier) := tiers[tier]])
  {
    assert tiers - (todo - {tier}) == (tiers - todo)[tier := tiers[tier]];
    WrittenAdd(tiers - todo, tier, tiers[tier]);
    TierNames(tier, "");
  }

  ghost function Rest(order: seq<int>, i: nat): set<int>
    requires i <= |order|
  {
    set tier | tier in order[i..]
  }

  lemma RestStep(order: seq<int>, i: nat)
    requires Distinct(order) && i < |order|
    ensures order[i] in Rest(order, i) && Rest(order, i + 1) == Rest(order, i) - {order[i]}
  {
    assert order[i..] == [order[i]] + order[i + 1..];
  }

  /** The loop of the converter over the tiers, in whatever order. */
  method WriteModels(tiers: map<int, string>, order: seq<int>) returns (models: map<string, string>)
    requires IsOrder(order, tiers.Keys)
    ensures models == Written(tiers)
  {
    models := map[];
    assert Rest(order, 0) == tiers.Keys && tiers - tiers.Keys == map[];
    for i := 0 to |order|
      invariant Progress(tiers, Rest(order, i), models)
    {
      RestStep(order, i);
      ProgressStep(tiers, Rest(order, i), models, order[i]);
      var name := TierToString(order[i]);
      if name == "" {
        continue;
      }
      models := models[name := tiers[order[i]]];
    }
    assert Rest(order, |order|) == {} && tiers - {} == tiers;
  }

  /** toAutoRoutingConfigDTO: the iteration order of the tiers does not matter. */
  method ToAutoRoutingConfigDto(cfg: Option<Config>, order: seq<int>) returns (req: Request)
    requires cfg.Some? && cfg.value.models.Some? ==> IsOrder(order, cfg.value.models.value.Keys)
    ensures req == ToDto(cfg)
  {
    if cfg.None? || cfg.value.models.None? {
      return Request(false, false, Some(map[]), 0, 0);
    }
    var tiers := cfg.value.models.value;
    var models := WriteModels(tiers, order);
    var simpleMax := cfg.value.simpleMax;
    if simpleMax <= 0 {
      simpleMax := DEFAULT_SIMPLE;
    }
    var mediumMax := cfg.value.mediumMax;
    if mediumMax <= 0 {
      mediumMax := DEFAULT_MEDIUM;
    }
    req := Request(true, cfg.value.fourTier, Some(models), simpleMax, mediumMax);
  }

  // The normal form.

  ghost predicate NormalModels(models: map<int, string>) {
    forall tier | tier in models :: Known(tier) && models[tier] != "" && Trim(models[tier]) == models[tier]
  }

  /** The medium bound may pass the maximum by one, to stay above the simple bound. */
  ghost predicate Normal(cfg: Config) {
    && cfg.models.Some? && cfg.models.value != map[] && NormalModels(cfg.models.value)
    && 1 <= cfg.simpleMax <= MAX_TOKENS && cfg.simpleMax < cfg.mediumMax
    && (cfg.mediumMax <= MAX_TOKENS || (cfg.simpleMax == MAX_TOKENS && cfg.mediumMax == MAX_TOKENS + 1))
  }

  lemma {:induction false} ReadAllNormal(raw: map<string, string>, order: seq<string>)
    requires forall k | k in order :: k in raw
    ensures NormalModels(ReadAll(raw, order))
  {
    if order != [] {
      var n := |order| - 1;
      ReadAllNormal(raw, order[..n]);
      TierNames(0, Trim(order[n]));
      TrimIsTrimmed(raw[order[n]]);
      TrimFixesTrimmed(Trim(raw[order[n]]));
    }
  }

  /** Whatever the request and the order, the builder yields nil or a normal form. */
  lemma BuildIsNormal(req: Option<Request>, order: seq<string>)
    requires req.Some? && req.value.models.Some? ==> IsOrder(order, req.value.models.value.Keys)
    ensures Build(req, order).Some? ==> Normal(Build(req, order).value)
  {
    if Build(req, order).Some? {
      ReadAllNormal(req.value.models.value, order);
    }
  }

  /** Reading back a part of what was written gives that part of the models. */
  lemma {:induction false} ReadWritten(models: map<int, string>, order: seq<string>)
    requires NormalModels(models) && Distinct(order) && forall k | k in order :: k in Written(models)
    ensures ReadAll(Written(models), order) == map tier | tier in models && TierToString(tier) in order :: models[tier]
  {
    if order != [] {
      var n := |order| - 1;
      var before, name := order[..n], order[n];
      assert order == before + [name];
      ReadWritten(models, before);
      WrittenFrom(models, name);
      var tier := StringToTier(name).value;
      TierNames(tier, name);
      assert name != "";
      assert ReadAll(Written(models), order) == ReadAll(Written(models), before)[tier := models[tier]];
      forall t | t in models && TierToString(t) == name
        ensures t == tier
      {
        TierNames(t, name);
      }
    }
  }

  lemma ReadAllWritten(models: map<int, string>, order: seq<string>)
    requires NormalModels(models) && IsOrder(order, Written(models).Keys)
    ensures ReadAll(Written(models), order) == models
  {
    ReadWritten(models, order);
    forall tier | tier in models
      ensures TierToString(tier) in order
    {
      WrittenHas(models, tier);
    }
  }

  lemma BoundsSurvive(cfg: Config)
    requires Normal(cfg)
    ensures Clamp(cfg.simpleMax, DEFAULT_SIMPLE) == cfg.simpleMax
    ensures AtLeastAbove(Clamp(cfg.mediumMax, DEFAULT_MEDIUM), cfg.simpleMax) == cfg.mediumMax
  {
  }

  /** A normal configuration survives being written and read, in every order. */
  lemma NormalSurvives(cfg: Config, order: seq<string>)
    requires Normal(cfg) && IsOrder(order, Written(cfg.models.value).Keys)
    ensures Build(Some(ToDto(Some(cfg))), order) == Some(cfg)
  {
    var models := cfg.models.value;
    ReadAllWritten(models, order);
    BoundsSurvive(cfg);
  }

  /** Written and read back in every order, the configuration is unchanged. */
  ghost predicate Survives(cfg: Option<Config>) {
    forall order | IsOrder(order, ToDto(cfg).models.value.Keys) :: Build(Some(ToDto(cfg)), order) == cfg
  }

  /** The fixed points of the round trip are nil and the normal forms, nothing else. */
  lemma SurvivesExactlyWhenNormal(cfg: Option<Config>)
    ensures Survives(cfg) <==> cfg.None? || Normal(cfg.value)
  {
    if cfg.Some? && Normal(cfg.value) {
      forall order | IsOrder(order, ToDto(cfg).models.value.Keys)
        ensures Build(Some(ToDto(cfg)), order) == cfg
      {
        NormalSurvives(cfg.value, order);
      }
    } else if cfg.Some? && Survives(cfg) {
      var order := SomeOrder(ToDto(cfg).models.value.Keys);
      BuildIsNormal(Some(ToDto(cfg)), order);
    }
  }

  /** Everything the builder can produce is a fixed point. */
  lemma BuiltSurvives(req: Option<Request>, order: seq<string>)
    requires req.Some? && req.value.models.Some? ==> IsOrder(order, req.value.models.value.Keys)
    ensures Survives(Build(req, order))
  {
    BuildIsNormal(req, order);
    SurvivesExactlyWhenNormal(Build(req, order));
  }

  // What building and writing do, spelled out.

  /** The tiers' names on the wire. */
  predicate Names(name: string, tier: int) {
    || (name == "simple" && tier == 0) || (name == "medium" && tier == 1) || (name == "hard" && tier == 2)
    || (name in {"hardest", "complex"} && tier == 3)
  }

  /** The key, blanks around it aside, names the tier, and there is a model for it. */
  predicate GivesTier(raw: map<string, string>, key: string, tier: int) {
    key in raw && Names(Trim(key), tier) && Trim(raw[key]) != ""
  }

  /** A tier is set exactly when some key gives it. */
  lemma {:induction false} TierIsRead(raw: map<string, string>, order: seq<string>, tier: int)
    requires forall k | k in order :: k in raw
    ensures tier in ReadAll(raw, order) <==> exists k :: k in order && GivesTier(raw, k, tier)
  {
    if order != [] {
      var n := |order| - 1;
      assert order == order[..n] + [order[n]];
      TierIsRead(raw, order[..n], tier);
      ReadMeans(ReadAll(raw, order[..n]), raw, order[n], tier);
    }
  }

  /** Its model is the trimmed one of the last key that gives it, in iteration order. */
  lemma {:induction false} LastKeyWins(raw: map<string, string>, order: seq<string>, tier: int, i: nat)
    requires forall k | k in order :: k in raw
    requires i < |order| && GivesTier(raw, order[i], tier) && forall j | i < j < |order| :: !GivesTier(raw, order[j], tier)
    ensures tier in ReadAll(raw, order) && ReadAll(raw, order)[tier] == Trim(raw[order[i]])
  {
    var n := |order| - 1;
    ReadMeans(ReadAll(raw, order[..n]), raw, order[n], tier);
    if i < n {
      assert order[..n][i] == order[i] && forall j | i < j < n :: order[..n][j] == order[j];
      LastKeyWins(raw, order[..n], tier, i);
    }
  }

  lemma ReadMeans(models: map<int, string>, raw: map<string, string>, key: string, tier: int)
    requires key in raw
    ensures var after := Read(models, key, raw[key]);
      && (tier in after <==> tier in models || GivesTier(raw, key, tier))
      && (GivesTier(raw, key, tier) ==> after[tier] == Trim(raw[key]))
      && (!GivesTier(raw, key, tier) && tier in models ==> after[tier] == models[tier])
  {
    NamesAre(Trim(key), tier);
  }

  lemma NamesAre(name: string, tier: int)
    ensures StringToTier(name) == Some(tier) <==> Names(name, tier)
  {
  }

  /** A bound that is not positive becomes the default, one above a million a million. */
  function Bound(tokens: int, default: int): int {
    if tokens <= 0 then default else if tokens <= 1_000_000 then tokens else 1_000_000
  }

  lemma {:induction false} SomeTier(raw: map<string, string>, order: seq<string>)
    requires forall k | k in order :: k in raw
    ensures ReadAll(raw, order) != map[] ==> exists k: string, tier: int :: GivesTier(raw, k, tier)
  {
    if order != [] {
      var n := |order| - 1;
      var name := Trim(order[n]);
      SomeTier(raw, order[..n]);
      if StringToTier(name).Some? && Trim(raw[order[n]]) != "" {
        NamesAre(name, StringToTier(name).value);
        assert GivesTier(raw, order[n], StringToTier(name).value);
      }
    }
  }

  ghost predicate GivesSomeTier(raw: map<string, string>) {
    exists k: string, tier: int :: GivesTier(raw, k, tier)
  }

  lemma ReadsSomething(raw: map<string, string>, order: seq<string>)
    requires IsOrder(order, raw.Keys)
    ensures ReadAll(raw, order) != map[] <==> GivesSomeTier(raw)
  {
    SomeTier(raw, order);
    if k: string, tier: int :| GivesTier(raw, k, tier) {
      TierIsRead(raw, order, tier);
      assert k in order && GivesTier(raw, k, tier);
      NotEmpty(ReadAll(raw, order), tier);
    }
  }

  lemma NotEmpty(models: map<int, string>, tier: int)
    requires tier in models
    ensures models != map[]
  {
  }

  /** Building yields nil without a request, when disabled, without models, or when no key
      gives a tier, and in no other case. */
  lemma BuildsWhen(req: Request, order: seq<string>)
    requires req.models.Some? ==> IsOrder(order, req.models.value.Keys)
    ensures Build(None, order).None?
    ensures Build(Some(req), order).Some? <==> req.enabled && req.models.Some? && GivesSomeTier(req.models.value)
  {
    if req.models.Some? {
      ReadsSomething(req.models.value, order);
    }
  }

  /** What is built has the tiers read, the mode as asked, the bounds with defaults 200 and
      600, and the medium bound raised to one above the simple one if it is not above it. */
  lemma BuildMeans(req: Request, order: seq<string>)
    requires req.models.Some? ==> IsOrder(order, req.models.value.Keys)
    requires Build(Some(req), order).Some?
    ensures var cfg := Build(Some(req), order).value;
      var small, large := Bound(req.simpleMax, 200), Bound(req.mediumMax, 600);
      && cfg.models == Some(ReadAll(req.models.value, order)) && cfg.fourTier == req.fourTier
      && cfg.simpleMax == small && cfg.mediumMax == if large > small then large else small + 1
  {
  }

  /** A configuration is written under the names of its tiers, with the bounds, or their
      defaults if they are not positive; nil is written as disabled and empty. */
  lemma DtoMeans(cfg: Config, tier: int, name: string)
    requires cfg.models.Some? && Names(name, tier) && name != "complex"
    ensures var dto := ToDto(Some(cfg)); var written := dto.models.value;
      && dto.enabled && dto.fourTier == cfg.fourTier
      && (name in written <==> tier in cfg.models.value) && (name in written ==> written[name] == cfg.models.value[tier])
      && "complex" !in written
      && dto.simpleMax == (if cfg.simpleMax > 0 then cfg.simpleMax else 200)
      && dto.mediumMax == (if cfg.mediumMax > 0 then cfg.mediumMax else 600)
    ensures ToDto(None) == Request(false, false, Some(map[]), 0, 0)
  {
    var models := cfg.models.value;
    if name in Written(models) {
      WrittenFrom(models, name);
    }
    if tier in models {
      WrittenHas(models, tier);
    }
    if "complex" in Written(models) {
      WrittenFrom(models, "complex");
    }
  }
}
