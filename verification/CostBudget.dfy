/** The dollar budget: its validation, and the spend cache in front of the billing query. */
module CostBudget {
  import opened Api
  import opened Passes
  import opened Text
  import opened Wrappers

  const DEFAULT_LOOKBACK := 168 * HOUR
  const DEFAULT_QUERY_INTERVAL := HOUR
  const EPSILON := 0.000000001

  /** `costBudgetEnabled`. */
  predicate CostEnabled(spec: Spec) {
    spec.costBudget.Some? && spec.costBudget.value.enabled
  }

  /** A duration field that may be left blank. */
  predicate DurationReadable(codec: Codec, text: string) {
    var w := TrimSpace(text);
    w == "" || codec.parseDuration(w).Some?
  }

  /** `validateCostBudgetSpec`, true when it returns no error. */
  predicate CostBudgetValid(cfg: Config) {
    if !CostEnabled(cfg.spec) then true
    else
      var cb := cfg.spec.costBudget.value;
      && TrimSpace(cb.billingExportTable) != ""
      && TrimSpace(cb.clusterName) != ""
      && TrimSpace(cb.maxSpendUSD) != ""
      && (var max := cfg.codec.parseFloat(TrimSpace(cb.maxSpendUSD)); max.Some? && max.value > 0.0)
      && DurationReadable(cfg.codec, cb.lookbackWindow)
      && DurationReadable(cfg.codec, cb.queryInterval)
  }

  /** `costBudgetLookback` and `costBudgetQueryInterval`: the default stands in for a missing budget,
      a blank field and an unreadable one. */
  function DurationOr(codec: Codec, text: string, default: int): int {
    var w := TrimSpace(text);
    if w == "" then default
    else
      var d := codec.parseDuration(w);
      if d.None? then default else d.value
  }

  function Lookback(cfg: Config): int {
    if cfg.spec.costBudget.None? then DEFAULT_LOOKBACK
    else DurationOr(cfg.codec, cfg.spec.costBudget.value.lookbackWindow, DEFAULT_LOOKBACK)
  }

  function QueryInterval(cfg: Config): int {
    if cfg.spec.costBudget.None? then DEFAULT_QUERY_INTERVAL
    else DurationOr(cfg.codec, cfg.spec.costBudget.value.queryInterval, DEFAULT_QUERY_INTERVAL)
  }

  /** `costBudgetMaxUSD`; None is its error. */
  function MaxUSD(cfg: Config): Option<real> {
    if cfg.spec.costBudget.None? then None
    else cfg.codec.parseFloat(TrimSpace(cfg.spec.costBudget.value.maxSpendUSD))
  }

  /** `spendAtOrOverMax`. */
  predicate SpendAtOrOverMax(spend: real, max: real) {
    spend + EPSILON >= max
  }

  /** `withinCostBudgetForRestore`; None is its error. */
  function WithinBudgetForRestore(cfg: Config, spend: real): Option<bool> {
    if !CostEnabled(cfg.spec) then Some(true)
    else
      var max := MaxUSD(cfg);
      if max.None? then None else Some(spend + EPSILON < max.value)
  }

  /** The restore test is the exact complement of the risk test, for every spend and limit. */
  lemma SpendTestsComplementary(cfg: Config, spend: real)
    requires CostEnabled(cfg.spec) && MaxUSD(cfg).Some?
    ensures WithinBudgetForRestore(cfg, spend) == Some(!SpendAtOrOverMax(spend, MaxUSD(cfg).value))
  {
  }

  /** A validated budget has a positive limit, and its durations are the written ones: neither the limit error
      nor the fallbacks for unreadable durations can be reached. */
  lemma ValidationMakesReadersTotal(cfg: Config)
    requires CostBudgetValid(cfg) && CostEnabled(cfg.spec)
    ensures MaxUSD(cfg) == cfg.codec.parseFloat(TrimSpace(cfg.spec.costBudget.value.maxSpendUSD))
    ensures MaxUSD(cfg).Some? && MaxUSD(cfg).value > 0.0
    ensures forall spend :: WithinBudgetForRestore(cfg, spend).Some?
    ensures var w := TrimSpace(cfg.spec.costBudget.value.queryInterval);
            if w == "" then QueryInterval(cfg) == 3_600_000_000_000
            else cfg.codec.parseDuration(w) == Some(QueryInterval(cfg))
    ensures var w := TrimSpace(cfg.spec.costBudget.value.lookbackWindow);
            if w == "" then Lookback(cfg) == 604_800_000_000_000
            else cfg.codec.parseDuration(w) == Some(Lookback(cfg))
  {
  }

  /** Asked on their own, without validation, the readers of the durations also stand in for a missing budget and an
      unreadable text, with an hour and a week. */
  lemma DefaultsStandIn(cfg: Config, query: Option<int>, window: Option<int>)
    requires cfg.spec.costBudget.None? ==> query == None && window == None
    requires cfg.spec.costBudget.Some? ==>
               var cb := cfg.spec.costBudget.value;
               var q, l := TrimSpace(cb.queryInterval), TrimSpace(cb.lookbackWindow);
               && query == (if q == "" then None else cfg.codec.parseDuration(q))
               && window == (if l == "" then None else cfg.codec.parseDuration(l))
    ensures QueryInterval(cfg) == if query.Some? then query.value else 3_600_000_000_000
    ensures Lookback(cfg) == if window.Some? then window.value else 604_800_000_000_000
  {
  }

  // ------------------------------------------------------------------------------------------
  // The spend cache.

  /** What `resolveNamespaceSpendUSD` returns and leaves in the status; `live` tells whether it asked the
      billing export. */
  datatype SpendOutcome = SpendOutcome(
    ok: bool,
    spend: real,
    live: bool,
    lastCostQueryAt: Option<int>,
    lastObservedSpendUSD: string,
    fuse: Fuse)

  /** The cached text may stand in for a query at `now`. */
  predicate CacheAnswers(cfg: Config, lastCostQueryAt: Option<int>, lastObserved: string, now: int) {
    && lastCostQueryAt.Some?
    && now < lastCostQueryAt.value + QueryInterval(cfg)
    && TrimSpace(lastObserved) != ""
  }

  /** `resolveNamespaceSpendUSD`; `billed` is what the billing export would answer now. */
  function ResolveSpend(cfg: Config, lastCostQueryAt: Option<int>, lastObserved: string,
                        now: int, billed: real, fuse: Fuse): SpendOutcome {
    if !CostEnabled(cfg.spec) then
      SpendOutcome(true, 0.0, false, lastCostQueryAt, lastObserved, fuse)
    else if !cfg.hasQuerier || !CostBudgetValid(cfg) then
      SpendOutcome(false, 0.0, false, lastCostQueryAt, lastObserved, fuse)
    else if CacheAnswers(cfg, lastCostQueryAt, lastObserved, now) then
      var cached := cfg.codec.parseFloat(TrimSpace(lastObserved));
      SpendOutcome(cached.Some?, if cached.Some? then cached.value else 0.0, false, lastCostQueryAt, lastObserved, fuse)
    else if fuse.Blown() then
      SpendOutcome(false, 0.0, true, lastCostQueryAt, lastObserved, fuse)
    else
      SpendOutcome(true, billed, true, Some(now), cfg.codec.formatFloat(billed), fuse.Burn())
  }
}
