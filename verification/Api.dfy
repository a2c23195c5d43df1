/** The BudgetNamespace resource: the parts of its spec and status that decide what a reconcile does. */
module Api {
  import opened Text
  import opened Wrappers

  datatype EnforcementSpec = EnforcementSpec(
    enabled: bool,
    action: string,
    restoreOnRecovery: bool,
    enforcementCooldown: string)

  datatype CostBudgetSpec = CostBudgetSpec(
    enabled: bool,
    billingExportTable: string,
    clusterName: string,
    maxSpendUSD: string,
    lookbackWindow: string,
    queryInterval: string)

  datatype Spec = Spec(ttl: string, enforcement: EnforcementSpec, costBudget: Option<CostBudgetSpec>)

  datatype Condition = Condition(isTrue: bool, reason: string)

  /** The status subresource. Conditions are a list keyed by type, hence a map here. */
  datatype Status = Status(
    expiresAt: Option<int>,
    lastEnforcementAt: Option<int>,
    lastEnforcementOp: string,
    lastCostQueryAt: Option<int>,
    lastObservedSpendUSD: string,
    conditions: map<string, Condition>)

  /** Go's duration and float texts. `isFloat` tells which numbers a float64 can be. */
  datatype Codec = Codec(
    parseDuration: string -> Option<int>,
    parseFloat: string -> Option<real>,
    formatFloat: real -> string,
    isFloat: real -> bool)
  {
    /** The one assumption about float text: a printed float64 is a non-blank text without surrounding
        white space and reads back as the same number. */
    ghost predicate RoundTrips() {
      forall x :: isFloat(x) ==>
        && formatFloat(x) != ""
        && TrimSpace(formatFloat(x)) == formatFloat(x)
        && parseFloat(formatFloat(x)) == Some(x)
    }
  }

  /** What stays fixed over a run: the spec, the creation time, the text forms, and whether the operator
      was given a billing client. */
  datatype Config = Config(spec: Spec, createdAt: int, codec: Codec, hasQuerier: bool)

  /** The assumption about float text can be met: whole dollars, printed and read as integers, do. */
  lemma RoundTripsIsConsistent(durations: string -> Option<int>)
    ensures Codec(durations,
                  (s: string) => var n := ParseInt32(s); if n.Some? then Some(n.value as real) else None,
                  (x: real) => FormatInt(x.Floor),
                  (x: real) => x == x.Floor as real && 0 <= x.Floor <= 0x7FFF_FFFF).RoundTrips()
  {
    forall n: nat | n <= 0x7FFF_FFFF
      ensures FormatInt(n) != "" && TrimSpace(FormatInt(n)) == FormatInt(n) && ParseInt32(FormatInt(n)) == Some(n)
    {
      ParseOfFormat(n);
      TrimOfDigits(n);
    }
  }

  // ------------------------------------------------------------------------------------------
  // Time, in nanoseconds.

  const SECOND := 1_000_000_000
  const MINUTE := 60 * SECOND
  const HOUR := 60 * MINUTE

  /** A time as the API server gives it back: metav1.Time is written in RFC 3339 without a fraction,
      so it loses what is below the second. */
  function Stored(t: int): (r: int)
    ensures r <= t < r + SECOND
    ensures r % SECOND == 0
  {
    t - t % SECOND
  }

  function StoredOption(t: Option<int>): Option<int> {
    if t.Some? then Some(Stored(t.value)) else None
  }

  /** A status as a later Get reads it back. */
  function StoredStatus(s: Status): Status {
    s.(expiresAt := StoredOption(s.expiresAt),
       lastEnforcementAt := StoredOption(s.lastEnforcementAt),
       lastCostQueryAt := StoredOption(s.lastCostQueryAt))
  }

  /** Storing keeps the order of times, and storing again changes nothing. */
  lemma StoredMonotone(s: int, t: int)
    requires s <= t
    ensures Stored(s) <= Stored(t) && Stored(Stored(s)) == Stored(s)
  {
  }
}
