/** Whether and when to enforce: the switch, the anti-flap cooldown, and the quota test. */
module Enforcement {
  import opened Api
  import opened Wrappers

  const SCALE_TO_ZERO := "ScaleToZero"
  const RESTORE := "Restore"
  const DEFAULT_COOLDOWN := 2 * MINUTE

  /** `shouldScaleDeploymentsToZero`. */
  predicate Enforcing(spec: Spec) {
    && spec.enforcement.action != "None"
    && spec.enforcement.enabled
    && (spec.enforcement.action == "" || spec.enforcement.action == SCALE_TO_ZERO)
  }

  /** `enforcementCooldown`; None is its parse error. */
  function Cooldown(cfg: Config): Option<int> {
    if cfg.spec.enforcement.enforcementCooldown == "" then Some(DEFAULT_COOLDOWN)
    else cfg.codec.parseDuration(cfg.spec.enforcement.enforcementCooldown)
  }

  /** `canRestoreAfterScaleDown`. */
  predicate CanRestore(lastOp: string, lastAt: Option<int>, cooldown: int, now: int) {
    if lastOp != SCALE_TO_ZERO then true
    else if lastAt.None? then true
    else !(now < lastAt.value + cooldown)
  }

  /** Some resource that is both limited and reported has reached its limit. */
  predicate AtHardLimit(hard: map<string, int>, used: map<string, int>) {
    exists name :: name in hard && name in used && used[name] >= hard[name]
  }

  /** `quotaUsedAtOrOverHard`: stops at the first exhausted resource, in whatever order the map is walked. */
  method QuotaUsedAtOrOverHard(hard: map<string, int>, used: map<string, int>) returns (r: bool)
    ensures r <==> exists name :: name in hard && name in used && used[name] >= hard[name]
    ensures r <==> AtHardLimit(hard, used)
  {
    var names := hard.Keys;
    while names != {}
      invariant names <= hard.Keys
      invariant forall name :: name in hard.Keys - names && name in used ==> used[name] < hard[name]
      decreases |names|
    {
      var name :| name in names;
      names := names - {name};
      if name in used {
        if used[name] >= hard[name] {
          return true;
        }
      }
    }
    return false;
  }

  /** More usage and lower limits can only turn the quota test on. */
  lemma QuotaTestMonotone(hard: map<string, int>, used: map<string, int>,
                          hard': map<string, int>, used': map<string, int>)
    requires hard.Keys <= hard'.Keys && used.Keys <= used'.Keys
    requires forall name :: name in hard ==> hard'[name] <= hard[name]
    requires forall name :: name in used ==> used[name] <= used'[name]
    requires AtHardLimit(hard, used)
    ensures AtHardLimit(hard', used')
  {
    var name :| name in hard && name in used && used[name] >= hard[name];
    assert used'[name] >= hard'[name];
  }
}
