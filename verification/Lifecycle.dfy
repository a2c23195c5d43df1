/** The TTL phases of a namespace and the delay until the next reconcile. */
module Lifecycle {
  import opened Api
  import opened Enforcement

  const DELETE_GRACE := 10 * SECOND
  const POLL_INTERVAL := 30 * SECOND
  const TTL_REQUEUE_CAP := 10 * MINUTE
  const DELETING_POLL := 10 * SECOND

  /** Before expiry (or no TTL at all), in the grace period, past it. */
  datatype Phase = Active | Grace | Deleting

  predicate HasTtl(cfg: Config) {
    cfg.spec.ttl != ""
  }

  /** `spec.ttl` is empty or parses. */
  predicate TtlReadable(cfg: Config) {
    HasTtl(cfg) ==> cfg.codec.parseDuration(cfg.spec.ttl).Some?
  }

  function Expiry(cfg: Config): int
    requires HasTtl(cfg) && TtlReadable(cfg)
  {
    cfg.createdAt + cfg.codec.parseDuration(cfg.spec.ttl).value
  }

  function DeleteAfter(cfg: Config): int
    requires HasTtl(cfg) && TtlReadable(cfg)
  {
    Expiry(cfg) + DELETE_GRACE
  }

  function PhaseAt(cfg: Config, now: int): Phase
    requires TtlReadable(cfg)
  {
    if !HasTtl(cfg) || now < Expiry(cfg) then Active
    else if now < DeleteAfter(cfg) then Grace
    else Deleting
  }

  /** The time at which the phase of `now` ends. */
  function Boundary(cfg: Config, now: int): int
    requires HasTtl(cfg) && TtlReadable(cfg) && !PhaseAt(cfg, now).Deleting?
  {
    if PhaseAt(cfg, now).Active? then Expiry(cfg) else DeleteAfter(cfg)
  }

  /** `requeueAfterTTL`. The wait is measured on a second clock reading, so it can come out non-positive. */
  function TtlDelay(cfg: Config, now: int, untilClock: int): int
    requires TtlReadable(cfg)
  {
    if !HasTtl(cfg) then 0
    else if PhaseAt(cfg, now).Deleting? then DELETING_POLL
    else
      var wait := Boundary(cfg, now) - untilClock;
      if wait < TTL_REQUEUE_CAP then wait else TTL_REQUEUE_CAP
  }

  /** The delay a successful reconcile ends with; zero and below mean that none is asked for. */
  function Delay(cfg: Config, now: int, untilClock: int): int
    requires TtlReadable(cfg)
  {
    var ttl := TtlDelay(cfg, now, untilClock);
    if Enforcing(cfg.spec) && PhaseAt(cfg, now).Active? && (ttl == 0 || POLL_INTERVAL < ttl) then POLL_INTERVAL
    else ttl
  }

  function Rank(p: Phase): nat {
    match p
    case Active => 0
    case Grace => 1
    case Deleting => 2
  }

  /** Phases only move forward, and the end of a phase is exactly its boundary. */
  lemma PhasesMoveForward(cfg: Config, now: int, later: int)
    requires TtlReadable(cfg) && now <= later
    ensures Rank(PhaseAt(cfg, now)) <= Rank(PhaseAt(cfg, later))
    ensures HasTtl(cfg) && !PhaseAt(cfg, now).Deleting? ==>
              (PhaseAt(cfg, later) == PhaseAt(cfg, now) <==> later < Boundary(cfg, now))
  {
  }

  /** Requeue never oversleeps: with a TTL or enforcement, and the second clock reading still before the boundary,
      the delay is positive, bounded, and does not reach past the boundary. */
  lemma RequeueNeverOversleeps(cfg: Config, now: int, untilClock: int)
    requires TtlReadable(cfg) && (HasTtl(cfg) || Enforcing(cfg.spec)) && now <= untilClock
    requires HasTtl(cfg) && !PhaseAt(cfg, now).Deleting? ==> untilClock < Boundary(cfg, now)
    ensures var d := Delay(cfg, now, untilClock);
            && 0 < d <= TTL_REQUEUE_CAP
            && (Enforcing(cfg.spec) && PhaseAt(cfg, now).Active? ==> d <= POLL_INTERVAL)
            && (HasTtl(cfg) && !PhaseAt(cfg, now).Deleting? ==> untilClock + d <= Boundary(cfg, now))
  {
  }

  /** No requeue is asked for in exactly these cases: nothing to wait for, or the boundary passed between the
      two clock readings of one reconcile (at the very instant, enforcement still polls). */
  lemma NoRequeueExactly(cfg: Config, now: int, untilClock: int)
    requires TtlReadable(cfg)
    ensures Delay(cfg, now, untilClock) <= 0 <==>
            if !HasTtl(cfg) then !Enforcing(cfg.spec)
            else
              && !PhaseAt(cfg, now).Deleting?
              && untilClock >= Boundary(cfg, now)
              && !(untilClock == Boundary(cfg, now) && PhaseAt(cfg, now).Active? && Enforcing(cfg.spec))
  {
  }
}
