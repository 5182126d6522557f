/**
 The refresh and heartbeat schedule of a held RTC membership
 (crates/aqua-matrix-agent/src/rtc_member.rs). Instants and durations are whole
 milliseconds counted from the start of the hold. `Sched` is the mathematical
 value of a schedule, `Schedule` the object the keeper updates in place.
 */
module RtcSchedule {
  import opened Basics

  datatype Timing = Timing(
    expiry: nat,
    refreshEvery: nat,
    leaveDelay: nat,
    leaveRestartEvery: nat,
    retryAfterError: nat)

  const DEFAULT_TIMING := Timing(4 * 3600 * 1000, 3600 * 1000, 60 * 1000, 15 * 1000, 10 * 1000)

  datatype TimingError = ZeroDuration | RefreshNotShorter | RestartNotShorter

  ghost predicate ValidTiming(t: Timing) {
    && 0 < t.refreshEvery < t.expiry
    && 0 < t.leaveRestartEvery < t.leaveDelay
    && 0 < t.retryAfterError
  }

  function Validate(t: Timing): (r: Option<TimingError>)
    ensures r.None? <==> ValidTiming(t)
    ensures r == Some(ZeroDuration) <==>
            0 in {t.expiry, t.refreshEvery, t.leaveDelay, t.leaveRestartEvery, t.retryAfterError}
    ensures r == Some(RefreshNotShorter) ==> t.refreshEvery >= t.expiry
    ensures r == Some(RestartNotShorter) ==> t.leaveRestartEvery >= t.leaveDelay && t.refreshEvery < t.expiry
  {
    if t.expiry == 0 || t.refreshEvery == 0 || t.leaveDelay == 0
       || t.leaveRestartEvery == 0 || t.retryAfterError == 0 then
      Some(ZeroDuration)
    else if t.refreshEvery >= t.expiry then
      Some(RefreshNotShorter)
    else if t.leaveRestartEvery >= t.leaveDelay then
      Some(RestartNotShorter)
    else
      None
  }

  /** The switch: not in use, to be scheduled at an instant, or to be restarted at one. */
  datatype LeaveState =
    | Disabled
    | Unarmed(retryAt: nat)
    | Armed(nextRestart: nat)

  /** The actions a schedule can call for. */
  datatype Due =
    | ArmLeave
    | RestartLeave
    | Refresh(expires: nat)

  /** The wait after a failure: ours, or the server's when that is longer. */
  function BackOff(ours: nat, retryAfter: Option<nat>): nat {
    match retryAfter
    case None => ours
    case Some(r) => Max(ours, r)
  }

  datatype Sched = Sched(
    timing: Timing,
    joinedAt: nat,
    validUntil: nat,
    nextRefresh: nat,
    leave: LeaveState)
  {
    function NextWake(): nat {
      match leave
      case Disabled => nextRefresh
      case Unarmed(retryAt) => Min(retryAt, nextRefresh)
      case Armed(nextRestart) => Min(nextRestart, nextRefresh)
    }

    predicate LeaveDue(now: nat) {
      match leave
      case Disabled => false
      case Unarmed(retryAt) => retryAt <= now
      case Armed(nextRestart) => nextRestart <= now
    }

    /** When both deadlines have passed, the switch is served before the refresh. */
    function DueAt(now: nat): Option<Due> {
      if LeaveDue(now) then
        Some(if leave.Unarmed? then ArmLeave else RestartLeave)
      else if nextRefresh <= now then
        Some(Refresh(ExpiresAt(now)))
      else
        None
    }

    function ExpiresAt(now: nat): nat {
      (if now >= joinedAt then now - joinedAt else 0) + timing.expiry
    }

    function Refreshed(now: nat, expires: nat): Sched {
      this.(validUntil := joinedAt + expires, nextRefresh := now + timing.refreshEvery)
    }

    function RefreshFailed(now: nat, retryAfter: Option<nat>): Sched {
      this.(nextRefresh := now + BackOff(timing.retryAfterError, retryAfter))
    }

    function Rejoined(now: nat): Sched {
      this.(joinedAt := now, validUntil := now + timing.expiry, nextRefresh := now + timing.refreshEvery)
    }

    function LeaveArmed(now: nat): Sched {
      this.(leave := Armed(now + timing.leaveRestartEvery))
    }

    function LeaveArmFailed(now: nat, retryAfter: Option<nat>): Sched {
      this.(leave := Unarmed(now + BackOff(timing.retryAfterError, retryAfter)))
    }

    function LeaveRestartFailed(now: nat, retryAfter: Option<nat>): Sched {
      this.(leave := Armed(now + BackOff(Min(timing.retryAfterError, timing.leaveRestartEvery), retryAfter)))
    }

    function LeaveLost(now: nat): Sched {
      this.(leave := Unarmed(now))
    }

    function LeaveDisabled(): Sched {
      this.(leave := Disabled)
    }
  }

  function JoinedAt(timing: Timing, now: nat): Sched {
    Sched(timing, now, now + timing.expiry, now + timing.refreshEvery, Unarmed(now))
  }

  /** The sleep until `NextWake` is exact: something is due at `now` precisely
      from that instant on, and a due refresh is never hidden for good. */
  lemma DueIffAwake(s: Sched, now: nat)
    ensures s.DueAt(now).Some? <==> s.NextWake() <= now
    ensures s.DueAt(s.NextWake()).Some?
  {
  }

  /** A leave that was lost is to be armed before anything else. */
  lemma LostLeaveIsArmedFirst(s: Sched, now: nat)
    ensures s.LeaveLost(now).DueAt(now) == Some(ArmLeave) && s.LeaveLost(now).nextRefresh == s.nextRefresh
  {
  }

  /** The schedule as the keeper holds it, updated in place. */
  class Schedule {
    const timing: Timing
    var joinedAt: nat
    var validUntil: nat
    var nextRefresh: nat
    var leave: LeaveState

    function View(): Sched
      reads this
    {
      Sched(timing, joinedAt, validUntil, nextRefresh, leave)
    }

    constructor Joined(timing: Timing, now: nat)
      ensures View() == JoinedAt(timing, now)
    {
      this.timing := timing;
      joinedAt, validUntil := now, now + timing.expiry;
      nextRefresh := now + timing.refreshEvery;
      leave := Unarmed(now);
    }

    function NextWake(): (w: nat)
      reads this
      ensures View().DueAt(w).Some?
      ensures forall now: nat :: now < w ==> View().DueAt(now).None?
    {
      View().NextWake()
    }

    method Refreshed(now: nat, expires: nat)
      modifies this
      ensures View() == old(View()).Refreshed(now, expires)
    {
      validUntil := joinedAt + expires;
      nextRefresh := now + timing.refreshEvery;
    }

    method RefreshFailed(now: nat, retryAfter: Option<nat>)
      modifies this
      ensures View() == old(View()).RefreshFailed(now, retryAfter)
    {
      nextRefresh := now + BackOff(timing.retryAfterError, retryAfter);
    }

    method Rejoined(now: nat)
      modifies this
      ensures View() == old(View()).Rejoined(now)
    {
      joinedAt := now;
      validUntil := now + timing.expiry;
      nextRefresh := now + timing.refreshEvery;
    }

    method LeaveArmed(now: nat)
      modifies this
      ensures View() == old(View()).LeaveArmed(now)
    {
      leave := Armed(now + timing.leaveRestartEvery);
    }

    method LeaveArmFailed(now: nat, retryAfter: Option<nat>)
      modifies this
      ensures View() == old(View()).LeaveArmFailed(now, retryAfter)
    {
      leave := Unarmed(now + BackOff(timing.retryAfterError, retryAfter));
    }

    method LeaveRestartFailed(now: nat, retryAfter: Option<nat>)
      modifies this
      ensures View() == old(View()).LeaveRestartFailed(now, retryAfter)
    {
      var wait := Min(timing.retryAfterError, timing.leaveRestartEvery);
      leave := Armed(now + BackOff(wait, retryAfter));
    }

    method LeaveLost(now: nat)
      modifies this
      ensures View() == old(View()).LeaveLost(now)
    {
      leave := Unarmed(now);
    }

    method LeaveDisabled()
      modifies this
      ensures View() == old(View()).LeaveDisabled()
    {
      leave := Disabled;
    }
  }
}
