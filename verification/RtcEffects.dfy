/**
 What each operation of the keeper does to the schedule, the switch and the clock,
 stated without the details of its requests.
 */
module RtcEffects {
  import opened Basics
  import opened RtcSchedule
  import opened RtcKeeper

  /** The switch and its id, untouched. */
  ghost predicate SameSwitch(k: KeeperState, n: KeeperState) {
    n.sched.leave == k.sched.leave && n.delayId == k.delayId
  }

  /** The membership part of the schedule, untouched. */
  ghost predicate SameMembership(k: KeeperState, n: KeeperState) {
    && n.sched.joinedAt == k.sched.joinedAt && n.sched.validUntil == k.sched.validUntil
    && n.sched.nextRefresh == k.sched.nextRefresh && n.chain == k.chain && n.createdTs == k.createdTs
  }

  ghost predicate Later(k: KeeperState, n: KeeperState) {
    && k.clock <= n.clock && n.sched.timing == k.sched.timing
    && |k.trace| <= |n.trace| && n.trace[..|k.trace|] == k.trace
  }

  /** No answer asks the keeper to wait longer than `most`. */
  ghost predicate Polite(o: Oracle, most: nat) {
    forall i: nat :: o(i).outcome.RetryAfter().Some? ==> o(i).outcome.RetryAfter().value <= most
  }

  /** The membership was published at `at` as the start of a chain. */
  ghost predicate Restarted(n: KeeperState, at: nat) {
    && n.chain.Some? && n.sched.joinedAt == at
    && n.sched.validUntil == at + n.sched.timing.expiry
    && n.sched.nextRefresh == at + n.sched.timing.refreshEvery
  }

  /** A publication failed at `n.clock` and is due again after the back-off. */
  ghost predicate Deferred(n: KeeperState, o: Oracle, most: nat) {
    && n.clock + n.sched.timing.retryAfterError <= n.sched.nextRefresh
    && (Polite(o, most) ==> n.sched.nextRefresh <= n.clock + Max(n.sched.timing.retryAfterError, most))
  }

  lemma AnchorEffect(k: KeeperState, o: Oracle)
    ensures var n := k.AnchorCreatedTs(o);
            Later(k, n) && n.sched == k.sched && n.delayId == k.delayId && n.chain == k.chain
  {
  }

  lemma ArmEffect(k: KeeperState, o: Oracle)
    ensures var n := k.ArmLeave(o); var a := o(|k.trace|);
            && Later(k, n) && SameMembership(k, n) && n.clock == k.clock + a.lag
            && |n.trace| == |k.trace| + 1
            && (a.Acked() ==> n.sched == k.sched.LeaveArmed(n.clock) && n.delayId == Some(a.delayId))
            && (!a.Acked() ==> !n.sched.leave.Armed? && n.delayId == k.delayId)
            && (n.sched.leave.Unarmed? ==>
                n.sched.leave.retryAt == n.clock + BackOff(k.sched.timing.retryAfterError, a.outcome.RetryAfter()))
  {
  }

  lemma RejoinEffect(k: KeeperState, o: Oracle)
    ensures var n := k.Rejoin(o); var a := o(|k.trace|); var sent := k.clock + a.lag;
            && Later(k, n) && SameSwitch(k, n) && sent <= n.clock
            && (a.Acked() ==> n.sched == k.sched.Rejoined(sent) && n.chain == Some(|k.trace|))
            && (!a.Acked() ==>
                && n.clock == sent && n.chain.None? && n.createdTs.None?
                && n.sched == k.sched.RefreshFailed(sent, a.outcome.RetryAfter()))
  {
  }

  /** A refresh ends in one of three ways: the current chain re-sent, a new chain, or
      a failure that leaves the published membership as it was. */
  lemma RefreshEffect(k: KeeperState, expires: nat, o: Oracle, most: nat)
    ensures var n := k.Refresh(expires, o);
            && Later(k, n) && SameSwitch(k, n)
            && (|| n.sched == k.sched.Refreshed(n.clock, expires)
                || (exists at :: k.clock <= at <= n.clock && Restarted(n, at))
                || (Deferred(n, o, most) && n.sched.validUntil == k.sched.validUntil))
  {
    if k.chain.None? {
      RejoinRenews(k, o, most);
    } else if k.clock >= k.sched.validUntil {
      RejoinRenews(k.(trace := k.trace + [LapseSeen(k.clock)]), o, most);
    } else {
      AnchorEffect(k, o);
      var a := if k.createdTs.None? then k.AnchorCreatedTs(o) else k;
      if a.createdTs.None? {
        RejoinRenews(a, o, most);
      }
    }
  }

  lemma RejoinRenews(k: KeeperState, o: Oracle, most: nat)
    ensures var n := k.Rejoin(o);
            && Later(k, n) && SameSwitch(k, n)
            && (|| (exists at :: k.clock <= at <= n.clock && Restarted(n, at))
                || (Deferred(n, o, most) && n.sched.validUntil == k.sched.validUntil && n.chain.None?))
  {
    RejoinEffect(k, o);
    if o(|k.trace|).Acked() {
      assert Restarted(k.Rejoin(o), k.clock + o(|k.trace|).lag);
    }
  }

  lemma InPlaceEffect(k: KeeperState, o: Oracle)
    ensures var n := k.RejoinInPlace(o);
            && Later(k, n) && SameSwitch(k, n)
            && (|| (n.sched == k.sched && n.chain == k.chain)
                || exists at :: k.clock <= at <= n.clock && Restarted(n, at))
  {
    AnchorEffect(k, o);
    var a := if k.createdTs.None? then k.AnchorCreatedTs(o) else k;
    if a.Next(o).Acked() {
      assert Restarted(k.RejoinInPlace(o), a.clock);
    }
  }

  /** How a restart of the delayed leave ends, unless the leave is gone. */
  lemma RestartEffect(k: KeeperState, o: Oracle)
    requires k.delayId.Some? && !o(|k.trace|).outcome.NotFound?
    ensures var n := k.RestartLeave(o); var a := o(|k.trace|);
            && Later(k, n) && SameMembership(k, n) && n.delayId == k.delayId
            && n.clock == k.clock + a.lag
            && n.sched == if a.Acked() then k.sched.LeaveArmed(n.clock)
                          else k.sched.LeaveRestartFailed(n.clock, a.outcome.RetryAfter())
  {
  }

  /** A delayed leave that is gone, request by request: the homeserver is asked whether the
      membership is live, a new leave is scheduled, and unless the answer was that it is
      live, a new chain is published; otherwise the membership is left as it was. */
  lemma RecoveryAsks(k: KeeperState, o: Oracle)
    requires k.delayId.Some? && o(|k.trace|).outcome.NotFound?
    ensures var n := k.RestartLeave(o); var at := |k.trace|; var live := o(at + 1);
            && |n.trace| >= at + 3 && Later(k, n)
            && n.trace[at] == Asked(Request.RestartLeave(k.delayId.value), k.clock, o(at))
            && n.trace[at + 1].Asked? && n.trace[at + 1].req == IsLive
            && n.trace[at + 2].Asked? && n.trace[at + 2].req == ScheduleLeave(k.sched.timing.leaveDelay)
            && (if live.outcome.Ok? && live.live then |n.trace| == at + 3 && SameMembership(k, n)
                else
                  && |n.trace| >= at + 4 && n.trace[at + 3].Asked?
                  && n.trace[at + 3].req == Publish(NewChain, None, k.sched.timing.expiry)
                  && (n.chain == if o(at + 3).outcome.Ok? then Some(at + 3) else None))
  {
    hide KeeperState.Rejoin;
    var asked := k.Ask(Request.RestartLeave(k.delayId.value), o).(delayId := None).Ask(IsLive, o);
    var armed := asked.(sched := k.sched.LeaveLost(asked.clock)).ArmLeave(o);
    RejoinAsks(armed, o);
  }

  lemma RejoinAsks(k: KeeperState, o: Oracle)
    ensures var n := k.Rejoin(o); var at := |k.trace|;
            && Later(k, n) && |n.trace| > at
            && n.trace[at] == Asked(Publish(NewChain, None, k.sched.timing.expiry), k.clock, o(at))
            && n.chain == if o(at).outcome.Ok? then Some(at) else None
  {
  }

  /** A delayed leave that is gone: the switch is armed anew at `armed`, or retried,
      and a membership that is not confirmed is published again after that. */
  lemma RecoverEffect(k: KeeperState, o: Oracle, most: nat)
    requires k.delayId.None?
    ensures var n := k.RecoverLeave(o); var asked := k.Ask(IsLive, o); var arm := o(|k.trace| + 1);
            var armed := asked.clock + arm.lag;
            && Later(k, n) && k.clock <= armed <= n.clock
            && (n.sched.leave.Armed? <==> n.delayId.Some?) && (n.delayId.Some? <==> arm.Acked())
            && (arm.Acked() ==> n.sched.leave == Armed(armed + k.sched.timing.leaveRestartEvery))
            && (n.sched.leave.Unarmed? ==> armed + k.sched.timing.retryAfterError <= n.sched.leave.retryAt)
            && (|| (n.clock == armed && SameMembership(k, n))
                || (exists at :: armed <= at <= n.clock && Restarted(n, at))
                || (Deferred(n, o, most) && n.sched.validUntil == k.sched.validUntil && n.chain.None?))
  {
    var asked := k.Ask(IsLive, o);
    var lost := asked.(sched := k.sched.LeaveLost(asked.clock));
    ArmEffect(lost, o);
    RejoinRenews(lost.ArmLeave(o), o, most);
  }
}
