/**
 Timing bounds of a holding keeper. A run is timely when no step lasts longer than
 `step` milliseconds and the keeper never sleeps past its own `NextWake`. Bounded
 failure streaks then keep the dead-man switch from firing and the published
 membership from lapsing.
 */
module RtcTiming {
  import opened Basics
  import opened RtcSchedule
  import opened RtcKeeper
  import opened RtcEffects
  import opened RtcChainSafety

  // -------------------------------------------------------------------------
  // What a trace says about renewals, failures and lapses
  // -------------------------------------------------------------------------

  /** An acknowledged schedule or restart: the delayed leave's timer starts again. */
  predicate Renews(e: Event) {
    e.Asked? && (e.req.ScheduleLeave? || e.req.RestartLeave?) && e.answer.Acked()
  }

  predicate RestartFails(e: Event) {
    e.Asked? && e.req.RestartLeave? && !e.answer.Acked() && !e.answer.outcome.NotFound?
  }

  predicate RefreshFails(e: Event) {
    e.Asked? && e.req.Publish? && !e.req.kind.InPlace? && !e.answer.Acked()
  }

  /** `renewal`: when the latest renewal of the delayed leave was sent.
      `restartFails`, `refreshFails`: failures in a row. `lapses`: lapses seen.
      `late`: restarts answered, in whatever way, when the leave was already due. */
  datatype Tally = Tally(renewal: Option<nat>, restartFails: nat, refreshFails: nat, lapses: nat, late: nat)

  predicate AnsweredLate(y: Tally, e: Event, delay: nat) {
    && e.Asked? && e.req.RestartLeave?
    && (y.renewal.None? || y.renewal.value + delay <= e.sentAt + e.answer.lag)
  }

  function Count(y: Tally, e: Event, delay: nat): Tally {
    Tally(
      if Renews(e) then Some(e.sentAt) else y.renewal,
      if Renews(e) then 0 else if RestartFails(e) then y.restartFails + 1 else y.restartFails,
      if e.Published() then 0 else if RefreshFails(e) then y.refreshFails + 1 else y.refreshFails,
      if e.LapseSeen? then y.lapses + 1 else y.lapses,
      if AnsweredLate(y, e, delay) then y.late + 1 else y.late)
  }

  function TallyOf(t: seq<Event>, delay: nat): Tally {
    if t == [] then Tally(None, 0, 0, 0, 0)
    else Count(TallyOf(t[..|t| - 1], delay), t[|t| - 1], delay)
  }

  function Of(k: KeeperState): Tally { TallyOf(k.trace, k.sched.timing.leaveDelay) }

  lemma TallyGrows(t: seq<Event>, e: Event, delay: nat)
    ensures TallyOf(t + [e], delay) == Count(TallyOf(t, delay), e, delay)
  {
    assert (t + [e])[..|t|] == t;
  }

  /** A restart in the trace was answered ahead of the deadline that an earlier renewal gave. */
  ghost predicate AnsweredAhead(t: seq<Event>, i: nat, delay: nat)
    requires i < |t|
  {
    t[i].Asked? && t[i].req.RestartLeave? ==>
      exists j :: 0 <= j < i && Renews(t[j]) && t[i].sentAt + t[i].answer.lag < t[j].sentAt + delay
  }

  lemma {:induction false} RenewalIsInTheTrace(t: seq<Event>, delay: nat)
    ensures var sent := TallyOf(t, delay).renewal;
            sent.Some? ==> exists j :: 0 <= j < |t| && Renews(t[j]) && t[j].sentAt == sent.value
  {
    if t != [] {
      var n := |t| - 1;
      RenewalIsInTheTrace(t[..n], delay);
      if !Renews(t[n]) && TallyOf(t, delay).renewal.Some? {
        var j :| 0 <= j < n && Renews(t[..n][j]) && t[..n][j].sentAt == TallyOf(t, delay).renewal.value;
        assert Renews(t[j]);
      } else {
        assert Renews(t[n]) ==> TallyOf(t, delay).renewal == Some(t[n].sentAt);
      }
    }
  }

  /** What the counts of lapses and late restarts say of the trace itself. */
  lemma {:induction false} CountsAre(t: seq<Event>, delay: nat)
    ensures TallyOf(t, delay).lapses == 0 <==> forall e :: e in t ==> !e.LapseSeen?
    ensures TallyOf(t, delay).late == 0 ==> forall i :: 0 <= i < |t| ==> AnsweredAhead(t, i, delay)
  {
    if t != [] {
      var n := |t| - 1;
      CountsAre(t[..n], delay);
      assert t == t[..n] + [t[n]];
      if TallyOf(t, delay).late == 0 {
        RenewalIsInTheTrace(t[..n], delay);
        forall i | 0 <= i < |t|
          ensures AnsweredAhead(t, i, delay)
        {
          if i < n {
            assert AnsweredAhead(t[..n], i, delay);
          }
        }
      }
    }
  }

  lemma AskCounted(k: KeeperState, req: Request, o: Oracle)
    ensures Of(k.Ask(req, o)) == Count(Of(k), Asked(req, k.clock, k.Next(o)), k.sched.timing.leaveDelay)
  {
    TallyGrows(k.trace, Asked(req, k.clock, k.Next(o)), k.sched.timing.leaveDelay);
  }

  // -------------------------------------------------------------------------
  // The operations, with their failures counted
  // -------------------------------------------------------------------------

  lemma AnchorCounted(k: KeeperState, o: Oracle)
    ensures Of(k.AnchorCreatedTs(o)) == Of(k)
  {
    if k.chain.Some? {
      AskCounted(k, OriginTs(k.chain.value), o);
    }
  }

  lemma ArmCounted(k: KeeperState, o: Oracle)
    ensures Of(k.ArmLeave(o)) == if o(|k.trace|).Acked() then Of(k).(renewal := Some(k.clock), restartFails := 0)
                                 else Of(k)
  {
    AskCounted(k, ScheduleLeave(k.sched.timing.leaveDelay), o);
  }

  lemma RejoinCounted(k: KeeperState, o: Oracle)
    ensures Of(k.Rejoin(o)) ==
            Of(k).(refreshFails := if o(|k.trace|).Acked() then 0 else Of(k).refreshFails + 1)
  {
    var forgot := k.(chain := None, createdTs := None);
    AskCounted(forgot, Publish(NewChain, None, k.sched.timing.expiry), o);
    if o(|k.trace|).Acked() {
      var asked := forgot.Ask(Publish(NewChain, None, k.sched.timing.expiry), o);
      AnchorCounted(asked.(chain := Some(|k.trace|), sched := k.sched.Rejoined(asked.clock)), o);
    }
  }

  /** A publication attempt: acknowledged as the start of a chain, or deferred. */
  ghost predicate Attempted(k: KeeperState, n: KeeperState, o: Oracle, most: nat, fails: nat) {
    || (fails == 0 && exists at :: k.clock <= at <= n.clock && Restarted(n, at))
    || (fails == Of(k).refreshFails + 1 && Deferred(n, o, most) && n.chain.None?)
  }

  lemma RejoinAttempts(k: KeeperState, o: Oracle, most: nat)
    ensures var n := k.Rejoin(o); var y := Of(n);
            && Later(k, n) && SameSwitch(k, n)
            && y == Of(k).(refreshFails := y.refreshFails) && Attempted(k, n, o, most, y.refreshFails)
  {
    RejoinCounted(k, o);
    RejoinRenews(k, o, most);
    RejoinEffect(k, o);
  }

  /** The current chain re-sent with its old start, acknowledged or deferred. */
  ghost predicate Resent(k: KeeperState, n: KeeperState, o: Oracle, most: nat, expires: nat, fails: nat) {
    && n.chain == k.chain && k.chain.Some?
    && n.sched.joinedAt == k.sched.joinedAt
    && (|| (fails == 0 && n.sched.validUntil == k.sched.joinedAt + expires
            && n.sched.nextRefresh == n.clock + n.sched.timing.refreshEvery)
        || (fails == Of(k).refreshFails + 1 && Deferred(n, o, most)
            && n.sched.validUntil == k.sched.validUntil))
  }

  lemma ResendCounted(k: KeeperState, expires: nat, o: Oracle, most: nat)
    requires k.chain.Some? && k.createdTs.Some?
    ensures var n := k.Resend(expires, o); var y := Of(n);
            && Later(k, n) && SameSwitch(k, n)
            && y == Of(k).(refreshFails := y.refreshFails) && Resent(k, n, o, most, expires, y.refreshFails)
  {
    AskCounted(k, Publish(Continue(k.chain.value), k.createdTs, expires), o);
  }

  lemma RefreshCounted(k: KeeperState, expires: nat, o: Oracle, most: nat)
    requires k.chain.None? || k.clock < k.sched.validUntil
    ensures var n := k.Refresh(expires, o); var y := Of(n);
            && Later(k, n) && SameSwitch(k, n)
            && y == Of(k).(refreshFails := y.refreshFails)
            && (Attempted(k, n, o, most, y.refreshFails) || Resent(k, n, o, most, expires, y.refreshFails))
  {
    if k.chain.None? {
      RejoinAttempts(k, o, most);
    } else {
      AnchorCounted(k, o);
      AnchorEffect(k, o);
      var a := if k.createdTs.None? then k.AnchorCreatedTs(o) else k;
      if a.createdTs.None? {
        RejoinAttempts(a, o, most);
      } else {
        ResendCounted(a, expires, o, most);
      }
    }
  }

  /** A refresh that may have found a lapse: the switch is untouched all the same. */
  lemma RefreshKeepsSwitch(k: KeeperState, expires: nat, o: Oracle)
    ensures var n := k.Refresh(expires, o); var y := Of(n);
            && Later(k, n) && SameSwitch(k, n)
            && y == Of(k).(refreshFails := y.refreshFails, lapses := y.lapses)
  {
    if k.chain.Some? && k.clock >= k.sched.validUntil {
      var seen := k.(trace := k.trace + [LapseSeen(k.clock)]);
      TallyGrows(k.trace, LapseSeen(k.clock), k.sched.timing.leaveDelay);
      RejoinAttempts(seen, o, 0);
    } else {
      RefreshCounted(k, expires, o, 0);
    }
  }

  lemma InPlaceCounted(k: KeeperState, o: Oracle)
    ensures var n := k.RejoinInPlace(o); var y := Of(n);
            && Later(k, n) && SameSwitch(k, n)
            && y == Of(k).(refreshFails := y.refreshFails)
            && (|| (y == Of(k) && n.sched == k.sched && n.chain == k.chain)
                || (y.refreshFails == 0 && exists at :: k.clock <= at <= n.clock && Restarted(n, at)))
  {
    AnchorCounted(k, o);
    AnchorEffect(k, o);
    var a := if k.createdTs.None? then k.AnchorCreatedTs(o) else k;
    AskCounted(a, Publish(InPlace, Some(a.NextCreatedTs(o)), k.sched.timing.expiry), o);
    if a.Next(o).Acked() {
      assert Restarted(k.RejoinInPlace(o), a.clock);
    }
  }

  /** The part of a recovery that deals with the switch. */
  function Rearmed(k: KeeperState, o: Oracle): KeeperState
    requires k.delayId.Some?
  {
    var lost := k.Ask(Request.RestartLeave(k.delayId.value), o).(delayId := None).Ask(IsLive, o);
    lost.(sched := lost.sched.LeaveLost(lost.clock)).ArmLeave(o)
  }

  /** The lateness of the restart that finds the leave gone. */
  function LateAfter(k: KeeperState, o: Oracle): nat
    requires k.delayId.Some?
  {
    var e := Asked(Request.RestartLeave(k.delayId.value), k.clock, o(|k.trace|));
    Of(k).late + if AnsweredLate(Of(k), e, k.sched.timing.leaveDelay) then 1 else 0
  }

  lemma RecoveryCounted(k: KeeperState, o: Oracle)
    requires k.delayId.Some? && o(|k.trace|).outcome.NotFound?
    ensures var p := Rearmed(k, o); var armed := o(|k.trace| + 2);
            && k.RestartLeave(o) == (if o(|k.trace| + 1).ConfirmsLive() then p else p.Rejoin(o))
            && Later(k, p) && SameMembership(k, p)
            && armed.lag <= p.clock - k.clock
            && (p.sched.leave.Armed? <==> p.delayId.Some?) && (p.delayId.Some? <==> armed.Acked())
            && (armed.Acked() ==>
                && p.sched.leave == Armed(p.clock + k.sched.timing.leaveRestartEvery)
                && Of(p) == Of(k).(renewal := Some(p.clock - armed.lag), restartFails := 0, late := LateAfter(k, o)))
            && (!armed.Acked() ==> Of(p) == Of(k).(late := LateAfter(k, o)))
            && o(|k.trace|).lag <= p.clock - k.clock
            && (p.sched.leave.Unarmed? ==> p.clock + k.sched.timing.retryAfterError <= p.sched.leave.retryAt)
  {
    AskCounted(k, Request.RestartLeave(k.delayId.value), o);
    var gone := k.Ask(Request.RestartLeave(k.delayId.value), o).(delayId := None);
    AskCounted(gone, IsLive, o);
    var lost := gone.Ask(IsLive, o);
    ArmCounted(lost.(sched := lost.sched.LeaveLost(lost.clock)), o);
    ArmEffect(lost.(sched := lost.sched.LeaveLost(lost.clock)), o);
  }

  lemma RestartCounted(k: KeeperState, o: Oracle)
    requires k.delayId.Some? && !o(|k.trace|).outcome.NotFound?
    ensures Of(k.RestartLeave(o)) ==
            Count(Of(k), Asked(Request.RestartLeave(k.delayId.value), k.clock, o(|k.trace|)), k.sched.timing.leaveDelay)
  {
    AskCounted(k, Request.RestartLeave(k.delayId.value), o);
  }

  // -------------------------------------------------------------------------
  // Timely runs
  // -------------------------------------------------------------------------

  /** How long a step may last, how long an answer may ask the keeper to wait, and
      how many failures in a row may occur. */
  datatype Bounds = Bounds(step: nat, wait: nat, failures: nat)

  /** An action that starts when the loop starts it and ends within `step` ms. */
  ghost predicate Timely(k: KeeperState, a: Action, o: Oracle, step: nat) {
    match a
    case Wait(ms) => k.clock + ms <= k.sched.NextWake()
    case Act => k.sched.DueAt(k.clock).Some? && Apply(k, a, o).clock <= k.clock + step
    case Rejoin => k.clock <= k.sched.NextWake() && Apply(k, a, o).clock <= k.clock + step
  }

  ghost predicate TimelyRun(k: KeeperState, actions: seq<Action>, o: Oracle, step: nat) {
    forall i :: 0 <= i < |actions| ==> Timely(Run(k, actions[..i], o), actions[i], o, step)
  }

  /** The hold's own requests after the join also took at most one step. */
  ghost predicate TimelyStart(timing: Timing, o: Oracle, step: nat) {
    && Start(timing, o).Some?
    && Start(timing, o).value.clock <= Start(timing, o).value.sched.joinedAt + step
  }

  /** Each streak of failed restarts (refreshes) in the trace has at most `most` of them. */
  ghost predicate RestartsFailAtMost(t: seq<Event>, delay: nat, most: nat) {
    forall i :: 0 <= i <= |t| ==> TallyOf(t[..i], delay).restartFails <= most
  }

  ghost predicate RefreshesFailAtMost(t: seq<Event>, delay: nat, most: nat) {
    forall i :: 0 <= i <= |t| ==> TallyOf(t[..i], delay).refreshFails <= most
  }

  lemma FailsWithin(t: seq<Event>, u: seq<Event>, delay: nat, most: nat)
    requires |t| <= |u| && u[..|t|] == t
    ensures RestartsFailAtMost(u, delay, most) ==>
              RestartsFailAtMost(t, delay, most) && TallyOf(t, delay).restartFails <= most
    ensures RefreshesFailAtMost(u, delay, most) ==>
              RefreshesFailAtMost(t, delay, most) && TallyOf(t, delay).refreshFails <= most
  {
    assert forall i :: 0 <= i <= |t| ==> t[..i] == u[..i];
    assert t[..|t|] == t;
  }

  // -------------------------------------------------------------------------
  // The dead-man switch never fires
  // -------------------------------------------------------------------------

  /** The longest pause after a failed restart. */
  function RestartPause(t: Timing, b: Bounds): nat {
    Max(Min(t.retryAfterError, t.leaveRestartEvery), b.wait)
  }

  ghost predicate SwitchSlack(t: Timing, b: Bounds) {
    t.leaveRestartEvery + 3 * b.step + b.failures * (RestartPause(t, b) + 2 * b.step) < t.leaveDelay
  }

  /** The room left for the failures still allowed, each costing `each` ms. */
  function Room(left: nat, each: nat): nat { left * each }

  lemma RoomShrinks(left: nat, each: nat)
    requires 0 < left
    ensures Room(left, each) == Room(left - 1, each) + each
  {
  }

  ghost predicate SwitchInv(t: Timing, leave: LeaveState, held: bool, clock: nat, y: Tally, b: Bounds) {
    && (leave.Armed? <==> held)
    && y.late == 0
    && (leave.Armed? ==>
        && y.renewal.Some? && clock <= leave.nextRestart + b.step
        && (y.restartFails <= b.failures ==>
              leave.nextRestart + 2 * b.step
                + Room(b.failures - y.restartFails, RestartPause(t, b) + 2 * b.step)
                < y.renewal.value + t.leaveDelay))
  }

  ghost predicate SwitchOk(k: KeeperState, b: Bounds) {
    SwitchInv(k.sched.timing, k.sched.leave, k.delayId.Some?, k.clock, Of(k), b)
  }

  lemma SwitchKeptByRestart(k: KeeperState, o: Oracle, b: Bounds)
    requires SwitchSlack(k.sched.timing, b) && Polite(o, b.wait)
    requires SwitchOk(k, b) && k.delayId.Some? && Of(k).restartFails <= b.failures
    requires !o(|k.trace|).outcome.NotFound?
    requires k.RestartLeave(o).clock <= k.clock + b.step
    requires Of(k.RestartLeave(o)).restartFails <= b.failures
    ensures SwitchOk(k.RestartLeave(o), b)
  {
    RestartEffect(k, o);
    RestartCounted(k, o);
    if !o(|k.trace|).Acked() {
      RoomShrinks(b.failures - Of(k).restartFails, RestartPause(k.sched.timing, b) + 2 * b.step);
    }
  }

  /** The leave that the recovery scheduled anew, if it did, within one step. */
  lemma RearmedIsKept(k: KeeperState, o: Oracle, b: Bounds)
    requires SwitchSlack(k.sched.timing, b)
    requires SwitchOk(k, b) && k.delayId.Some? && Of(k).restartFails <= b.failures
    requires o(|k.trace|).outcome.NotFound?
    requires Rearmed(k, o).clock <= k.clock + b.step
    ensures SwitchOk(Rearmed(k, o), b)
  {
    hide KeeperState.RestartLeave, KeeperState.Rejoin, Rearmed;
    RecoveryCounted(k, o);
  }

  lemma RejoinKeepsSwitch(k: KeeperState, o: Oracle, b: Bounds, latest: nat)
    requires SwitchOk(k, b) && k.Rejoin(o).clock <= latest
    requires k.sched.leave.Armed? ==> latest <= k.sched.leave.nextRestart + b.step
    ensures SwitchOk(k.Rejoin(o), b)
  {
    hide KeeperState.Rejoin, Room;
    RejoinAttempts(k, o, b.wait);
  }

  lemma SwitchKeptByRecovery(k: KeeperState, o: Oracle, b: Bounds)
    requires SwitchSlack(k.sched.timing, b)
    requires SwitchOk(k, b) && k.delayId.Some? && Of(k).restartFails <= b.failures
    requires o(|k.trace|).outcome.NotFound?
    requires k.RestartLeave(o).clock <= k.clock + b.step
    ensures SwitchOk(k.RestartLeave(o), b)
  {
    hide KeeperState.RestartLeave, KeeperState.Rejoin, Rearmed, SwitchOk, SwitchSlack;
    RecoveryCounted(k, o);
    RejoinAttempts(Rearmed(k, o), o, b.wait);
    RearmedIsKept(k, o, b);
    if !o(|k.trace| + 1).ConfirmsLive() {
      RejoinKeepsSwitch(Rearmed(k, o), o, b, k.clock + b.step);
    }
  }

  lemma SwitchKeptByArm(k: KeeperState, o: Oracle, b: Bounds)
    requires SwitchSlack(k.sched.timing, b) && SwitchOk(k, b)
    requires k.ArmLeave(o).clock <= k.clock + b.step
    requires !k.sched.leave.Armed?
    ensures SwitchOk(k.ArmLeave(o), b)
  {
    ArmEffect(k, o);
    ArmCounted(k, o);
  }

  lemma SwitchKeptByRefresh(k: KeeperState, expires: nat, o: Oracle, b: Bounds)
    requires SwitchOk(k, b) && !k.sched.LeaveDue(k.clock)
    requires k.Refresh(expires, o).clock <= k.clock + b.step
    ensures SwitchOk(k.Refresh(expires, o), b)
  {
    RefreshKeepsSwitch(k, expires, o);
  }

  lemma SwitchKept(k: KeeperState, a: Action, o: Oracle, b: Bounds)
    requires SwitchSlack(k.sched.timing, b) && Polite(o, b.wait)
    requires SwitchOk(k, b) && Of(k).restartFails <= b.failures && Timely(k, a, o, b.step)
    requires Of(Apply(k, a, o)).restartFails <= b.failures
    ensures SwitchOk(Apply(k, a, o), b)
  {
    hide KeeperState.Refresh, KeeperState.RestartLeave, KeeperState.ArmLeave, KeeperState.RejoinInPlace;
    match a {
      case Wait(_) =>
      case Rejoin => InPlaceCounted(k, o);
      case Act =>
        match k.sched.DueAt(k.clock) {
          case Some(ArmLeave) => SwitchKeptByArm(k, o, b);
          case Some(RestartLeave) =>
            if o(|k.trace|).outcome.NotFound? {
              SwitchKeptByRecovery(k, o, b);
            } else {
              SwitchKeptByRestart(k, o, b);
            }
          case Some(Refresh(expires)) => SwitchKeptByRefresh(k, expires, o, b);
        }
    }
  }

  lemma JoinCounted(timing: Timing, o: Oracle) returns (anchored: KeeperState)
    requires Start(timing, o).Some?
    ensures Start(timing, o).value == anchored.ArmLeave(o)
    ensures anchored.sched == JoinedAt(timing, anchored.sched.joinedAt) && anchored.sched.joinedAt <= anchored.clock
    ensures Of(anchored) == Tally(None, 0, 0, 0, 0) && anchored.delayId.None? && anchored.chain.Some?
  {
    var e := Asked(Publish(NewChain, None, timing.expiry), 0, o(0));
    var joined := KeeperState(JoinedAt(timing, o(0).lag), None, Some(0), None, o(0).lag, [e]);
    assert [] + [e] == [e];
    TallyGrows([], e, timing.leaveDelay);
    AnchorCounted(joined, o);
    AnchorEffect(joined, o);
    anchored := joined.AnchorCreatedTs(o);
  }

  lemma SwitchStarts(timing: Timing, o: Oracle, b: Bounds)
    requires TimelyStart(timing, o, b.step) && SwitchSlack(timing, b)
    ensures SwitchOk(Start(timing, o).value, b)
  {
    hide Start;
    var anchored := JoinCounted(timing, o);
    ArmEffect(anchored, o);
    SwitchKeptByArm(anchored, o, b);
  }

  lemma TimelyPrefix(k: KeeperState, actions: seq<Action>, o: Oracle, step: nat)
    requires actions != [] && TimelyRun(k, actions, o, step)
    ensures var before := actions[..|actions| - 1];
            TimelyRun(k, before, o, step) && Timely(Run(k, before, o), actions[|before|], o, step)
  {
    var before := actions[..|actions| - 1];
    forall i | 0 <= i < |before|
      ensures Timely(Run(k, before[..i], o), before[i], o, step)
    {
      assert before[..i] == actions[..i];
    }
  }

  lemma {:induction false} SwitchRun(k: KeeperState, actions: seq<Action>, o: Oracle, b: Bounds)
    requires SwitchSlack(k.sched.timing, b) && Polite(o, b.wait)
    requires SwitchOk(k, b) && TimelyRun(k, actions, o, b.step)
    requires RestartsFailAtMost(Run(k, actions, o).trace, k.sched.timing.leaveDelay, b.failures)
    ensures SwitchOk(Run(k, actions, o), b) && Run(k, actions, o).sched.timing == k.sched.timing
  {
    hide Apply;
    if actions != [] {
      var before := actions[..|actions| - 1];
      var k1 := Run(k, before, o);
      var k2 := Apply(k1, actions[|before|], o);
      TimelyPrefix(k, actions, o, b.step);
      RunKeepsSwitch(k, before, o);
      ApplyKeepsSwitch(k1, actions[|before|], o);
      FailsWithin(k1.trace, k2.trace, k.sched.timing.leaveDelay, b.failures);
      FailsWithin(k2.trace, k2.trace, k.sched.timing.leaveDelay, b.failures);
      SwitchRun(k, before, o, b);
      SwitchKept(k1, actions[|before|], o, b);
    }
  }

  /** The delayed leave whose id the keeper holds never comes due: every restart, whatever
      its answer (so also one that is told the leave is gone), was answered before the
      deadline it was to push back, and the current deadline is still ahead. */
  lemma SwitchNeverFires(timing: Timing, o: Oracle, actions: seq<Action>, k: KeeperState, b: Bounds)
    requires TimelyStart(timing, o, b.step) && Reachable(timing, o, actions, k)
    requires TimelyRun(Start(timing, o).value, actions, o, b.step) && Polite(o, b.wait)
    requires RestartsFailAtMost(k.trace, timing.leaveDelay, b.failures)
    requires timing.leaveRestartEvery + 3 * b.step
             + b.failures * (RestartPause(timing, b) + 2 * b.step) < timing.leaveDelay
    ensures forall i :: 0 <= i < |k.trace| ==> AnsweredAhead(k.trace, i, timing.leaveDelay)
    ensures TallyOf(k.trace, timing.leaveDelay).late == 0
    ensures k.delayId.Some? ==>
              var sent := TallyOf(k.trace, timing.leaveDelay).renewal;
              sent.Some? && k.clock < sent.value + timing.leaveDelay
  {
    hide Start;
    StartHolds(timing, o);
    SwitchStarts(timing, o, b);
    SwitchRun(Start(timing, o).value, actions, o, b);
    FailsWithin(k.trace, k.trace, timing.leaveDelay, b.failures);
    CountsAre(k.trace, timing.leaveDelay);
  }

  // -------------------------------------------------------------------------
  // The membership never lapses
  // -------------------------------------------------------------------------

  /** The longest pause after a failed refresh or rejoin. */
  function RefreshPause(t: Timing, b: Bounds): nat { Max(t.retryAfterError, b.wait) }

  ghost predicate ExpirySlack(t: Timing, b: Bounds) {
    t.refreshEvery + 3 * b.step + b.failures * (RefreshPause(t, b) + 3 * b.step) < t.expiry
  }

  /** A refresh starts at most two steps late, one if the switch still goes first. */
  ghost predicate Punctual(s: Sched, clock: nat, step: nat) {
    && clock <= s.nextRefresh + 2 * step
    && (s.LeaveDue(clock) ==> clock <= s.nextRefresh + step)
  }

  ghost predicate ExpiryInv(s: Sched, chained: bool, clock: nat, y: Tally, b: Bounds) {
    && y.lapses == 0 && s.joinedAt <= clock && Punctual(s, clock, b.step)
    && (chained && y.refreshFails <= b.failures ==>
          s.nextRefresh + 2 * b.step
            + Room(b.failures - y.refreshFails, RefreshPause(s.timing, b) + 3 * b.step) < s.validUntil)
  }

  ghost predicate ExpiryOk(k: KeeperState, b: Bounds) {
    ArmedIffHeld(k) && ExpiryInv(k.sched, k.chain.Some?, k.clock, Of(k), b)
  }

  /** An attempt that ends within one step of its start keeps the membership on time. */
  lemma AttemptKeepsExpiry(k: KeeperState, n: KeeperState, o: Oracle, b: Bounds)
    requires ValidTiming(n.sched.timing) && ExpirySlack(n.sched.timing, b)
    requires Attempted(k, n, o, b.wait, Of(n).refreshFails)
    requires k.clock <= n.clock <= k.clock + b.step && Of(n).lapses == 0
    requires n.sched.joinedAt <= n.clock
    ensures ExpiryInv(n.sched, n.chain.Some?, n.clock, Of(n), b)
  {
  }

  lemma ExpiryKeptByRefresh(k: KeeperState, o: Oracle, b: Bounds)
    requires ValidTiming(k.sched.timing) && ExpirySlack(k.sched.timing, b) && Polite(o, b.wait)
    requires ExpiryOk(k, b) && Of(k).refreshFails <= b.failures
    requires !k.sched.LeaveDue(k.clock)
    requires var n := k.Refresh(k.sched.ExpiresAt(k.clock), o);
             n.clock <= k.clock + b.step && Of(n).refreshFails <= b.failures
    ensures ExpiryOk(k.Refresh(k.sched.ExpiresAt(k.clock), o), b)
  {
    hide KeeperState.Refresh;
    var expires := k.sched.ExpiresAt(k.clock);
    var n := k.Refresh(expires, o);
    RefreshCounted(k, expires, o, b.wait);
    RefreshJoined(k, expires, o);
    if Attempted(k, n, o, b.wait, Of(n).refreshFails) {
      AttemptKeepsExpiry(k, n, o, b);
    } else if Of(n).refreshFails != 0 {
      RoomShrinks(b.failures - Of(k).refreshFails, RefreshPause(k.sched.timing, b) + 3 * b.step);
    }
  }

  lemma RefreshJoined(k: KeeperState, expires: nat, o: Oracle)
    requires k.sched.joinedAt <= k.clock
    ensures k.Refresh(expires, o).sched.joinedAt <= k.Refresh(expires, o).clock
  {
    RejoinEffect(k, o);
    RejoinEffect(k.(trace := k.trace + [LapseSeen(k.clock)]), o);
    AnchorEffect(k, o);
    RejoinEffect(k.AnchorCreatedTs(o), o);
  }

  lemma ExpiryKeptByRestart(k: KeeperState, o: Oracle, b: Bounds)
    requires ValidTiming(k.sched.timing) && ExpiryOk(k, b)
    requires k.delayId.Some? && k.sched.LeaveDue(k.clock) && !o(|k.trace|).outcome.NotFound?
    requires k.RestartLeave(o).clock <= k.clock + b.step
    ensures ExpiryOk(k.RestartLeave(o), b)
  {
    RestartEffect(k, o);
    RestartCounted(k, o);
  }

  lemma ExpiryKeptByRecovery(k: KeeperState, o: Oracle, b: Bounds)
    requires ValidTiming(k.sched.timing) && ExpirySlack(k.sched.timing, b) && Polite(o, b.wait)
    requires ExpiryOk(k, b) && Of(k).refreshFails <= b.failures
    requires k.delayId.Some? && k.sched.LeaveDue(k.clock) && o(|k.trace|).outcome.NotFound?
    requires k.RestartLeave(o).clock <= k.clock + b.step
    ensures ExpiryOk(k.RestartLeave(o), b)
  {
    hide KeeperState.RestartLeave, KeeperState.Rejoin, Rearmed;
    RecoveryCounted(k, o);
    var p := Rearmed(k, o);
    if !o(|k.trace| + 1).ConfirmsLive() {
      RejoinAttempts(p, o, b.wait);
      RejoinEffect(p, o);
      AttemptKeepsExpiry(p, p.Rejoin(o), o, b);
    }
  }

  lemma ExpiryKeptByArm(k: KeeperState, o: Oracle, b: Bounds)
    requires ValidTiming(k.sched.timing) && ExpiryOk(k, b) && k.sched.leave.Unarmed?
    requires k.sched.LeaveDue(k.clock) && k.ArmLeave(o).clock <= k.clock + b.step
    ensures ExpiryOk(k.ArmLeave(o), b)
  {
    ArmEffect(k, o);
    ArmCounted(k, o);
  }

  lemma ExpiryKept(k: KeeperState, a: Action, o: Oracle, b: Bounds)
    requires ValidTiming(k.sched.timing) && ExpirySlack(k.sched.timing, b) && Polite(o, b.wait)
    requires ExpiryOk(k, b) && Of(k).refreshFails <= b.failures && Timely(k, a, o, b.step)
    requires Of(Apply(k, a, o)).refreshFails <= b.failures
    ensures ExpiryOk(Apply(k, a, o), b)
  {
    hide KeeperState.Refresh, KeeperState.RestartLeave, KeeperState.ArmLeave, KeeperState.RejoinInPlace;
    match a {
      case Wait(_) =>
      case Rejoin => InPlaceCounted(k, o);
      case Act =>
        match k.sched.DueAt(k.clock) {
          case Some(ArmLeave) => ExpiryKeptByArm(k, o, b);
          case Some(RestartLeave) =>
            if o(|k.trace|).outcome.NotFound? {
              ExpiryKeptByRecovery(k, o, b);
            } else {
              ExpiryKeptByRestart(k, o, b);
            }
          case Some(Refresh(expires)) => ExpiryKeptByRefresh(k, o, b);
        }
    }
  }

  lemma ExpiryStarts(timing: Timing, o: Oracle, b: Bounds)
    requires TimelyStart(timing, o, b.step) && ExpirySlack(timing, b)
    ensures ExpiryOk(Start(timing, o).value, b)
  {
    hide Start;
    StartHolds(timing, o);
    var anchored := JoinCounted(timing, o);
    ArmEffect(anchored, o);
    ArmCounted(anchored, o);
  }

  lemma {:induction false} ExpiryRun(k: KeeperState, actions: seq<Action>, o: Oracle, b: Bounds)
    requires ValidTiming(k.sched.timing) && ExpirySlack(k.sched.timing, b) && Polite(o, b.wait)
    requires ExpiryOk(k, b) && TimelyRun(k, actions, o, b.step)
    requires RefreshesFailAtMost(Run(k, actions, o).trace, k.sched.timing.leaveDelay, b.failures)
    ensures ExpiryOk(Run(k, actions, o), b) && Run(k, actions, o).sched.timing == k.sched.timing
  {
    hide Apply;
    if actions != [] {
      var before := actions[..|actions| - 1];
      var k1 := Run(k, before, o);
      var k2 := Apply(k1, actions[|before|], o);
      TimelyPrefix(k, actions, o, b.step);
      RunKeepsSwitch(k, before, o);
      ApplyKeepsSwitch(k1, actions[|before|], o);
      FailsWithin(k1.trace, k2.trace, k.sched.timing.leaveDelay, b.failures);
      FailsWithin(k2.trace, k2.trace, k.sched.timing.leaveDelay, b.failures);
      ExpiryRun(k, before, o, b);
      ExpiryKept(k1, actions[|before|], o, b);
    }
  }

  /** No refresh ever finds the published membership lapsed. */
  lemma MembershipNeverLapses(timing: Timing, o: Oracle, actions: seq<Action>, k: KeeperState, b: Bounds)
    requires TimelyStart(timing, o, b.step) && Reachable(timing, o, actions, k)
    requires TimelyRun(Start(timing, o).value, actions, o, b.step) && Polite(o, b.wait)
    requires RefreshesFailAtMost(k.trace, timing.leaveDelay, b.failures)
    requires timing.refreshEvery + 3 * b.step
             + b.failures * (RefreshPause(timing, b) + 3 * b.step) < timing.expiry
    ensures TallyOf(k.trace, timing.leaveDelay).lapses == 0 && forall e :: e in k.trace ==> !e.LapseSeen?
    ensures k.chain.Some? ==> k.clock < k.sched.validUntil
  {
    hide Start;
    StartHolds(timing, o);
    ExpiryStarts(timing, o, b);
    ExpiryRun(Start(timing, o).value, actions, o, b);
    FailsWithin(k.trace, k.trace, timing.leaveDelay, b.failures);
    CountsAre(k.trace, timing.leaveDelay);
  }

  /** The default timing, with steps under seven seconds and no waits from the server: it
      survives single failed restarts, and 347 failed refreshes in a row. */
  lemma DefaultTimingSurvives(o: Oracle, actions: seq<Action>, k: KeeperState, step: nat)
    requires step < 7000 && Polite(o, 0)
    requires TimelyStart(DEFAULT_TIMING, o, step) && Reachable(DEFAULT_TIMING, o, actions, k)
    requires TimelyRun(Start(DEFAULT_TIMING, o).value, actions, o, step)
    ensures var y := TallyOf(k.trace, DEFAULT_TIMING.leaveDelay);
            && (RestartsFailAtMost(k.trace, DEFAULT_TIMING.leaveDelay, 1) ==>
                  && y.late == 0
                  && (k.delayId.Some? ==> y.renewal.Some? && k.clock < y.renewal.value + DEFAULT_TIMING.leaveDelay))
            && (RefreshesFailAtMost(k.trace, DEFAULT_TIMING.leaveDelay, 347) ==>
                  y.lapses == 0 && (k.chain.Some? ==> k.clock < k.sched.validUntil))
  {
    hide Start, TallyOf, Reachable, TimelyRun, RestartsFailAtMost, RefreshesFailAtMost;
    if RestartsFailAtMost(k.trace, DEFAULT_TIMING.leaveDelay, 1) {
      SwitchNeverFires(DEFAULT_TIMING, o, actions, k, Bounds(step, 0, 1));
    }
    if RefreshesFailAtMost(k.trace, DEFAULT_TIMING.leaveDelay, 347) {
      MembershipNeverLapses(DEFAULT_TIMING, o, actions, k, Bounds(step, 0, 347));
    }
  }

  // -------------------------------------------------------------------------
  // Why chain safety speaks of what the keeper has seen
  // -------------------------------------------------------------------------

  lemma RunSnoc(k: KeeperState, before: seq<Action>, a: Action, o: Oracle)
    ensures Run(k, before + [a], o) == Apply(Run(k, before, o), a, o)
  {
    assert (before + [a])[..|before|] == before;
  }

  const TIGHT := Timing(1000, 100, 60, 15, 10)

  /** Two restarts hang and fail, everything else is answered at once. */
  ghost predicate Hangs(o: Oracle) {
    && (forall i: nat | i < 6 && i != 3 && i != 4 :: o(i) == Answer(0, Ok, 7, 5000, true, 0))
    && o(3) == Answer(70, Failed, 0, 0, false, 0) && o(4) == Answer(5, Failed, 0, 0, false, 0)
  }

  lemma HangingStart(o: Oracle) returns (k: KeeperState)
    requires Hangs(o)
    ensures Start(TIGHT, o) == Some(k)
    ensures k.sched == Sched(TIGHT, 0, 1000, 100, Armed(15)) && k.clock == 0
    ensures k.chain == Some(0) && k.createdTs == Some(5000) && k.delayId == Some(7)
    ensures |k.trace| == 3 && TallyOf(k.trace, 60).renewal == Some(0)
    ensures forall i :: 0 <= i < 3 ==> !k.trace[i].EndsChain()
  {
    var k0 := KeeperState(JoinedAt(TIGHT, 0), None, None, None, 0, []);
    var published := k0.Ask(Publish(NewChain, None, 1000), o);
    var joined := published.(chain := Some(0));
    var anchored := joined.AnchorCreatedTs(o);
    assert anchored.createdTs == Some(5000) && anchored.clock == 0 && |anchored.trace| == 2;
    ArmCounted(anchored, o);
    k := anchored.ArmLeave(o);
  }

  lemma HangingRestart(k: KeeperState, lag: nat, o: Oracle) returns (n: KeeperState)
    requires k.sched.timing == TIGHT && k.delayId == Some(7)
    requires o(|k.trace|).outcome == Failed && o(|k.trace|).lag == lag
    requires k.sched.LeaveDue(k.clock) && k.sched.leave.Armed?
    ensures n == Apply(k, Act, o)
    ensures n == k.(trace := n.trace, clock := k.clock + lag, sched := k.sched.(leave := Armed(k.clock + lag + 10)))
    ensures |n.trace| == |k.trace| + 1 && n.trace[..|k.trace|] == k.trace && !n.trace[|k.trace|].EndsChain()
    ensures TallyOf(n.trace, 60).renewal == TallyOf(k.trace, 60).renewal
  {
    n := k.RestartLeave(o);
    RestartCounted(k, o);
  }

  lemma HangingRefresh(k: KeeperState, o: Oracle) returns (n: KeeperState)
    requires k.sched == Sched(TIGHT, 0, 1000, 100, Armed(110)) && k.clock == 100
    requires k.chain == Some(0) && k.createdTs == Some(5000) && o(|k.trace|).Acked()
    ensures n == Apply(k, Act, o) && n.delayId == k.delayId
    ensures n.trace == k.trace + [Asked(Publish(Continue(0), Some(5000), 1100), 100, o(|k.trace|))]
    ensures TallyOf(n.trace, 60).renewal == TallyOf(k.trace, 60).renewal
  {
    n := k.Resend(1100, o);
    ResendCounted(k, 1100, o, 0);
  }

  lemma ThreeActions(k: KeeperState, a: Action, b: Action, c: Action, o: Oracle)
    ensures Run(k, [a, b, c], o) == Apply(Apply(Apply(k, a, o), b, o), c, o)
  {
    hide Apply;
    RunSnoc(k, [], a, o);
    RunSnoc(k, [a], b, o);
    RunSnoc(k, [a, b], c, o);
    assert [] + [a] == [a] && [a] + [b] == [a, b] && [a, b] + [c] == [a, b, c];
  }

  lemma FiveActions(k: KeeperState, a: Action, b: Action, c: Action, d: Action, e: Action, o: Oracle)
    ensures Run(k, [a, b, c, d, e], o) == Apply(Apply(Apply(Apply(Apply(k, a, o), b, o), c, o), d, o), e, o)
  {
    hide Apply, Run;
    ThreeActions(k, a, b, c, o);
    RunSnoc(k, [a, b, c], d, o);
    RunSnoc(k, [a, b, c, d], e, o);
    assert [a, b, c] + [d] == [a, b, c, d] && [a, b, c, d] + [e] == [a, b, c, d, e];
  }

  /** With longer failures than the bound allows, a delayed leave can come due between
      a failed restart and a refresh that falls due first: the keeper has seen no chain
      end, and re-sends the `created_ts` of a membership that was already removed. */
  lemma UnseenLeave(o: Oracle) returns (actions: seq<Action>, k: KeeperState)
    requires Hangs(o)
    ensures ValidTiming(TIGHT) && Reachable(TIGHT, o, actions, k) && k.trace != []
    ensures var last := k.trace[|k.trace| - 1];
            && IsRefresh(last) && last.Published()
            && k.delayId.Some? && TallyOf(k.trace, TIGHT.leaveDelay).renewal.Some?
            && TallyOf(k.trace, TIGHT.leaveDelay).renewal.value + TIGHT.leaveDelay < last.sentAt
    ensures forall i :: 0 <= i < |k.trace| ==> !k.trace[i].EndsChain()
  {
    hide Run, TallyOf, KeeperState.RestartLeave, KeeperState.Refresh, KeeperState.Resend, KeeperState.ArmLeave,
         KeeperState.Rejoin;
    var k0 := HangingStart(o);
    var k2 := HangingRestart(k0.(clock := 15), 70, o);
    var k4 := HangingRestart(k2.(clock := 95), 5, o);
    k := HangingRefresh(k4, o);
    actions := [Wait(15), Act, Wait(10), Act, Act];
    FiveActions(k0, Wait(15), Act, Wait(10), Act, Act, o);
  }
}
