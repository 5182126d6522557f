/**
 The drain loop of a tick (crates/aqua-matrix-agent/src/rtc_member.rs, `tick`): actions
 are performed until none is due. When it ends, when it does not, and how many it takes.
 */
module RtcDrain {
  import opened Basics
  import opened RtcSchedule
  import opened RtcKeeper
  import opened RtcEffects
  import opened RtcChainSafety

  // -------------------------------------------------------------------------
  // The drain loop of a tick
  // -------------------------------------------------------------------------

  function Quickest(t: Timing): nat {
    Min(t.leaveRestartEvery, Min(t.retryAfterError, t.refreshEvery))
  }

  /** When the two steps together take less than the shortest interval of the
      timing (with a frozen clock they take none), nothing is due after them. */
  lemma DrainTakesTwoSteps(k: KeeperState, o: Oracle)
    requires ValidTiming(k.sched.timing) && ArmedIffHeld(k)
    requires k.Step(o).Step(o).clock < k.clock + Quickest(k.sched.timing)
    ensures var end := k.Step(o).Step(o);
            end.clock < end.sched.NextWake() && end.Step(o) == end
  {
    var once := k.Step(o);
    StepDefers(k, o);
    StepDefers(once, o);
  }

  /** One step performed at `t` pushes the deadline it served at least the shortest
      interval past `t`, and moves the other one only if it moves it as far. */
  lemma StepDefers(k: KeeperState, o: Oracle)
    requires ValidTiming(k.sched.timing) && ArmedIffHeld(k)
    ensures var n := k.Step(o); var late := k.clock + Quickest(k.sched.timing) - 1;
            && Later(k, n) && ArmedIffHeld(n)
            && (k.sched.LeaveDue(k.clock) ==> !n.sched.LeaveDue(late))
            && (!k.sched.LeaveDue(k.clock) ==> n.sched.leave == k.sched.leave)
            && (n.sched.nextRefresh == k.sched.nextRefresh || late < n.sched.nextRefresh)
            && (!k.sched.LeaveDue(k.clock) && k.sched.nextRefresh <= k.clock ==> late < n.sched.nextRefresh)
  {
    ApplyKeepsSwitch(k, Act, o);
    match k.sched.DueAt(k.clock) {
      case Some(ArmLeave) => ArmEffect(k, o);
      case Some(RestartLeave) =>
        if o(|k.trace|).outcome.NotFound? {
          RecoverEffect(k.Ask(Request.RestartLeave(k.delayId.value), o).(delayId := None), o, 0);
        } else {
          RestartEffect(k, o);
        }
      case Some(Refresh(expires)) => RefreshEffect(k, expires, o, 0);
      case None =>
    }
  }

  /** The drain loop of a tick, on a server that answers the due actions promptly. */
  method Drain(keeper: Keeper) returns (steps: nat)
    requires ValidTiming(keeper.sched.timing) && ArmedIffHeld(keeper.View())
    requires var k := keeper.View(); var o := keeper.Oracle();
             k.Step(o).Step(o).clock < k.clock + Quickest(k.sched.timing)
    modifies keeper, keeper.transport, keeper.sched, keeper.delay
    ensures steps <= 2
    ensures keeper.View() == old(keeper.View()).Step(keeper.Oracle()).Step(keeper.Oracle())
    ensures keeper.View().clock < keeper.View().sched.NextWake()
  {
    ghost var k := keeper.View();
    ghost var o := keeper.Oracle();
    DrainTakesTwoSteps(k, o);
    steps := 0;
    var acted := keeper.Step();
    while acted
      invariant steps <= 2
      invariant keeper.View() == if steps == 0 then k.Step(o) else k.Step(o).Step(o)
      invariant acted || keeper.View() == k.Step(o).Step(o)
      invariant acted <==> (if steps == 0 then k.sched.NextWake() <= k.clock
                            else steps == 1 && k.Step(o).sched.NextWake() <= k.Step(o).clock)
      decreases 2 - steps
    {
      steps := steps + 1;
      acted := keeper.Step();
    }
  }

  // -------------------------------------------------------------------------
  // A homeserver that lets every request hang and fail
  // -------------------------------------------------------------------------

  predicate Busy(k: KeeperState) { k.sched.DueAt(k.clock).Some? }

  function StepTimes(k: KeeperState, n: nat, o: Oracle): KeeperState {
    if n == 0 then k else StepTimes(k, n - 1, o).Step(o)
  }

  /** The loop ends: at some point nothing is due. */
  ghost predicate DrainEnds(k: KeeperState, o: Oracle) { exists n: nat :: !Busy(StepTimes(k, n, o)) }

  /** From the answer `from` on, every request fails, after `least` to `most` ms. */
  ghost predicate FailsFrom(o: Oracle, from: nat, least: nat, most: nat) {
    forall i: nat :: from <= i ==> o(i).outcome.Failed? && least <= o(i).lag <= most
  }

  /** How long a failing refresh takes: it asks twice when it has to name its chain first. */
  function RefreshCost(k: KeeperState, lag: nat): nat {
    if k.chain.Some? && k.clock < k.sched.validUntil && k.createdTs.None? then 2 * lag else lag
  }

  /** Something is due, and the other deadline passes while it is served. */
  predicate Overtaken(k: KeeperState, lag: nat) {
    if k.sched.LeaveDue(k.clock) then k.sched.nextRefresh <= k.clock + lag
    else k.sched.nextRefresh <= k.clock && k.sched.LeaveDue(k.clock + RefreshCost(k, lag))
  }

  /** The pause after a failure at the switch. */
  function SwitchPause(s: Sched): nat {
    if s.leave.Armed? then Min(s.timing.retryAfterError, s.timing.leaveRestartEvery) else s.timing.retryAfterError
  }

  lemma SwitchFails(k: KeeperState, o: Oracle, least: nat, most: nat)
    requires ArmedIffHeld(k) && FailsFrom(o, |k.trace|, least, most) && k.sched.LeaveDue(k.clock)
    ensures var n := k.Step(o);
            && ArmedIffHeld(n) && FailsFrom(o, |n.trace|, least, most) && n.sched.timing == k.sched.timing
            && k.clock + least <= n.clock <= k.clock + most && n.sched.nextRefresh == k.sched.nextRefresh
            && forall t: nat :: n.sched.LeaveDue(t) <==> n.clock + SwitchPause(k.sched) <= t
  {
  }

  /** A state that a failed publication of `k` leads to. */
  ghost predicate PutOff(k: KeeperState, n: KeeperState, o: Oracle, least: nat, most: nat, fastest: nat, slowest: nat) {
    && ArmedIffHeld(n) && FailsFrom(o, |n.trace|, least, most) && n.sched.timing == k.sched.timing
    && k.clock + fastest <= n.clock <= k.clock + slowest
    && n.sched.leave == k.sched.leave
    && n.sched.nextRefresh == n.clock + k.sched.timing.retryAfterError
  }

  lemma RejoinFails(k: KeeperState, o: Oracle, least: nat, most: nat)
    requires ArmedIffHeld(k) && FailsFrom(o, |k.trace|, least, most)
    ensures PutOff(k, k.Rejoin(o), o, least, most, least, most)
  {
  }

  lemma ResendFails(k: KeeperState, expires: nat, o: Oracle, least: nat, most: nat)
    requires ArmedIffHeld(k) && FailsFrom(o, |k.trace|, least, most) && k.chain.Some? && k.createdTs.Some?
    ensures PutOff(k, k.Resend(expires, o), o, least, most, least, most)
  {
  }

  lemma RefreshFails(k: KeeperState, o: Oracle, least: nat, most: nat)
    requires ArmedIffHeld(k) && FailsFrom(o, |k.trace|, least, most)
    requires !k.sched.LeaveDue(k.clock) && k.sched.nextRefresh <= k.clock
    ensures PutOff(k, k.Step(o), o, least, most, RefreshCost(k, least), RefreshCost(k, most))
  {
    hide KeeperState.ArmLeave, KeeperState.RestartLeave, KeeperState.RejoinInPlace, KeeperState.Rejoin,
         KeeperState.Resend;
    RejoinFails(k, o, least, most);
    RejoinFails(k.(trace := k.trace + [LapseSeen(k.clock)]), o, least, most);
    if k.chain.Some? {
      RejoinFails(k.AnchorCreatedTs(o), o, least, most);
      if k.createdTs.Some? {
        ResendFails(k, k.sched.ExpiresAt(k.clock), o, least, most);
      }
    }
  }

  /** Both deadlines have passed, or one has and the other one passes within the retry
      interval; and no request is shorter than that. */
  ghost predicate Behind(k: KeeperState, o: Oracle, most: nat) {
    var retry := k.sched.timing.retryAfterError;
    && ValidTiming(k.sched.timing) && ArmedIffHeld(k) && FailsFrom(o, |k.trace|, retry, most)
    && (|| (k.sched.LeaveDue(k.clock) && k.sched.nextRefresh <= k.clock + retry)
        || (k.sched.nextRefresh <= k.clock && k.sched.LeaveDue(k.clock + retry)))
  }

  lemma StepStaysBehind(k: KeeperState, o: Oracle, most: nat)
    requires Behind(k, o, most)
    ensures Busy(k) && Behind(k.Step(o), o, most)
  {
    hide KeeperState.Step;
    if k.sched.LeaveDue(k.clock) {
      SwitchFails(k, o, k.sched.timing.retryAfterError, most);
    } else {
      RefreshFails(k, o, k.sched.timing.retryAfterError, most);
    }
  }

  lemma {:induction false} AlwaysBehind(k: KeeperState, n: nat, o: Oracle, most: nat)
    requires Behind(k, o, most)
    ensures Busy(StepTimes(k, n, o)) && Behind(StepTimes(k, n, o), o, most)
  {
    hide KeeperState.Step, Behind, Busy;
    if n > 0 {
      AlwaysBehind(k, n - 1, o, most);
      StepStaysBehind(StepTimes(k, n - 1, o), o, most);
    }
    StepStaysBehind(StepTimes(k, n, o), o, most);
  }

  /** When no request is shorter than the retry interval, a keeper that is behind on
      both deadlines always has another action due, however the lengths vary: the loop
      never ends and no rejoin request is ever served. */
  lemma DrainNeverEndsOnAHangingServer(k: KeeperState, o: Oracle, most: nat)
    requires Behind(k, o, most)
    ensures !DrainEnds(k, o)
  {
    hide Behind, Busy;
    forall n: nat
      ensures Busy(StepTimes(k, n, o))
    {
      AlwaysBehind(k, n, o, most);
    }
  }

  lemma {:induction false} StepTimesFirst(k: KeeperState, n: nat, o: Oracle)
    ensures StepTimes(k, n + 1, o) == StepTimes(k.Step(o), n, o)
  {
    hide KeeperState.Step;
    if n > 0 {
      StepTimesFirst(k, n - 1, o);
    }
  }

  lemma OvertakenNeverEnds(k: KeeperState, o: Oracle, lag: nat)
    requires ValidTiming(k.sched.timing) && ArmedIffHeld(k) && FailsFrom(o, |k.trace|, lag, lag)
    requires Overtaken(k, lag) && k.sched.timing.retryAfterError <= lag
    ensures !DrainEnds(k, o)
  {
    hide KeeperState.Step;
    if k.sched.LeaveDue(k.clock) {
      SwitchFails(k, o, lag, lag);
    } else {
      RefreshFails(k, o, lag, lag);
    }
    DrainNeverEndsOnAHangingServer(k.Step(o), o, lag);
    forall n: nat
      ensures Busy(StepTimes(k, n, o))
    {
      if n > 0 {
        StepTimesFirst(k, n - 1, o);
      }
    }
  }

  /** One action serves everything that is due. */
  lemma NotOvertakenEnds(k: KeeperState, o: Oracle, lag: nat)
    requires ValidTiming(k.sched.timing) && ArmedIffHeld(k) && FailsFrom(o, |k.trace|, lag, lag)
    requires Busy(k) && !Overtaken(k, lag)
    ensures !Busy(k.Step(o))
  {
    hide KeeperState.Step;
    if k.sched.LeaveDue(k.clock) {
      SwitchFails(k, o, lag, lag);
    } else {
      RefreshFails(k, o, lag, lag);
    }
  }

  /** When every request is shorter than the retry interval, failing ones do not keep the
      loop going: the switch, the refresh, and at most the switch once more. */
  lemma ShortFailuresDrain(k: KeeperState, o: Oracle, most: nat)
    requires ValidTiming(k.sched.timing) && ArmedIffHeld(k) && FailsFrom(o, |k.trace|, 0, most)
    requires most < k.sched.timing.retryAfterError
    ensures exists n: nat :: n <= 3 && !Busy(StepTimes(k, n, o))
  {
    hide KeeperState.Step;
    ThreeSteps(k, o);
    if !Busy(k) {
      assert !Busy(StepTimes(k, 0, o));
    } else if k.sched.LeaveDue(k.clock) {
      SwitchFails(k, o, 0, most);
      SwitchThenRest(k.Step(o), o, most);
    } else {
      RefreshFails(k, o, 0, most);
      RefreshThenRest(k.Step(o), o, most);
    }
  }

  /** After the refresh, at most the switch is left. */
  lemma RefreshThenRest(k: KeeperState, o: Oracle, most: nat)
    requires ValidTiming(k.sched.timing) && ArmedIffHeld(k) && FailsFrom(o, |k.trace|, 0, most)
    requires most < k.sched.timing.retryAfterError
    requires k.sched.nextRefresh == k.clock + k.sched.timing.retryAfterError
    ensures !Busy(k) || !Busy(k.Step(o))
  {
    hide KeeperState.Step;
    if Busy(k) {
      SwitchFails(k, o, 0, most);
    }
  }

  /** After the switch, at most the refresh and the switch are left. */
  lemma SwitchThenRest(k: KeeperState, o: Oracle, most: nat)
    requires ValidTiming(k.sched.timing) && ArmedIffHeld(k) && FailsFrom(o, |k.trace|, 0, most)
    requires most < k.sched.timing.retryAfterError && !k.sched.LeaveDue(k.clock)
    ensures !Busy(k) || !Busy(k.Step(o)) || !Busy(k.Step(o).Step(o))
  {
    hide KeeperState.Step;
    if Busy(k) {
      RefreshFails(k, o, 0, most);
      RefreshThenRest(k.Step(o), o, most);
    }
  }

  lemma ThreeSteps(k: KeeperState, o: Oracle)
    ensures StepTimes(k, 0, o) == k && StepTimes(k, 1, o) == k.Step(o)
    ensures StepTimes(k, 2, o) == k.Step(o).Step(o) && StepTimes(k, 3, o) == k.Step(o).Step(o).Step(o)
  {
    hide KeeperState.Step;
    assert StepTimes(k, 3, o) == StepTimes(k, 2, o).Step(o) && StepTimes(k, 2, o) == StepTimes(k, 1, o).Step(o);
  }

  /** Exactly when the loop ends while every request takes `lag` ms and fails: when a
      failed request is shorter than the retry interval, or no second deadline passes
      while the first action is served. Then it takes three actions at most. */
  lemma DrainEndsIff(k: KeeperState, o: Oracle, lag: nat)
    requires ValidTiming(k.sched.timing) && ArmedIffHeld(k) && FailsFrom(o, |k.trace|, lag, lag)
    ensures DrainEnds(k, o) <==> lag < k.sched.timing.retryAfterError || !Overtaken(k, lag)
    ensures DrainEnds(k, o) ==> exists n: nat :: n <= 3 && !Busy(StepTimes(k, n, o))
  {
    hide KeeperState.Step, Overtaken;
    ThreeSteps(k, o);
    if !Busy(k) {
      assert !Busy(StepTimes(k, 0, o));
      NotBusyNotOvertaken(k, lag);
    } else if !Overtaken(k, lag) {
      NotOvertakenEnds(k, o, lag);
      assert !Busy(StepTimes(k, 1, o));
    } else if lag < k.sched.timing.retryAfterError {
      ShortFailuresDrain(k, o, lag);
    } else {
      OvertakenNeverEnds(k, o, lag);
    }
  }

  lemma NotBusyNotOvertaken(k: KeeperState, lag: nat)
    requires !Busy(k)
    ensures !Overtaken(k, lag)
  {
  }

  /** With both deadlines passed, it ends exactly when a failed request is shorter than
      the retry interval. */
  lemma BothPassedEndsIff(k: KeeperState, o: Oracle, lag: nat)
    requires ValidTiming(k.sched.timing) && ArmedIffHeld(k) && FailsFrom(o, |k.trace|, lag, lag)
    requires k.sched.LeaveDue(k.clock) && k.sched.nextRefresh <= k.clock
    ensures DrainEnds(k, o) <==> lag < k.sched.timing.retryAfterError
  {
    hide KeeperState.Step, DrainEnds;
    DrainEndsIff(k, o, lag);
  }

  /** A hold comes to this: joined and armed at once, then not scheduled for an hour, as in
      a stopped process, and every request from then on hangs for ten seconds or more and
      fails. Its tick never gets to serve a rejoin. */
  lemma StalledHoldNeverDrains(o: Oracle, lag: nat) returns (k: KeeperState)
    requires forall i: nat :: i < 3 ==> o(i).outcome.Ok? && o(i).lag == 0
    requires FailsFrom(o, 3, lag, lag) && DEFAULT_TIMING.retryAfterError <= lag
    ensures ValidTiming(DEFAULT_TIMING)
    ensures Reachable(DEFAULT_TIMING, o, [Wait(DEFAULT_TIMING.refreshEvery)], k)
    ensures k.sched.LeaveDue(k.clock) && k.sched.nextRefresh <= k.clock && k.createdTs.Some?
    ensures !DrainEnds(k, o)
  {
    hide DrainEnds;
    var k0 := KeeperState(JoinedAt(DEFAULT_TIMING, 0), None, None, None, 0, []);
    var joined := k0.Ask(Publish(NewChain, None, DEFAULT_TIMING.expiry), o).(chain := Some(0));
    var started := joined.AnchorCreatedTs(o).ArmLeave(o);
    assert Start(DEFAULT_TIMING, o) == Some(started) && started.clock == 0 && |started.trace| == 3;
    k := started.(clock := DEFAULT_TIMING.refreshEvery);
    var wait := Wait(DEFAULT_TIMING.refreshEvery);
    assert [wait][..0] == [];
    assert Run(started, [wait], o) == Apply(Run(started, [], o), wait, o);
    SwitchArmedIffIdHeld(DEFAULT_TIMING, o, [wait], k);
    BothPassedEndsIff(k, o, lag);
  }
}
