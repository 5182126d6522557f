/**
 What every step of a holding keeper keeps, and what follows for whole runs: the
 switch is armed exactly while a delay id is held, a chain that was seen to end is
 never continued, and a chain that could not be replaced is replaced later.
 */
module RtcChainSafety {
  import opened Basics
  import opened RtcSchedule
  import opened RtcKeeper
  import opened RtcEffects

  ghost predicate ArmedIffHeld(k: KeeperState) {
    k.sched.leave.Armed? <==> k.delayId.Some?
  }

  ghost predicate IsRefresh(e: Event) {
    e.Asked? && e.req.Publish? && e.req.kind.Continue?
  }

  /** Chain `c` began before position `n` of the trace and was not seen to end by then. */
  ghost predicate Open(trace: seq<Event>, c: nat, n: nat) {
    && c < n <= |trace|
    && trace[c].StartsChain()
    && forall i :: c < i < n ==> !trace[i].EndsChain()
  }

  /** By position `n`, `ts` is known to be the `created_ts` of chain `c`. */
  ghost predicate Anchored(trace: seq<Event>, c: nat, ts: nat, n: nat)
    requires Open(trace, c, n)
  {
    || (trace[c].req.kind.InPlace? && trace[c].req.createdTs == Some(ts))
    || exists a :: c < a < n && Names(trace[a], c, ts)
  }

  ghost predicate Names(e: Event, c: nat, ts: nat) {
    e.Asked? && e.req == OriginTs(c) && e.answer.Acked() && e.answer.ts == ts
  }

  /** The refresh at position `j` continues a chain that was still open, with its `created_ts`. */
  ghost predicate GoodRefresh(trace: seq<Event>, j: nat)
    requires j < |trace|
  {
    IsRefresh(trace[j]) ==>
      var c := trace[j].req.kind.chain;
      Open(trace, c, j) && trace[j].req.createdTs.Some? && Anchored(trace, c, trace[j].req.createdTs.value, j)
  }

  ghost predicate TraceSafe(trace: seq<Event>) {
    forall j :: 0 <= j < |trace| ==> GoodRefresh(trace, j)
  }

  ghost predicate ChainInv(k: KeeperState) {
    && TraceSafe(k.trace)
    && (k.chain.Some? ==> Open(k.trace, k.chain.value, |k.trace|))
    && (k.createdTs.Some? ==>
        k.chain.Some? && Anchored(k.trace, k.chain.value, k.createdTs.value, |k.trace|))
  }

  lemma OpenGrows(t: seq<Event>, e: Event, c: nat, n: nat)
    requires Open(t, c, n)
    ensures Open(t + [e], c, n)
    ensures n == |t| && !e.EndsChain() ==> Open(t + [e], c, n + 1)
  {
  }

  lemma AnchoredGrows(t: seq<Event>, e: Event, c: nat, ts: nat, n: nat)
    requires Open(t, c, n) && Anchored(t, c, ts, n)
    ensures Open(t + [e], c, n) && Anchored(t + [e], c, ts, n)
    ensures n == |t| && !e.EndsChain() ==> Open(t + [e], c, n + 1) && Anchored(t + [e], c, ts, n + 1)
  {
    OpenGrows(t, e, c, n);
    if !(t[c].req.kind.InPlace? && t[c].req.createdTs == Some(ts)) {
      var a :| c < a < n && Names(t[a], c, ts);
      assert Names((t + [e])[a], c, ts);
    }
  }

  /** Appending anything but a bad refresh keeps a trace safe. */
  lemma TraceGrows(t: seq<Event>, e: Event)
    requires TraceSafe(t)
    requires IsRefresh(e) ==>
               && e.req.createdTs.Some? && Open(t, e.req.kind.chain, |t|)
               && Anchored(t, e.req.kind.chain, e.req.createdTs.value, |t|)
    ensures TraceSafe(t + [e])
  {
    forall j | 0 <= j < |t + [e]|
      ensures GoodRefresh(t + [e], j)
    {
      if j < |t| {
        assert GoodRefresh(t, j);
        if IsRefresh(t[j]) {
          AnchoredGrows(t, e, t[j].req.kind.chain, t[j].req.createdTs.value, j);
        }
      } else if IsRefresh(e) {
        AnchoredGrows(t, e, e.req.kind.chain, e.req.createdTs.value, |t|);
      }
    }
  }

  /** A request that is no refresh and ends no chain leaves everything in force. */
  lemma NeutralAsk(k: KeeperState, req: Request, o: Oracle)
    requires ChainInv(k)
    requires !req.Publish? && !req.IsLive?
    ensures ChainInv(k.Ask(req, o))
  {
    var e := Asked(req, k.clock, k.Next(o));
    TraceGrows(k.trace, e);
    if k.chain.Some? {
      OpenGrows(k.trace, e, k.chain.value, |k.trace|);
    }
    if k.createdTs.Some? {
      AnchoredGrows(k.trace, e, k.chain.value, k.createdTs.value, |k.trace|);
    }
  }

  lemma AnchorKeeps(k: KeeperState, o: Oracle)
    requires ChainInv(k)
    ensures ChainInv(k.AnchorCreatedTs(o))
  {
    if k.chain.Some? {
      NeutralAsk(k, OriginTs(k.chain.value), o);
      var t := k.Ask(OriginTs(k.chain.value), o).trace;
      assert k.Next(o).Acked() ==> Names(t[|k.trace|], k.chain.value, k.Next(o).ts);
    }
  }

  lemma ArmKeeps(k: KeeperState, o: Oracle)
    requires ChainInv(k)
    ensures ChainInv(k.ArmLeave(o))
  {
    NeutralAsk(k, ScheduleLeave(k.sched.timing.leaveDelay), o);
  }

  /** A rejoin restores the invariant from any safe trace: it forgets the old chain first. */
  lemma RejoinRestores(k: KeeperState, o: Oracle)
    requires TraceSafe(k.trace)
    ensures ChainInv(k.Rejoin(o))
  {
    var e := Asked(Publish(NewChain, None, k.sched.timing.expiry), k.clock, k.Next(o));
    TraceGrows(k.trace, e);
    if k.Next(o).Acked() {
      var started := k.(chain := None, createdTs := None)
        .Ask(Publish(NewChain, None, k.sched.timing.expiry), o).(chain := Some(|k.trace|));
      var joined := started.(sched := k.sched.Rejoined(started.clock));
      assert Open(joined.trace, |k.trace|, |joined.trace|);
      AnchorKeeps(joined, o);
    }
  }

  lemma RefreshKeeps(k: KeeperState, expires: nat, o: Oracle)
    requires ChainInv(k)
    ensures ChainInv(k.Refresh(expires, o))
  {
    if k.chain.None? {
      RejoinRestores(k, o);
    } else if k.clock >= k.sched.validUntil {
      TraceGrows(k.trace, LapseSeen(k.clock));
      RejoinRestores(k.(trace := k.trace + [LapseSeen(k.clock)]), o);
    } else {
      if k.createdTs.None? {
        AnchorKeeps(k, o);
      }
      var a := if k.createdTs.None? then k.AnchorCreatedTs(o) else k;
      if a.createdTs.None? {
        RejoinRestores(a, o);
      } else {
        var e := Asked(Publish(Continue(a.chain.value), a.createdTs, expires), a.clock, a.Next(o));
        TraceGrows(a.trace, e);
        AnchoredGrows(a.trace, e, a.chain.value, a.createdTs.value, |a.trace|);
      }
    }
  }

  lemma InPlaceKeeps(k: KeeperState, o: Oracle)
    requires ChainInv(k)
    ensures ChainInv(k.RejoinInPlace(o))
  {
    if k.createdTs.None? {
      AnchorKeeps(k, o);
    }
    var a := if k.createdTs.None? then k.AnchorCreatedTs(o) else k;
    var ts := a.NextCreatedTs(o);
    var e := Asked(Publish(InPlace, Some(ts), k.sched.timing.expiry), a.clock, a.Next(o));
    TraceGrows(a.trace, e);
    if a.Next(o).Acked() {
      assert Open(a.trace + [e], |a.trace|, |a.trace| + 1);
    } else {
      if a.chain.Some? {
        OpenGrows(a.trace, e, a.chain.value, |a.trace|);
      }
      if a.createdTs.Some? {
        AnchoredGrows(a.trace, e, a.chain.value, a.createdTs.value, |a.trace|);
      }
    }
  }

  lemma RecoverKeeps(k: KeeperState, o: Oracle)
    requires ChainInv(k)
    ensures ChainInv(k.RecoverLeave(o))
  {
    var e := Asked(IsLive, k.clock, k.Next(o));
    TraceGrows(k.trace, e);
    var asked := k.Ask(IsLive, o);
    var lost := asked.(sched := k.sched.LeaveLost(asked.clock));
    if k.Next(o).ConfirmsLive() {
      if k.chain.Some? {
        OpenGrows(k.trace, e, k.chain.value, |k.trace|);
      }
      if k.createdTs.Some? {
        AnchoredGrows(k.trace, e, k.chain.value, k.createdTs.value, |k.trace|);
      }
      ArmKeeps(lost, o);
    } else {
      TraceGrows(lost.trace, Asked(ScheduleLeave(k.sched.timing.leaveDelay), lost.clock, lost.Next(o)));
      RejoinRestores(lost.ArmLeave(o), o);
    }
  }

  lemma RestartKeeps(k: KeeperState, o: Oracle)
    requires ChainInv(k)
    ensures ChainInv(k.RestartLeave(o))
  {
    if k.delayId.Some? {
      NeutralAsk(k, Request.RestartLeave(k.delayId.value), o);
      if k.Next(o).outcome.NotFound? {
        RecoverKeeps(k.Ask(Request.RestartLeave(k.delayId.value), o).(delayId := None), o);
      }
    }
  }

  lemma ApplyKeeps(k: KeeperState, a: Action, o: Oracle)
    requires ChainInv(k)
    ensures ChainInv(Apply(k, a, o))
  {
    match a {
      case Wait(_) =>
      case Rejoin => InPlaceKeeps(k, o);
      case Act =>
        match k.sched.DueAt(k.clock) {
          case Some(ArmLeave) => ArmKeeps(k, o);
          case Some(RestartLeave) => RestartKeeps(k, o);
          case Some(Refresh(expires)) => RefreshKeeps(k, expires, o);
          case None =>
        }
    }
  }

  lemma StartHolds(timing: Timing, o: Oracle)
    requires Start(timing, o).Some?
    ensures var k := Start(timing, o).value;
            ChainInv(k) && ArmedIffHeld(k) && k.sched.timing == timing && ValidTiming(timing)
  {
    var e := Asked(Publish(NewChain, None, timing.expiry), 0, o(0));
    var k := KeeperState(JoinedAt(timing, o(0).lag), None, Some(0), None, o(0).lag, [e]);
    assert k.trace == [] + [e];
    assert Open(k.trace, 0, 1);
    AnchorKeeps(k, o);
    ArmKeeps(k.AnchorCreatedTs(o), o);
  }

  lemma {:induction false} RunKeeps(k: KeeperState, actions: seq<Action>, o: Oracle)
    requires ChainInv(k)
    ensures ChainInv(Run(k, actions, o))
  {
    if actions != [] {
      RunKeeps(k, actions[..|actions| - 1], o);
      ApplyKeeps(Run(k, actions[..|actions| - 1], o), actions[|actions| - 1], o);
    }
  }

  lemma ApplyKeepsSwitch(k: KeeperState, a: Action, o: Oracle)
    requires ArmedIffHeld(k)
    ensures ArmedIffHeld(Apply(k, a, o)) && Later(k, Apply(k, a, o))
  {
    match a {
      case Wait(_) =>
      case Rejoin => InPlaceEffect(k, o);
      case Act =>
        match k.sched.DueAt(k.clock) {
          case Some(ArmLeave) => ArmEffect(k, o);
          case Some(RestartLeave) =>
            if o(|k.trace|).outcome.NotFound? {
              RecoverEffect(k.Ask(Request.RestartLeave(k.delayId.value), o).(delayId := None), o, 0);
            } else {
              RestartEffect(k, o);
            }
          case Some(Refresh(expires)) => RefreshEffect(k, expires, o, 0);
          case None =>
        }
    }
  }

  lemma {:induction false} RunKeepsSwitch(k: KeeperState, actions: seq<Action>, o: Oracle)
    requires ArmedIffHeld(k)
    ensures ArmedIffHeld(Run(k, actions, o)) && Later(k, Run(k, actions, o))
  {
    if actions != [] {
      RunKeepsSwitch(k, actions[..|actions| - 1], o);
      ApplyKeepsSwitch(Run(k, actions[..|actions| - 1], o), actions[|actions| - 1], o);
    }
  }

  // -------------------------------------------------------------------------
  // Whole runs
  // -------------------------------------------------------------------------

  /** A state some hold reaches, whatever the homeserver answers. */
  ghost predicate Reachable(timing: Timing, o: Oracle, actions: seq<Action>, k: KeeperState) {
    Start(timing, o).Some? && k == Run(Start(timing, o).value, actions, o)
  }

  lemma SwitchArmedIffIdHeld(timing: Timing, o: Oracle, actions: seq<Action>, k: KeeperState)
    requires Reachable(timing, o, actions, k)
    ensures k.sched.leave.Armed? <==> k.delayId.Some?
  {
    hide Start, Run;
    StartHolds(timing, o);
    RunKeepsSwitch(Start(timing, o).value, actions, o);
  }

  /** Once the keeper saw its delayed leave gone without a confirmed membership, or
      saw the membership lapsed (event `i`), every refresh it ever sends (event `j`)
      continues a chain that an acknowledged publication started after that. */
  lemma EndedChainIsNeverResent(timing: Timing, o: Oracle, actions: seq<Action>, k: KeeperState, i: nat, j: nat)
    requires Reachable(timing, o, actions, k)
    requires i < j < |k.trace|
    requires var e := k.trace[i];
             e.LapseSeen? || (e.req.IsLive? && !(e.answer.outcome.Ok? && e.answer.live))
    requires k.trace[j].Asked? && k.trace[j].req.Publish? && k.trace[j].req.kind.Continue?
    ensures i < k.trace[j].req.kind.chain < j
    ensures var start := k.trace[k.trace[j].req.kind.chain];
            start.Asked? && start.req.Publish? && !start.req.kind.Continue? && start.answer.outcome.Ok?
  {
    hide Start, Run;
    StartHolds(timing, o);
    RunKeeps(Start(timing, o).value, actions, o);
    assert GoodRefresh(k.trace, j);
  }

  /** A refresh carries the `created_ts` of the chain it continues: the one an
      in-place rejoin published, or the one the server named for a fresh join. */
  lemma RefreshCarriesItsChainsTs(timing: Timing, o: Oracle, actions: seq<Action>, k: KeeperState, j: nat)
    requires Reachable(timing, o, actions, k)
    requires j < |k.trace| && k.trace[j].Asked? && k.trace[j].req.Publish? && k.trace[j].req.kind.Continue?
    ensures var c := k.trace[j].req.kind.chain; var ts := k.trace[j].req.createdTs;
            && c < j && ts.Some? && k.trace[c].Asked? && k.trace[c].req.Publish? && !k.trace[c].req.kind.Continue?
            && k.trace[c].answer.outcome.Ok?
            && (|| (k.trace[c].req.kind.InPlace? && k.trace[c].req.createdTs == ts)
                || exists a :: c < a < j && k.trace[a].Asked? && k.trace[a].req == OriginTs(c)
                               && k.trace[a].answer.outcome.Ok? && k.trace[a].answer.ts == ts.value)
  {
    hide Start, Run;
    StartHolds(timing, o);
    RunKeeps(Start(timing, o).value, actions, o);
    assert GoodRefresh(k.trace, j);
  }

  /** While no publication has succeeded since the chain was seen to end, the keeper
      holds no chain, and each refresh that falls due publishes a new one; if that
      fails too it is due again after the back-off. */
  lemma FailedRejoinsAreRetried(timing: Timing, o: Oracle, actions: seq<Action>, k: KeeperState, i: nat)
    requires Reachable(timing, o, actions, k)
    requires i < |k.trace|
    requires var e := k.trace[i];
             e.LapseSeen? || (e.req.IsLive? && !(e.answer.outcome.Ok? && e.answer.live))
    requires forall j :: i < j < |k.trace| && k.trace[j].Asked? && k.trace[j].req.Publish? ==>
               k.trace[j].req.kind.Continue? || !k.trace[j].answer.outcome.Ok?
    ensures k.chain.None? && k.createdTs.None?
    ensures k.sched.DueAt(k.clock).Some? && k.sched.DueAt(k.clock).value.Refresh? ==>
              var next := k.Step(o);
              && |next.trace| > |k.trace|
              && next.trace[|k.trace|].Asked?
              && next.trace[|k.trace|].req == Publish(NewChain, None, k.sched.timing.expiry)
              && (next.trace[|k.trace|].Published() ==> next.chain == Some(|k.trace|))
              && (!next.trace[|k.trace|].Published() ==>
                  && next.chain.None?
                  && next.sched.nextRefresh ==
                     next.clock + BackOff(k.sched.timing.retryAfterError, o(|k.trace|).outcome.RetryAfter()))
  {
    hide Start, Run;
    StartHolds(timing, o);
    RunKeeps(Start(timing, o).value, actions, o);
  }
}
