/**
 The delayed leave from its scheduling to the end of the hold
 (crates/aqua-matrix-agent/src/rtc_member.rs): whose id every request carries, and what a
 hold asks of the homeserver when it leaves or hands over.
 */
module RtcEnding {
  import opened Basics
  import opened RtcSchedule
  import opened RtcKeeper
  import opened RtcEffects
  import opened RtcChainSafety

  // -------------------------------------------------------------------------
  // The last requests
  // -------------------------------------------------------------------------

  /** The request takes the membership away. */
  predicate TakesAway(e: Event) { e.Asked? && (e.req.SendLeaveNow? || e.req.ClearMember?) }

  /** A hand-over cancels the delayed leave that is held and asks for nothing else; the id is
      kept exactly if the leave may still be scheduled. Membership and schedule stay. */
  lemma HandOverCancels(k: KeeperState, o: Oracle)
    ensures var n := k.HandOver(o);
            && n.sched == k.sched && n.chain == k.chain && n.createdTs == k.createdTs
            && (k.delayId.None? ==> n == k)
            && (k.delayId.Some? ==>
                  && n.trace == k.trace + [Asked(CancelLeave(k.delayId.value), k.clock, o(|k.trace|))]
                  && n.clock == k.clock + o(|k.trace|).lag
                  && (n.delayId.Some? <==> !o(|k.trace|).outcome.Ok? && !o(|k.trace|).outcome.NotFound?)
                  && (n.delayId.Some? ==> n.delayId == k.delayId))
  {
  }

  /** A leave sends the delayed leave that is held, and clears the membership if none is held
      or that did not work. It keeps no id. */
  lemma LeaveTakesAway(k: KeeperState, o: Oracle)
    ensures var n := k.Leave(o); var sent := o(|k.trace|);
            && n.sched == k.sched && n.chain == k.chain && n.createdTs == k.createdTs && n.delayId.None?
            && n.trace == k.trace
                 + (if k.delayId.None? then [Asked(ClearMember, k.clock, sent)]
                    else if sent.outcome.Ok? then [Asked(SendLeaveNow(k.delayId.value), k.clock, sent)]
                    else [Asked(SendLeaveNow(k.delayId.value), k.clock, sent),
                          Asked(ClearMember, k.clock + sent.lag, o(|k.trace| + 1))])
  {
  }

  // -------------------------------------------------------------------------
  // Whole runs
  // -------------------------------------------------------------------------

  /** The delayed leave was scheduled. */
  predicate Schedules(e: Event) { e.Asked? && e.req.ScheduleLeave? && e.answer.Acked() }

  /** The delayed leave turned out to be gone. */
  predicate FoundGone(e: Event) { e.Asked? && e.req.RestartLeave? && e.answer.outcome.NotFound? }

  /** Event `i` scheduled the leave `id`, and up to position `n` it was neither replaced nor
      found gone. */
  ghost predicate Current(trace: seq<Event>, i: nat, id: nat, n: nat) {
    && i < n <= |trace| && Schedules(trace[i]) && trace[i].answer.delayId == id
    && forall m :: i < m < n ==> !Schedules(trace[m]) && !FoundGone(trace[m])
  }

  /** Up to position `n`, no leave is scheduled that was not found gone later. */
  ghost predicate NoneCurrent(trace: seq<Event>, n: nat)
    requires n <= |trace|
  {
    forall i :: 0 <= i < n && Schedules(trace[i]) ==> exists m :: i < m < n && FoundGone(trace[m])
  }

  /** The delayed leave an event is about. */
  function LeaveOf(e: Event): Option<nat> {
    if !e.Asked? then None
    else
      match e.req
      case RestartLeave(id) => Some(id)
      case SendLeaveNow(id) => Some(id)
      case CancelLeave(id) => Some(id)
      case _ => None
  }

  /** The event is about the current leave, and schedules one only if there is none. */
  ghost predicate InPlaceOf(trace: seq<Event>, j: nat)
    requires j < |trace|
  {
    && (LeaveOf(trace[j]).Some? ==> exists i :: Current(trace, i, LeaveOf(trace[j]).value, j))
    && (trace[j].Asked? && trace[j].req.ScheduleLeave? ==> NoneCurrent(trace, j))
  }

  ghost predicate Orderly(trace: seq<Event>) { forall j :: 0 <= j < |trace| ==> InPlaceOf(trace, j) }

  ghost predicate HoldsCurrent(trace: seq<Event>, delayId: Option<nat>) {
    && Orderly(trace)
    && (delayId.Some? ==> exists i :: Current(trace, i, delayId.value, |trace|))
    && (delayId.None? ==> NoneCurrent(trace, |trace|))
  }

  lemma StillInPlace(trace: seq<Event>, e: Event, j: nat)
    requires j < |trace| && InPlaceOf(trace, j)
    ensures InPlaceOf(trace + [e], j)
  {
    var longer := trace + [e];
    assert forall m :: 0 <= m < |trace| ==> longer[m] == trace[m];
    if LeaveOf(trace[j]).Some? {
      var i :| Current(trace, i, LeaveOf(trace[j]).value, j);
      assert Current(longer, i, LeaveOf(trace[j]).value, j);
    }
    if trace[j].Asked? && trace[j].req.ScheduleLeave? {
      StillNone(trace, e, j);
    }
  }

  lemma StillNone(trace: seq<Event>, e: Event, n: nat)
    requires n <= |trace| && NoneCurrent(trace, n)
    ensures NoneCurrent(trace + [e], n)
  {
    forall i | 0 <= i < n && Schedules((trace + [e])[i])
      ensures exists m :: i < m < n && FoundGone((trace + [e])[m])
    {
      assert Schedules(trace[i]);
      var m :| i < m < n && FoundGone(trace[m]);
      assert FoundGone((trace + [e])[m]);
    }
  }

  /** One more event, about the leave held or none, with what it does to the id held. */
  lemma OneMoreOrderly(trace: seq<Event>, held: Option<nat>, e: Event, after: Option<nat>)
    requires HoldsCurrent(trace, held)
    requires LeaveOf(e).Some? ==> held == LeaveOf(e)
    requires e.Asked? && e.req.ScheduleLeave? ==> held.None?
    requires after == if Schedules(e) then Some(e.answer.delayId) else if FoundGone(e) then None else held
    ensures HoldsCurrent(trace + [e], after)
  {
    hide LeaveOf, FoundGone;
    var longer := trace + [e];
    var n := |trace|;
    assert longer[n] == e && forall m :: 0 <= m < n ==> longer[m] == trace[m];
    forall j | 0 <= j < |longer|
      ensures InPlaceOf(longer, j)
    {
      if j < n {
        StillInPlace(trace, e, j);
      } else {
        NewInPlace(trace, held, e);
      }
    }
    if Schedules(e) {
      assert Current(longer, n, e.answer.delayId, n + 1);
    } else if FoundGone(e) {
      assert NoneCurrent(longer, n + 1);
    } else if held.Some? {
      var i :| Current(trace, i, held.value, n);
      assert Current(longer, i, held.value, n + 1);
    } else {
      StillNone(trace, e, n);
    }
  }

  lemma NewInPlace(trace: seq<Event>, held: Option<nat>, e: Event)
    requires HoldsCurrent(trace, held)
    requires LeaveOf(e).Some? ==> held == LeaveOf(e)
    requires e.Asked? && e.req.ScheduleLeave? ==> held.None?
    ensures InPlaceOf(trace + [e], |trace|)
  {
    hide LeaveOf, Schedules, FoundGone;
    var longer := trace + [e];
    assert longer[|trace|] == e;
    if LeaveOf(e).Some? {
      var i :| Current(trace, i, held.value, |trace|);
      assert Current(longer, i, held.value, |trace|);
    }
    if held.None? {
      StillNone(trace, e, |trace|);
    }
  }

  ghost predicate Keeps(k: KeeperState) { HoldsCurrent(k.trace, k.delayId) && ArmedIffHeld(k) }

  /** A request that is not about the delayed leave. */
  lemma AskElse(k: KeeperState, req: Request, o: Oracle)
    requires HoldsCurrent(k.trace, k.delayId)
    requires req.Publish? || req.OriginTs? || req.IsLive? || req.ClearMember?
    ensures HoldsCurrent(k.Ask(req, o).trace, k.delayId)
  {
    hide HoldsCurrent;
    OneMoreOrderly(k.trace, k.delayId, Asked(req, k.clock, k.Next(o)), k.delayId);
  }

  lemma AnchorOrderly(k: KeeperState, o: Oracle)
    requires HoldsCurrent(k.trace, k.delayId)
    ensures HoldsCurrent(k.AnchorCreatedTs(o).trace, k.delayId) && k.AnchorCreatedTs(o).delayId == k.delayId
  {
    hide HoldsCurrent;
    if k.chain.Some? {
      AskElse(k, OriginTs(k.chain.value), o);
    }
  }

  lemma ArmOrderly(k: KeeperState, o: Oracle)
    requires HoldsCurrent(k.trace, k.delayId) && k.delayId.None?
    ensures HoldsCurrent(k.ArmLeave(o).trace, k.ArmLeave(o).delayId)
  {
    hide HoldsCurrent;
    OneMoreOrderly(k.trace, k.delayId, Asked(ScheduleLeave(k.sched.timing.leaveDelay), k.clock, k.Next(o)),
                   k.ArmLeave(o).delayId);
  }

  lemma RejoinOrderly(k: KeeperState, o: Oracle)
    requires HoldsCurrent(k.trace, k.delayId)
    ensures HoldsCurrent(k.Rejoin(o).trace, k.delayId) && k.Rejoin(o).delayId == k.delayId
  {
    hide HoldsCurrent;
    var bare := k.(chain := None, createdTs := None);
    AskElse(bare, Publish(NewChain, None, k.sched.timing.expiry), o);
    var asked := bare.Ask(Publish(NewChain, None, k.sched.timing.expiry), o);
    AnchorOrderly(asked.(chain := Some(|k.trace|), sched := k.sched.Rejoined(asked.clock)), o);
  }

  lemma RefreshOrderly(k: KeeperState, expires: nat, o: Oracle)
    requires HoldsCurrent(k.trace, k.delayId)
    ensures HoldsCurrent(k.Refresh(expires, o).trace, k.delayId) && k.Refresh(expires, o).delayId == k.delayId
  {
    hide HoldsCurrent, KeeperState.Rejoin;
    RejoinOrderly(k, o);
    var lapsed := k.(trace := k.trace + [LapseSeen(k.clock)]);
    OneMoreOrderly(k.trace, k.delayId, LapseSeen(k.clock), k.delayId);
    RejoinOrderly(lapsed, o);
    AnchorOrderly(k, o);
    var a := if k.createdTs.None? then k.AnchorCreatedTs(o) else k;
    RejoinOrderly(a, o);
    if a.chain.Some? {
      AskElse(a, Publish(Continue(a.chain.value), a.createdTs, expires), o);
    }
  }

  lemma RecoverOrderly(k: KeeperState, o: Oracle)
    requires HoldsCurrent(k.trace, k.delayId) && k.delayId.None?
    ensures HoldsCurrent(k.RecoverLeave(o).trace, k.RecoverLeave(o).delayId)
  {
    hide HoldsCurrent, KeeperState.Rejoin, KeeperState.ArmLeave;
    AskElse(k, IsLive, o);
    var asked := k.Ask(IsLive, o);
    var lost := asked.(sched := k.sched.LeaveLost(asked.clock));
    ArmOrderly(lost, o);
    RejoinOrderly(lost.ArmLeave(o), o);
  }

  lemma RestartOrderly(k: KeeperState, o: Oracle)
    requires HoldsCurrent(k.trace, k.delayId)
    ensures HoldsCurrent(k.RestartLeave(o).trace, k.RestartLeave(o).delayId)
  {
    hide HoldsCurrent, KeeperState.RecoverLeave;
    if k.delayId.Some? {
      var e := Asked(Request.RestartLeave(k.delayId.value), k.clock, k.Next(o));
      OneMoreOrderly(k.trace, k.delayId, e, if FoundGone(e) then None else k.delayId);
      if k.Next(o).outcome.NotFound? {
        RecoverOrderly(k.Ask(Request.RestartLeave(k.delayId.value), o).(delayId := None), o);
      }
    }
  }

  lemma InPlaceOrderly(k: KeeperState, o: Oracle)
    requires HoldsCurrent(k.trace, k.delayId)
    ensures HoldsCurrent(k.RejoinInPlace(o).trace, k.delayId) && k.RejoinInPlace(o).delayId == k.delayId
  {
    hide HoldsCurrent;
    AnchorOrderly(k, o);
    var a := if k.createdTs.None? then k.AnchorCreatedTs(o) else k;
    AskElse(a, Publish(InPlace, Some(a.NextCreatedTs(o)), k.sched.timing.expiry), o);
  }

  lemma ApplyOrderly(k: KeeperState, a: Action, o: Oracle)
    requires Keeps(k)
    ensures Keeps(Apply(k, a, o))
  {
    hide HoldsCurrent, KeeperState.ArmLeave, KeeperState.RestartLeave, KeeperState.Refresh, KeeperState.RejoinInPlace;
    ApplyKeepsSwitch(k, a, o);
    match a {
      case Wait(_) =>
      case Rejoin => InPlaceOrderly(k, o);
      case Act =>
        match k.sched.DueAt(k.clock) {
          case Some(ArmLeave) => ArmOrderly(k, o);
          case Some(RestartLeave) => RestartOrderly(k, o);
          case Some(Refresh(expires)) => RefreshOrderly(k, expires, o);
          case None =>
        }
    }
  }

  lemma StartOrderly(timing: Timing, o: Oracle)
    requires Start(timing, o).Some?
    ensures Keeps(Start(timing, o).value)
  {
    hide HoldsCurrent, KeeperState.AnchorCreatedTs, KeeperState.ArmLeave;
    StartHolds(timing, o);
    var e := Asked(Publish(NewChain, None, timing.expiry), 0, o(0));
    var k := KeeperState(JoinedAt(timing, o(0).lag), None, Some(0), None, o(0).lag, [e]);
    NothingYet();
    OneMoreOrderly([], None, e, None);
    assert [] + [e] == [e];
    AnchorOrderly(k, o);
    ArmOrderly(k.AnchorCreatedTs(o), o);
  }

  lemma NothingYet()
    ensures HoldsCurrent([], None)
  {
  }

  lemma {:induction false} RunOrderly(k: KeeperState, actions: seq<Action>, o: Oracle)
    requires Keeps(k)
    ensures Keeps(Run(k, actions, o))
  {
    hide Keeps, Apply;
    if actions != [] {
      RunOrderly(k, actions[..|actions| - 1], o);
      ApplyOrderly(Run(k, actions[..|actions| - 1], o), actions[|actions| - 1], o);
    }
  }

  /** How a hold ends, or that it goes on. */
  datatype End = GoesOn | Leaves | HandsOver

  function Ended(k: KeeperState, end: End, o: Oracle): KeeperState {
    match end
    case GoesOn => k
    case Leaves => k.Leave(o)
    case HandsOver => k.HandOver(o)
  }

  /** Over every run and however it ends: each restart, cancel and "send now" is about the
      leave that was scheduled last and has not been found gone, and a leave is scheduled
      only when there is none, so none is ever left behind unnoticed. */
  lemma OneLeaveAtATime(timing: Timing, o: Oracle, actions: seq<Action>, k: KeeperState, end: End, j: nat)
    requires Reachable(timing, o, actions, k) && j < |Ended(k, end, o).trace|
    ensures InPlaceOf(Ended(k, end, o).trace, j)
  {
    hide Start, Run, InPlaceOf;
    StartOrderly(timing, o);
    RunOrderly(Start(timing, o).value, actions, o);
    LastOrderly(k, end, o);
  }

  lemma LastOrderly(k: KeeperState, end: End, o: Oracle)
    requires HoldsCurrent(k.trace, k.delayId)
    ensures Orderly(Ended(k, end, o).trace)
  {
    hide Orderly;
    if !end.GoesOn? && k.delayId.Some? {
      var id := k.delayId.value;
      var e := Asked(if end.Leaves? then SendLeaveNow(id) else CancelLeave(id), k.clock, k.Next(o));
      OneMoreOrderly(k.trace, k.delayId, e, k.delayId);
      var asked := k.Ask(e.req, o);
      AskElse(asked, ClearMember, o);
    } else if end.Leaves? {
      AskElse(k, ClearMember, o);
    }
  }

  ghost predicate NeverTakesAway(trace: seq<Event>) { forall j :: 0 <= j < |trace| ==> !TakesAway(trace[j]) }

  lemma NoneTaken(trace: seq<Event>, e: Event)
    requires NeverTakesAway(trace)
    ensures NeverTakesAway(trace + [e]) <==> !TakesAway(e)
  {
    assert (trace + [e])[|trace|] == e;
    assert forall j :: 0 <= j < |trace| ==> (trace + [e])[j] == trace[j];
  }

  lemma AskTakesNothing(k: KeeperState, req: Request, o: Oracle)
    requires NeverTakesAway(k.trace) && !req.SendLeaveNow? && !req.ClearMember?
    ensures NeverTakesAway(k.Ask(req, o).trace)
  {
    NoneTaken(k.trace, Asked(req, k.clock, k.Next(o)));
  }

  lemma AnchorTakesNothing(k: KeeperState, o: Oracle)
    requires NeverTakesAway(k.trace)
    ensures NeverTakesAway(k.AnchorCreatedTs(o).trace)
  {
    hide NeverTakesAway;
    if k.chain.Some? {
      AskTakesNothing(k, OriginTs(k.chain.value), o);
    }
  }

  lemma RejoinTakesNothing(k: KeeperState, o: Oracle)
    requires NeverTakesAway(k.trace)
    ensures NeverTakesAway(k.Rejoin(o).trace)
  {
    hide NeverTakesAway;
    var bare := k.(chain := None, createdTs := None);
    AskTakesNothing(bare, Publish(NewChain, None, k.sched.timing.expiry), o);
    var asked := bare.Ask(Publish(NewChain, None, k.sched.timing.expiry), o);
    AnchorTakesNothing(asked.(chain := Some(|k.trace|), sched := k.sched.Rejoined(asked.clock)), o);
  }

  lemma RefreshTakesNothing(k: KeeperState, expires: nat, o: Oracle)
    requires NeverTakesAway(k.trace)
    ensures NeverTakesAway(k.Refresh(expires, o).trace)
  {
    hide NeverTakesAway, KeeperState.Rejoin;
    RejoinTakesNothing(k, o);
    NoneTaken(k.trace, LapseSeen(k.clock));
    RejoinTakesNothing(k.(trace := k.trace + [LapseSeen(k.clock)]), o);
    AnchorTakesNothing(k, o);
    var a := if k.createdTs.None? then k.AnchorCreatedTs(o) else k;
    RejoinTakesNothing(a, o);
    if a.chain.Some? {
      AskTakesNothing(a, Publish(Continue(a.chain.value), a.createdTs, expires), o);
    }
  }

  lemma RestartTakesNothing(k: KeeperState, o: Oracle)
    requires NeverTakesAway(k.trace)
    ensures NeverTakesAway(k.RestartLeave(o).trace)
  {
    hide NeverTakesAway, KeeperState.Rejoin;
    if k.delayId.Some? {
      AskTakesNothing(k, Request.RestartLeave(k.delayId.value), o);
      var gone := k.Ask(Request.RestartLeave(k.delayId.value), o).(delayId := None);
      AskTakesNothing(gone, IsLive, o);
      var asked := gone.Ask(IsLive, o);
      var lost := asked.(sched := k.sched.LeaveLost(asked.clock));
      AskTakesNothing(lost, ScheduleLeave(k.sched.timing.leaveDelay), o);
      RejoinTakesNothing(lost.ArmLeave(o), o);
    }
  }

  lemma StepTakesNothing(k: KeeperState, a: Action, o: Oracle)
    requires NeverTakesAway(k.trace)
    ensures NeverTakesAway(Apply(k, a, o).trace)
  {
    hide NeverTakesAway, KeeperState.RestartLeave, KeeperState.Refresh;
    AskTakesNothing(k, ScheduleLeave(k.sched.timing.leaveDelay), o);
    RestartTakesNothing(k, o);
    AnchorTakesNothing(k, o);
    var anchored := if k.createdTs.None? then k.AnchorCreatedTs(o) else k;
    AskTakesNothing(anchored, Publish(InPlace, Some(anchored.NextCreatedTs(o)), k.sched.timing.expiry), o);
    match k.sched.DueAt(k.clock) {
      case Some(Refresh(expires)) => RefreshTakesNothing(k, expires, o);
      case _ =>
    }
  }

  lemma {:induction false} RunTakesNothing(k: KeeperState, actions: seq<Action>, o: Oracle)
    requires NeverTakesAway(k.trace)
    ensures NeverTakesAway(Run(k, actions, o).trace)
  {
    hide NeverTakesAway, Apply;
    if actions != [] {
      RunTakesNothing(k, actions[..|actions| - 1], o);
      StepTakesNothing(Run(k, actions[..|actions| - 1], o), actions[|actions| - 1], o);
    }
  }

  lemma StartTakesNothing(timing: Timing, o: Oracle)
    requires Start(timing, o).Some?
    ensures NeverTakesAway(Start(timing, o).value.trace)
  {
  }

  /** A hold takes the membership away only when it leaves: not while it goes on, and not
      when it hands over to the next hold. */
  lemma OnlyLeavingTakesAway(timing: Timing, o: Oracle, actions: seq<Action>, k: KeeperState, end: End)
    requires Reachable(timing, o, actions, k)
    ensures NeverTakesAway(Ended(k, end, o).trace) <==> !end.Leaves?
  {
    hide Start, Run, NeverTakesAway;
    StartTakesNothing(timing, o);
    RunTakesNothing(Start(timing, o).value, actions, o);
    if end.HandsOver? && k.delayId.Some? {
      AskTakesNothing(k, CancelLeave(k.delayId.value), o);
    }
    if end.Leaves? {
      LeaveTakesAway(k, o);
      TakenAway(k.Leave(o).trace, |k.trace|);
    }
  }

  lemma TakenAway(trace: seq<Event>, j: nat)
    requires j < |trace| && TakesAway(trace[j])
    ensures !NeverTakesAway(trace)
  {
  }
}
