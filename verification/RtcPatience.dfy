/**
 How long a failed request is left alone (crates/aqua-matrix-agent/src/rtc_member.rs,
 `backoff` and the operations that use it): our own interval and the wait the homeserver
 asked for are both observed, and nothing longer than the longer of them.
 */
module RtcPatience {
  import opened Basics
  import opened RtcSchedule
  import opened RtcKeeper
  import opened RtcEffects
  import opened RtcChainSafety

  /** The deadline after a failure at `now`: not before our own wait is over, not before the
      server's is, and at one of these two instants. */
  ghost predicate Waited(deadline: nat, now: nat, ours: nat, servers: Option<nat>) {
    && now + ours <= deadline
    && (servers.Some? ==> now + servers.value <= deadline)
    && (deadline == now + ours || (servers.Some? && deadline == now + servers.value))
  }

  lemma BackOffWaits(now: nat, ours: nat, servers: Option<nat>)
    ensures Waited(now + BackOff(ours, servers), now, ours, servers)
  {
  }

  /** The request of an event was refused, or is not known to have been carried out. */
  ghost predicate Refused(e: Event) { e.Asked? && !e.answer.Acked() }

  /** An arming that failed is tried again after the retry interval or the server's wait. */
  lemma FailedArmWaits(k: KeeperState, o: Oracle)
    requires k.sched.DueAt(k.clock) == Some(ArmLeave)
    requires !o(|k.trace|).outcome.Ok? && !o(|k.trace|).outcome.Unsupported?
    ensures var n := k.Step(o);
            && n.trace == k.trace + [Asked(ScheduleLeave(k.sched.timing.leaveDelay), k.clock, o(|k.trace|))]
            && n.sched.leave.Unarmed? && SameMembership(k, n) && n.delayId == k.delayId
            && Waited(n.sched.leave.retryAt, n.clock, k.sched.timing.retryAfterError, o(|k.trace|).outcome.RetryAfter())
  {
    BackOffWaits(k.Step(o).clock, k.sched.timing.retryAfterError, o(|k.trace|).outcome.RetryAfter());
  }

  /** A restart that failed is tried again after the shorter of the retry and the restart
      interval, or the server's wait; the delayed leave is still held. */
  lemma FailedRestartWaits(k: KeeperState, o: Oracle)
    requires k.sched.DueAt(k.clock) == Some(Due.RestartLeave) && k.delayId.Some?
    requires !o(|k.trace|).outcome.Ok? && !o(|k.trace|).outcome.NotFound?
    ensures var n := k.Step(o); var t := k.sched.timing;
            && n.trace == k.trace + [Asked(Request.RestartLeave(k.delayId.value), k.clock, o(|k.trace|))]
            && n.sched.leave.Armed? && SameMembership(k, n) && n.delayId == k.delayId
            && Waited(n.sched.leave.nextRestart, n.clock,
                      if t.retryAfterError <= t.leaveRestartEvery then t.retryAfterError else t.leaveRestartEvery,
                      o(|k.trace|).outcome.RetryAfter())
  {
    BackOffWaits(k.Step(o).clock, Min(k.sched.timing.retryAfterError, k.sched.timing.leaveRestartEvery),
                 o(|k.trace|).outcome.RetryAfter());
  }

  /** The switch is as it was; and if the last request is a publication that failed, the next
      refresh waits for it. */
  ghost predicate RetriedLater(k: KeeperState, n: KeeperState) {
    && |k.trace| < |n.trace| && SameSwitch(k, n) && n.sched.timing == k.sched.timing
    && var last := n.trace[|n.trace| - 1];
       last.Asked?
       && (last.req.Publish? && Refused(last) ==>
             Waited(n.sched.nextRefresh, n.clock, n.sched.timing.retryAfterError, last.answer.outcome.RetryAfter()))
  }

  lemma FailedRejoinWaits(k: KeeperState, o: Oracle)
    ensures RetriedLater(k, k.Rejoin(o))
  {
    BackOffWaits(k.clock + o(|k.trace|).lag, k.sched.timing.retryAfterError, o(|k.trace|).outcome.RetryAfter());
  }

  lemma FailedResendWaits(k: KeeperState, expires: nat, o: Oracle)
    requires k.chain.Some? && k.createdTs.Some?
    ensures RetriedLater(k, k.Resend(expires, o))
  {
    BackOffWaits(k.clock + o(|k.trace|).lag, k.sched.timing.retryAfterError, o(|k.trace|).outcome.RetryAfter());
  }

  /** A refresh, whatever it came to, whose last request was a publication that failed is
      tried again after the retry interval or the server's wait. */
  lemma FailedRefreshWaits(k: KeeperState, expires: nat, o: Oracle)
    requires k.sched.DueAt(k.clock) == Some(Due.Refresh(expires))
    ensures RetriedLater(k, k.Step(o))
  {
    hide Refused, Waited, KeeperState.Rejoin, KeeperState.Resend;
    FailedRejoinWaits(k, o);
    FailedRejoinWaits(k.(trace := k.trace + [LapseSeen(k.clock)]), o);
    var a := if k.createdTs.None? then k.AnchorCreatedTs(o) else k;
    FailedRejoinWaits(a, o);
    if a.chain.Some? && a.createdTs.Some? {
      FailedResendWaits(a, expires, o);
    }
  }

  // -------------------------------------------------------------------------
  // Whole runs
  // -------------------------------------------------------------------------

  /** The two things that are kept up: the switch, by scheduling or restarting the delayed
      leave, and the membership, by publishing it again. */
  datatype Track = Switch | Membership

  ghost predicate Concerns(e: Event, t: Track) {
    && e.Asked?
    && match t
       case Switch => e.req.ScheduleLeave? || e.req.RestartLeave?
       case Membership => e.req.Publish? && !e.req.kind.InPlace?
  }

  /** The server refused the request and said how long to wait. */
  ghost predicate PutOff(e: Event, t: Track) {
    Concerns(e, t) && e.answer.outcome.RateLimited? && e.answer.outcome.retryAfter.Some?
  }

  /** When the wait is over that the server asked for. */
  ghost function Until(e: Event, t: Track): nat
    requires PutOff(e, t)
  {
    e.sentAt + e.answer.lag + e.answer.outcome.retryAfter.value
  }

  /** What puts an end to the wait for a publication: a chain that was started in place, or
      a delayed leave found gone without a confirmed membership. The switch has none. */
  ghost predicate Ends(e: Event, t: Track) { t.Membership? && (e.StartsChain() || e.GoneSeen()) }

  ghost predicate Lasts(trace: seq<Event>, t: Track, i: nat, n: nat) {
    forall m :: i < m < n && m < |trace| ==> !Ends(trace[m], t)
  }

  /** Whoever was put off at `i` was left alone until the wait was over. */
  ghost predicate Patient(trace: seq<Event>, t: Track) {
    forall i, j :: 0 <= i < j < |trace| && PutOff(trace[i], t) && Concerns(trace[j], t) && Lasts(trace, t, i, j) ==>
                     Until(trace[i], t) <= trace[j].sentAt
  }

  ghost predicate Deadline(s: Sched, t: Track, at: nat) {
    match t
    case Membership => at <= s.nextRefresh
    case Switch =>
      match s.leave
      case Disabled => true
      case Unarmed(retryAt) => at <= retryAt
      case Armed(nextRestart) => at <= nextRestart
  }

  /** Every wait that lasts is over or ends before the deadline. */
  ghost predicate Ahead(k: KeeperState, t: Track) {
    forall i :: 0 <= i < |k.trace| && PutOff(k.trace[i], t) && Lasts(k.trace, t, i, |k.trace|) ==>
                  Until(k.trace[i], t) <= k.clock || Deadline(k.sched, t, Until(k.trace[i], t))
  }

  /** ... or is over already. */
  ghost predicate Over(k: KeeperState, t: Track) {
    forall i :: 0 <= i < |k.trace| && PutOff(k.trace[i], t) && Lasts(k.trace, t, i, |k.trace|) ==>
                  Until(k.trace[i], t) <= k.clock
  }

  ghost predicate Keeps(k: KeeperState, t: Track) { Patient(k.trace, t) && Ahead(k, t) }

  lemma LastsLess(trace: seq<Event>, e: Event, t: Track, i: nat, n: nat)
    requires n <= |trace|
    ensures Lasts(trace + [e], t, i, n) <==> Lasts(trace, t, i, n)
    ensures Lasts(trace + [e], t, i, |trace| + 1) ==> Lasts(trace, t, i, |trace|)
    ensures i < |trace| && Lasts(trace + [e], t, i, |trace| + 1) ==> !Ends(e, t)
  {
    var longer := trace + [e];
    assert forall m :: 0 <= m < |trace| ==> longer[m] == trace[m];
    assert longer[|trace|] == e;
  }

  /** One more event, at a moment when no wait for it is left. */
  lemma OneMorePatient(k: KeeperState, e: Event, t: Track)
    requires Patient(k.trace, t) && (Concerns(e, t) ==> e.sentAt == k.clock && Over(k, t))
    ensures Patient(k.trace + [e], t)
  {
    hide Until, Lasts;
    var longer := k.trace + [e];
    forall i, j | 0 <= i < j < |longer| && PutOff(longer[i], t) && Concerns(longer[j], t) && Lasts(longer, t, i, j)
      ensures Until(longer[i], t) <= longer[j].sentAt
    {
      LastsLess(k.trace, e, t, i, j);
    }
  }

  /** An event that is none of the track's own requests. */
  lemma Aside(k: KeeperState, e: Event, clock: nat, t: Track)
    requires Keeps(k, t) && !Concerns(e, t) && k.clock <= clock
    ensures var n := k.(trace := k.trace + [e], clock := clock);
            Keeps(n, t) && (Over(k, t) || Ends(e, t) ==> Over(n, t))
  {
    hide Until, Lasts, Concerns, Ends, Deadline;
    OneMorePatient(k, e, t);
    var longer := k.trace + [e];
    forall i | 0 <= i < |longer| && PutOff(longer[i], t) && Lasts(longer, t, i, |longer|)
      ensures i < |k.trace| && longer[i] == k.trace[i] && Lasts(k.trace, t, i, |k.trace|) && !Ends(e, t)
    {
      LastsLess(k.trace, e, t, i, |k.trace|);
    }
  }

  /** The track is about the trace, the clock and the schedule only. */
  lemma SameTrack(k: KeeperState, n: KeeperState, t: Track)
    requires n.trace == k.trace && n.clock == k.clock
    ensures Over(n, t) <==> Over(k, t)
    ensures Over(k, t) && Keeps(k, t) ==> Keeps(n, t)
    ensures (if t.Switch? then n.sched.leave == k.sched.leave else n.sched.nextRefresh == k.sched.nextRefresh) ==>
              (Keeps(k, t) ==> Keeps(n, t))
  {
    hide Until, Lasts, PutOff;
  }

  lemma AskAside(k: KeeperState, req: Request, o: Oracle, t: Track)
    requires Keeps(k, t) && !Concerns(Asked(req, k.clock, k.Next(o)), t)
    ensures Keeps(k.Ask(req, o), t)
    ensures Over(k, t) || Ends(Asked(req, k.clock, k.Next(o)), t) ==> Over(k.Ask(req, o), t)
  {
    hide Keeps, Over, Ends, Concerns;
    Aside(k, Asked(req, k.clock, k.Next(o)), k.clock + k.Next(o).lag, t);
  }

  /** A request of the track itself, and the schedule that its answer leads to. */
  lemma AskOwn(k: KeeperState, req: Request, o: Oracle, t: Track, s: Sched)
    requires Patient(k.trace, t) && Over(k, t) && Concerns(Asked(req, k.clock, k.Next(o)), t)
    requires var e := Asked(req, k.clock, k.Next(o)); PutOff(e, t) ==> Deadline(s, t, Until(e, t))
    ensures Keeps(k.Ask(req, o).(sched := s), t)
    ensures !PutOff(Asked(req, k.clock, k.Next(o)), t) ==> Over(k.Ask(req, o), t)
  {
    hide Until, Lasts, Concerns, Ends, Deadline, PutOff;
    var e := Asked(req, k.clock, k.Next(o));
    OneMorePatient(k, e, t);
    forall i: nat | i < |k.trace|
      ensures Lasts(k.trace + [e], t, i, |k.trace| + 1) ==> Lasts(k.trace, t, i, |k.trace|)
    {
      LastsLess(k.trace, e, t, i, |k.trace|);
    }
  }

  lemma DueIsOver(k: KeeperState, t: Track)
    requires Keeps(k, t)
    requires if t.Switch? then k.sched.LeaveDue(k.clock) else k.sched.nextRefresh <= k.clock
    ensures Over(k, t)
  {
    hide PutOff, Until, Lasts;
  }

  lemma ArmIsPatient(k: KeeperState, o: Oracle, t: Track)
    requires Keeps(k, t) && (t.Switch? ==> Over(k, t))
    ensures Keeps(k.ArmLeave(o), t) && (t.Membership? && Over(k, t) ==> Over(k.ArmLeave(o), t))
  {
    hide Over, Patient, Ahead;
    var req := ScheduleLeave(k.sched.timing.leaveDelay);
    if t.Switch? {
      AskOwn(k, req, o, t, k.ArmLeave(o).sched);
      SameTrack(k.Ask(req, o).(sched := k.ArmLeave(o).sched), k.ArmLeave(o), t);
    } else {
      AskAside(k, req, o, t);
      SameTrack(k.Ask(req, o), k.ArmLeave(o), t);
    }
  }

  lemma AnchorIsPatient(k: KeeperState, o: Oracle, t: Track)
    requires Keeps(k, t)
    ensures Keeps(k.AnchorCreatedTs(o), t) && (Over(k, t) ==> Over(k.AnchorCreatedTs(o), t))
  {
    hide Keeps, Over;
    if k.chain.Some? {
      AskAside(k, OriginTs(k.chain.value), o, t);
      SameTrack(k.Ask(OriginTs(k.chain.value), o), k.AnchorCreatedTs(o), t);
    }
  }

  /** A publication by the keeper itself, and what it makes of the schedule. */
  lemma PublishIsPatient(k: KeeperState, req: Request, o: Oracle, t: Track, n: KeeperState)
    requires Keeps(k, t) && (t.Membership? ==> Over(k, t)) && req.Publish? && !req.kind.InPlace?
    requires n.trace == k.Ask(req, o).trace && n.clock == k.Ask(req, o).clock && n.sched.leave == k.sched.leave
    requires !k.Next(o).Acked() ==>
               n.sched.nextRefresh == n.clock + BackOff(k.sched.timing.retryAfterError, k.Next(o).outcome.RetryAfter())
    ensures Keeps(n, t)
  {
    hide Over, Patient, Ahead;
    if t.Membership? {
      AskOwn(k, req, o, t, n.sched);
      SameTrack(k.Ask(req, o).(sched := n.sched), n, t);
    } else {
      AskAside(k, req, o, t);
      SameTrack(k.Ask(req, o), n, t);
    }
  }

  lemma RejoinIsPatient(k: KeeperState, o: Oracle, t: Track)
    requires Keeps(k, t) && (t.Membership? ==> Over(k, t))
    ensures Keeps(k.Rejoin(o), t)
  {
    hide Over, Keeps;
    var req := Publish(NewChain, None, k.sched.timing.expiry);
    var asked := k.(chain := None, createdTs := None).Ask(req, o);
    if k.Next(o).Acked() {
      var joined := asked.(chain := Some(|k.trace|), sched := k.sched.Rejoined(asked.clock));
      PublishIsPatient(k, req, o, t, joined);
      AnchorIsPatient(joined, o, t);
    } else {
      PublishIsPatient(k, req, o, t, k.Rejoin(o));
    }
  }

  lemma RefreshIsPatient(k: KeeperState, expires: nat, o: Oracle, t: Track)
    requires Keeps(k, t) && k.sched.nextRefresh <= k.clock
    ensures Keeps(k.Refresh(expires, o), t)
  {
    hide Over, Keeps, KeeperState.Rejoin;
    if t.Membership? {
      DueIsOver(k, t);
    }
    if k.chain.None? {
      RejoinIsPatient(k, o, t);
    } else if k.clock >= k.sched.validUntil {
      Aside(k, LapseSeen(k.clock), k.clock, t);
      RejoinIsPatient(k.(trace := k.trace + [LapseSeen(k.clock)]), o, t);
    } else {
      AnchorIsPatient(k, o, t);
      var a := if k.createdTs.None? then k.AnchorCreatedTs(o) else k;
      if a.createdTs.None? {
        RejoinIsPatient(a, o, t);
      } else {
        PublishIsPatient(a, Publish(Continue(a.chain.value), a.createdTs, expires), o, t, a.Resend(expires, o));
      }
    }
  }

  /** A rejoin that was asked for is no retry; if it works, it ends the wait for one. */
  lemma InPlaceIsPatient(k: KeeperState, o: Oracle, t: Track)
    requires Keeps(k, t)
    ensures Keeps(k.RejoinInPlace(o), t)
  {
    hide Over, Keeps;
    AnchorIsPatient(k, o, t);
    var a := if k.createdTs.None? then k.AnchorCreatedTs(o) else k;
    var req := Publish(InPlace, Some(a.NextCreatedTs(o)), k.sched.timing.expiry);
    AskAside(a, req, o, t);
    SameTrack(a.Ask(req, o), k.RejoinInPlace(o), t);
  }

  lemma RecoverIsPatient(k: KeeperState, o: Oracle, t: Track)
    requires Keeps(k, t) && (t.Switch? ==> Over(k, t))
    ensures Keeps(k.RecoverLeave(o), t)
  {
    hide Over, Keeps, KeeperState.Rejoin, KeeperState.ArmLeave;
    AskAside(k, IsLive, o, t);
    var asked := k.Ask(IsLive, o);
    var lost := asked.(sched := k.sched.LeaveLost(asked.clock));
    SameTrack(asked, lost, t);
    ArmIsPatient(lost, o, t);
    if !k.Next(o).ConfirmsLive() {
      RejoinIsPatient(lost.ArmLeave(o), o, t);
    }
  }

  lemma RestartIsPatient(k: KeeperState, o: Oracle, t: Track)
    requires Keeps(k, t) && k.sched.LeaveDue(k.clock)
    ensures Keeps(k.RestartLeave(o), t)
  {
    hide Over, Patient, Ahead, KeeperState.RecoverLeave;
    if t.Switch? {
      DueIsOver(k, t);
    }
    SameTrack(k, k.(sched := k.sched.LeaveLost(k.clock)), t);
    if k.delayId.Some? {
      var req := Request.RestartLeave(k.delayId.value);
      var n := k.Ask(req, o);
      if t.Switch? {
        AskOwn(k, req, o, t, if k.Next(o).outcome.NotFound? then k.sched else k.RestartLeave(o).sched);
      } else {
        AskAside(k, req, o, t);
      }
      if k.Next(o).outcome.NotFound? {
        SameTrack(n, n.(delayId := None), t);
        RecoverIsPatient(n.(delayId := None), o, t);
      } else {
        SameTrack(n.(sched := if t.Switch? then k.RestartLeave(o).sched else k.sched), k.RestartLeave(o), t);
      }
    }
  }

  lemma ApplyIsPatient(k: KeeperState, a: Action, o: Oracle, t: Track)
    requires Keeps(k, t)
    ensures Keeps(Apply(k, a, o), t)
  {
    hide KeeperState.RestartLeave, KeeperState.ArmLeave, KeeperState.Refresh, KeeperState.RejoinInPlace, Over, Patient,
         PutOff, Until, Lasts;
    match a {
      case Wait(_) =>
      case Rejoin => InPlaceIsPatient(k, o, t);
      case Act =>
        if t.Switch? && k.sched.LeaveDue(k.clock) {
          DueIsOver(k, t);
        }
        match k.sched.DueAt(k.clock) {
          case Some(ArmLeave) => ArmIsPatient(k, o, t);
          case Some(RestartLeave) => RestartIsPatient(k, o, t);
          case Some(Refresh(expires)) => RefreshIsPatient(k, expires, o, t);
          case None =>
        }
    }
  }

  lemma StartIsPatient(timing: Timing, o: Oracle, t: Track)
    requires Start(timing, o).Some?
    ensures Keeps(Start(timing, o).value, t)
  {
    hide KeeperState.AnchorCreatedTs, KeeperState.ArmLeave;
    var e := Asked(Publish(NewChain, None, timing.expiry), 0, o(0));
    var k := KeeperState(JoinedAt(timing, o(0).lag), None, Some(0), None, o(0).lag, [e]);
    assert [] + [e] == [e];
    AnchorIsPatient(k, o, t);
    ArmIsPatient(k.AnchorCreatedTs(o), o, t);
  }

  lemma {:induction false} RunIsPatient(k: KeeperState, actions: seq<Action>, o: Oracle, t: Track)
    requires Keeps(k, t)
    ensures Keeps(Run(k, actions, o), t)
  {
    hide Keeps, Apply;
    if actions != [] {
      RunIsPatient(k, actions[..|actions| - 1], o, t);
      ApplyIsPatient(Run(k, actions[..|actions| - 1], o), actions[|actions| - 1], o, t);
    }
  }

  /** Over every run: once the homeserver has put off a request about the switch or a
      refresh of the membership, no such request is sent before the wait it asked for is
      over, counted from its answer; a refresh may come sooner only after a rejoin in place
      or after the delayed leave was found gone without a confirmed membership. */
  lemma ServersWaitIsObserved(timing: Timing, o: Oracle, actions: seq<Action>, k: KeeperState, t: Track, i: nat, j: nat)
    requires Reachable(timing, o, actions, k) && i < j < |k.trace|
    requires PutOff(k.trace[i], t) && Concerns(k.trace[j], t) && Lasts(k.trace, t, i, j)
    ensures Until(k.trace[i], t) <= k.trace[j].sentAt
  {
    hide Start, Run;
    StartIsPatient(timing, o, t);
    RunIsPatient(Start(timing, o).value, actions, o, t);
  }

  /** In particular, restarts of the delayed leave keep the distance the server asked for. */
  lemma RestartsKeepTheirDistance(timing: Timing, o: Oracle, actions: seq<Action>, k: KeeperState,
                                  i: nat, j: nat, wait: nat)
    requires Reachable(timing, o, actions, k) && i < j < |k.trace|
    requires k.trace[i].Asked? && k.trace[i].req.RestartLeave? && k.trace[i].answer.outcome == RateLimited(Some(wait))
    requires k.trace[j].Asked? && (k.trace[j].req.RestartLeave? || k.trace[j].req.ScheduleLeave?)
    ensures k.trace[i].sentAt + k.trace[i].answer.lag + wait <= k.trace[j].sentAt
  {
    hide Start, Run, Reachable;
    ServersWaitIsObserved(timing, o, actions, k, Switch, i, j);
  }
}
