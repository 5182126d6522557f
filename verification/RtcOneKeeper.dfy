/**
 The keeper of the take-over machine is the keeper that drives the homeserver: the phases
 its task goes through in RtcTakeover are the requests that RtcKeeper sends, in order, the
 shared slot holds the id it holds, and what the homeserver does is what was asked for
 (crates/aqua-matrix-agent/src/rtc_member.rs).
 */
module RtcOneKeeper {
  import opened Basics
  import opened RtcSchedule
  import opened RtcKeeper
  import T = RtcTakeover

  /** The request a task in this phase waits for, if it matters to the membership or to
      what is scheduled. */
  ghost predicate Awaits(phase: T.Phase, req: Request) {
    match phase
    case Scheduling => req.ScheduleLeave?
    case Publishing => req.Publish?
    case SendingLeave(id) => req == SendLeaveNow(id)
    case Clearing => req == ClearMember
    case Cancelling(id) => req == CancelLeave(id)
    case _ => false
  }

  /** What a request does when the homeserver carries it out. */
  function Deed(req: Request): T.Change {
    match req
    case ScheduleLeave(_) => T.Scheduled
    case Publish(_, _, _) => T.Renewed
    case SendLeaveNow(id) => T.Fired(id)
    case ClearMember => T.Cleared
    case CancelLeave(id) => T.Unscheduled(id)
    case _ => T.Nothing
  }

  /** What becomes of a deed: it is done, it may be done later, or it never is. */
  ghost predicate Becomes(deed: T.Change, fate: T.Fate, change: T.Change) {
    match fate
    case Lands => change == deed
    case Later => change == T.Adrift(deed)
    case Never => change == T.Nothing
  }

  /** The event that brings the answer to a request. */
  function Answering(req: Request, fate: T.Fate, a: Answer): T.TaskEvent {
    match req
    case ScheduleLeave(_) => T.ScheduleAnswered(fate, a.outcome.Ok?)
    case Publish(_, _, _) => T.PublishAnswered(if a.outcome.Ok? then T.Lands else fate)
    case SendLeaveNow(_) => T.SendAnswered(fate, a.outcome.Ok?)
    case ClearMember => T.ClearAnswered(if a.outcome.Ok? then T.Lands else fate)
    case CancelLeave(_) => T.CancelAnswered(fate == T.Lands, a.outcome.Ok? || a.outcome.NotFound?)
    case _ => T.Told
  }

  /** The homeserver confirms only what it can do: a leave it sends now is scheduled, and one
      it cannot find is not. */
  predicate Consistent(req: Request, a: Answer, pending: map<nat, nat>) {
    match req
    case SendLeaveNow(id) => a.outcome.Ok? ==> id in pending
    case _ => true
  }

  /** A request that is answered has done its deed if it was acknowledged, and otherwise has
      the fate of its own; and one that is cut off has the same. */
  lemma RequestsDoTheirDeeds(k: T.Keeper, req: Request, fate: T.Fate, a: Answer, pending: map<nat, nat>, nextId: nat)
    requires Awaits(k.phase, req) && Consistent(req, a, pending)
    ensures var c := T.Task(k, Answering(req, fate, a), pending, nextId).change;
            && (a.outcome.Ok? ==> c == Deed(req))
            && (!a.outcome.Ok? && (req.SendLeaveNow? ==> req.id in pending) && !req.CancelLeave? ==>
                  Becomes(Deed(req), fate, c))
            && (req.SendLeaveNow? && req.id !in pending ==> c == T.Nothing)
            && (req.CancelLeave? ==>
                  c == if fate == T.Lands || a.outcome.Ok? || a.outcome.NotFound? then Deed(req) else T.Nothing)
    ensures !req.CancelLeave? ==> Becomes(Deed(req), fate, T.CutOff(k, fate))
  {
  }

  /** A request that is adrift and arrives does what it would have done at once, and leaves no
      other request behind or out. */
  lemma LateIsAsGood(s: T.State, p: nat, c: T.Change)
    requires T.CanStray(c)
    ensures T.Next(T.Serve(s, p, T.Adrift(c)), T.StrayLands(T.Stray(p, c))) == T.Serve(s, p, c)
  {
    hide T.HoldStep, T.Task, T.Without;
    var r := T.Stray(p, c);
    var late := T.Serve(s, p, T.Adrift(c));
    assert r in late.stray && late.stray - multiset{r} == s.stray;
    assert late.(stray := late.stray - multiset{r}) == s;
  }

  // -------------------------------------------------------------------------
  // Request by request
  // -------------------------------------------------------------------------

  /** The task after it was answered like this keeper, the answer being that of `o` at `at`. */
  function After(t: T.Keeper, req: Request, fate: T.Fate, o: Oracle, at: nat, pending: map<nat, nat>, nextId: nat)
    : T.Keeper
  {
    T.Task(t, Answering(req, fate, o(at)), pending, nextId).keeper
  }

  /** A keeper told to leave, whatever it is waiting for, goes through the requests of `Leave`,
      one after the other, and then stops; it gives the id up at once. */
  lemma LeavesLikeTheKeeper(k: KeeperState, o: Oracle, phase: T.Phase, cut: T.Fate, fate: T.Fate, fate': T.Fate,
                            pending: map<nat, nat>, nextId: nat)
    requires T.Keeper(T.Leave, phase, k.delayId).Running()
    requires k.delayId.Some? ==> Consistent(SendLeaveNow(k.delayId.value), k.Next(o), pending)
    ensures var n, at := k.Leave(o), |k.trace|;
            var t := T.Task(T.Keeper(T.Leave, phase, k.delayId), T.Reacts(cut), pending, nextId).keeper;
            && t.slot == n.delayId && |n.trace| > at && n.trace[at].Asked? && Awaits(t.phase, n.trace[at].req)
            && var t' := After(t, n.trace[at].req, fate, o, at, pending, nextId);
               if |n.trace| == at + 1 then t'.phase == T.Stopped && t'.slot == n.delayId
               else
                 && |n.trace| == at + 2 && n.trace[at + 1].Asked? && Awaits(t'.phase, n.trace[at + 1].req)
                 && var t'' := After(t', n.trace[at + 1].req, fate', o, at + 1, pending, nextId);
                    t''.phase == T.Stopped && t''.slot == n.delayId
  {
  }

  /** A keeper told to hand over cancels like `HandOver`, if it holds an id, and then stops;
      the slot holds the id exactly if the keeper does. */
  lemma HandsOverLikeTheKeeper(k: KeeperState, o: Oracle, phase: T.Phase, cut: T.Fate, fate: T.Fate,
                               pending: map<nat, nat>, nextId: nat)
    requires T.Keeper(T.HandOver, phase, k.delayId).Running()
    ensures var n, at := k.HandOver(o), |k.trace|;
            var t := T.Task(T.Keeper(T.HandOver, phase, k.delayId), T.Reacts(cut), pending, nextId).keeper;
            if |n.trace| == at then t.phase == T.Stopped && t.slot == n.delayId
            else
              && |n.trace| == at + 1 && n.trace[at].Asked? && Awaits(t.phase, n.trace[at].req) && t.slot == None
              && var t' := After(t, n.trace[at].req, fate, o, at, pending, nextId);
                 t'.phase == T.Stopped && t'.slot == n.delayId
  {
  }

  /** A keeper whose session can no longer be renewed leaves the same way. */
  lemma FatalStopIsALeave(t: T.Keeper, pending: map<nat, nat>, nextId: nat)
    requires t.phase == T.Ticking
    ensures T.Task(t, T.FatalStop, pending, nextId).keeper
         == T.Task(t.(cmd := T.Leave), T.Reacts(T.Never), pending, nextId).keeper.(cmd := t.cmd)
  {
  }

  /** Scheduling the delayed leave: the slot holds the fresh id exactly if `ArmLeave` does. */
  lemma ArmsLikeTheKeeper(k: KeeperState, o: Oracle, cmd: T.Cmd, fate: T.Fate, pending: map<nat, nat>)
    requires k.delayId.None?
    ensures var n, at := k.ArmLeave(o), |k.trace|; var nextId := k.Next(o).delayId;
            var t := T.Task(T.Keeper(cmd, T.Ticking, None), T.ScheduleBegins, pending, nextId).keeper;
            && |n.trace| == at + 1 && n.trace[at].Asked? && Awaits(t.phase, n.trace[at].req) && t.slot == None
            && After(t, n.trace[at].req, fate, o, at, pending, nextId) == T.Keeper(cmd, T.Ticking, n.delayId)
  {
  }

  /** Publishing the membership leaves the task and its slot as they were. */
  lemma PublishesLikeTheKeeper(k: KeeperState, req: Request, o: Oracle, cmd: T.Cmd, fate: T.Fate,
                               pending: map<nat, nat>, nextId: nat)
    requires req.Publish?
    ensures var t := T.Keeper(cmd, T.Ticking, k.delayId);
            var busy := T.Task(t, T.PublishBegins, pending, nextId).keeper;
            && Awaits(busy.phase, req) && busy.slot == k.Ask(req, o).delayId
            && After(busy, req, fate, o, |k.trace|, pending, nextId) == t
  {
  }

  /** A restart that finds the leave gone drops the id, and no other restart does. */
  lemma RestartsLikeTheKeeper(k: KeeperState, o: Oracle, cmd: T.Cmd, pending: map<nat, nat>, nextId: nat)
    requires k.delayId.Some? && (k.Next(o).outcome.NotFound? <==> k.delayId.value !in pending)
    ensures var t := T.Task(T.Keeper(cmd, T.Ticking, k.delayId), T.RestartNotFound, pending, nextId).keeper;
            && t.phase == T.Ticking && t.cmd == cmd
            && (if k.Next(o).outcome.NotFound? then t.slot == None else t.slot == k.RestartLeave(o).delayId)
  {
  }

  // -------------------------------------------------------------------------
  // The holds
  // -------------------------------------------------------------------------

  /** The homeserver has done what becomes of a deed. */
  ghost predicate Serves(s: T.State, n: T.State, p: nat, deed: T.Change, fate: T.Fate) {
    forall c :: Becomes(deed, fate, c) ==>
      var r := T.Serve(s, p, c);
      n.pending == r.pending && n.nextId == r.nextId && n.stray == r.stray && n.effects == r.effects
  }

  /** A new hold takes the next number and the slot, and asks whoever is registered to hand
      over, unless he was told to leave before. */
  lemma BeginsBySuperseding(s: T.State)
    requires s.hold == T.Idle && (s.registry.Some? ==> s.registry.value in s.keepers)
    ensures var n := T.HoldStep(s, T.HoldBegins);
            && n.newest == s.newest + 1 && n.registry == None && n.effects == s.effects && n.pending == s.pending
            && match s.registry
               case None => n.hold == T.Joining && n.keepers == s.keepers
               case Some(p) =>
                 var k := s.keepers[p];
                 && n.hold == T.AwaitingStop(p)
                 && n.keepers == s.keepers[p := k.(cmd := if k.cmd == T.Hold then T.HandOver else k.cmd)]
  {
  }

  lemma CutOffIsServed(s: T.State, p: nat, fate: T.Fate)
    requires p in s.keepers
    ensures var k := s.keepers[p]; var n := T.Serve(s, p, T.CutOff(k, fate));
            && n.keepers == s.keepers && n.newest == s.newest
            && (k.phase == T.Stopped || k.phase == T.Ticking ==> n == s)
            && forall req :: Awaits(k.phase, req) && !req.CancelLeave? ==> Serves(s, n, p, Deed(req), fate)
  {
    hide T.Without;
  }

  lemma SlotIsEmptied(s: T.State, p: nat)
    requires p in s.keepers
    ensures var k := s.keepers[p]; var n := T.TakeStale(s, p, k);
            n == s.(keepers := s.keepers[p := T.Keeper(k.cmd, T.Stopped, None)],
                    hold := match k.slot case Some(id) => T.CancellingStale(p, id) case None => T.Joining)
  {
  }

  /** The old keeper has stopped, or is aborted exactly if it has not; either way its slot is
      emptied, and what was in it is cancelled before the join. A request that an abort cuts
      off has a fate of its own. */
  lemma RetiresThePredecessor(s: T.State, p: nat, fate: T.Fate)
    requires s.hold == T.AwaitingStop(p) && p in s.keepers
    ensures var k := s.keepers[p];
            var n := T.HoldStep(s, if k.phase == T.Stopped then T.PrevStopped else T.PrevAborted(fate));
            && n.keepers == s.keepers[p := T.Keeper(k.cmd, T.Stopped, None)] && n.newest == s.newest
            && n.hold == (match k.slot case Some(id) => T.CancellingStale(p, id) case None => T.Joining)
            && (k.phase == T.Stopped || k.phase == T.Ticking ==>
                  n.pending == s.pending && n.effects == s.effects && n.stray == s.stray)
            && (forall req :: Awaits(k.phase, req) && !req.CancelLeave? ==> Serves(s, n, p, Deed(req), fate))
    ensures T.HoldStep(s, if s.keepers[p].phase == T.Stopped then T.PrevAborted(fate) else T.PrevStopped) == s
  {
    hide T.Serve, T.CutOff, T.TakeStale, Awaits, Deed, Becomes;
    CutOffIsServed(s, p, fate);
    SlotIsEmptied(s, p);
    SlotIsEmptied(T.Serve(s, p, T.CutOff(s.keepers[p], fate)), p);
  }

  /** Whether or not the stale leave could be cancelled, the hold joins next. */
  lemma CancelsTheStaleLeave(s: T.State, p: nat, id: nat, landed: bool, ok: bool)
    requires s.hold == T.CancellingStale(p, id)
    ensures var n := T.HoldStep(s, T.StaleCancelled(landed, ok));
            && n.hold == T.Joining && n.keepers == s.keepers && n.newest == s.newest && n.effects == s.effects
            && n.pending == if landed || ok then map i | i in s.pending && i != id :: s.pending[i] else s.pending
  {
  }

  /** What becomes of the join of the newest hold. */
  ghost predicate Joins(s: T.State, n: T.State, fate: T.Fate) {
    match fate
    case Lands => n.effects == s.effects + [T.Joined(s.newest)] && n.stray == s.stray
    case _ => Serves(s, n, s.newest, T.Renewed, fate)
  }

  lemma JoinsFirst(s: T.State, fate: T.Fate, ok: bool)
    requires s.hold == T.Joining
    ensures var n := T.HoldStep(s, T.JoinAnswered(fate, ok));
            && n.keepers == s.keepers && n.registry == s.registry && n.pending == s.pending && n.newest == s.newest
            && n.hold == (if ok then T.FirstArming else T.Idle) && Joins(s, n, if ok then T.Lands else fate)
  {
  }

  lemma ThenSchedules(s: T.State, fate: T.Fate, ok: bool)
    requires s.hold == T.FirstArming
    ensures var n := T.HoldStep(s, T.FirstArmAnswered(fate, ok));
            && n.hold == T.Idle && n.registry == Some(s.newest)
            && n.keepers == s.keepers[s.newest := T.Keeper(T.Hold, T.Ticking, if ok then Some(s.nextId) else None)]
            && Serves(s, n, s.newest, T.Scheduled, if ok then T.Lands else fate)
  {
  }

  /** A new hold: it fails exactly if its join does, and otherwise leaves a registered keeper
      whose slot holds the id that `Start` holds. A join or a schedule that is not
      acknowledged has a fate of its own. */
  lemma HoldsLikeTheKeeper(s: T.State, timing: Timing, o: Oracle, fate: T.Fate, fate': T.Fate)
    requires s.hold == T.Joining && Validate(timing).None?
    ensures var joined := T.HoldStep(s, T.JoinAnswered(fate, o(0).outcome.Ok?));
            && joined.keepers == s.keepers && joined.registry == s.registry && joined.pending == s.pending
            && Joins(s, joined, if o(0).outcome.Ok? then T.Lands else fate)
            && match Start(timing, o)
               case None => joined.hold == T.Idle
               case Some(k) =>
                 && joined.hold == T.FirstArming
                 && var arm := k.trace[|k.trace| - 1];
                    arm.Asked? && arm.req.ScheduleLeave?
                    && var ready := joined.(nextId := arm.answer.delayId);
                       var held := T.HoldStep(ready, T.FirstArmAnswered(fate', arm.answer.outcome.Ok?));
                       && held.hold == T.Idle && held.registry == Some(s.newest)
                       && held.keepers == s.keepers[s.newest := T.Keeper(T.Hold, T.Ticking, k.delayId)]
                       && Serves(ready, held, s.newest, T.Scheduled, if arm.answer.outcome.Ok? then T.Lands else fate')
  {
    hide T.HoldStep, Serves, Joins;
    JoinsFirst(s, fate, o(0).outcome.Ok?);
    var joined := T.HoldStep(s, T.JoinAnswered(fate, o(0).outcome.Ok?));
    if Start(timing, o).Some? {
      var k := Start(timing, o).value;
      var arm := k.trace[|k.trace| - 1];
      ThenSchedules(joined.(nextId := arm.answer.delayId), fate', arm.answer.outcome.Ok?);
    }
  }

  /** A hold that is dropped while it joins or schedules leaves that request to its fate, and
      no keeper; the slot is free again. */
  lemma DroppedHoldsLeaveTheirRequests(s: T.State, fate: T.Fate)
    ensures var n := T.HoldStep(s, T.HoldDropped(fate));
            && n.hold == T.Idle && n.keepers == s.keepers && n.registry == s.registry && n.newest == s.newest
            && (s.hold == T.Joining ==> Joins(s, n, fate) && n.pending == s.pending)
            && (s.hold == T.FirstArming ==> Serves(s, n, s.newest, T.Scheduled, fate))
            && (s.hold != T.Joining && s.hold != T.FirstArming ==> n == s.(hold := T.Idle))
  {
  }
}
