/**
 What a take-over leaves alone, and what a leave does not
 (crates/aqua-matrix-agent/src/rtc_member.rs, the end of `run`): over every interleaving of
 RtcTakeover, a keeper that was told to hand over never takes its membership away, and one
 that was told to leave does not end without asking for that.
 */
module RtcHandOver {
  import opened Basics
  import opened RtcTakeover

  // -------------------------------------------------------------------------
  // Delayed leaves belong to whoever holds their ids
  // -------------------------------------------------------------------------

  /** The delayed leave `id` is, or was, one of hold `p`. */
  ghost predicate Belongs(pending: map<nat, nat>, nextId: nat, id: nat, p: nat) {
    id < nextId && (id in pending ==> pending[id] == p)
  }

  ghost predicate OwnIds(s: State) {
    && (forall i :: i in s.pending ==> i < s.nextId)
    && (forall p, id: nat :: p in s.keepers && s.keepers[p].Owns(id) ==> Belongs(s.pending, s.nextId, id, p))
    && (forall r :: r in s.stray && r.request.Fired? ==> Belongs(s.pending, s.nextId, r.request.id, r.hold))
  }

  /** A keeper owns no id but its former one and the fresh one, and sends only its own. */
  lemma TaskOwns(k: Keeper, e: TaskEvent, pending: map<nat, nat>, nextId: nat, id: nat)
    ensures var x := Task(k, e, pending, nextId);
            && (x.keeper.Owns(id) ==> k.Owns(id) || (id == nextId && x.change.Scheduled?))
            && (x.change == Fired(id) || x.change == Adrift(Fired(id)) ==> k.Owns(id))
  {
  }

  lemma CutOffOwns(k: Keeper, fate: Fate, id: nat)
    ensures CutOff(k, fate) == Fired(id) || CutOff(k, fate) == Adrift(Fired(id)) ==> k.Owns(id)
  {
  }

  /** A change is about the hold's own delayed leave. */
  ghost predicate OwnChange(s: State, p: nat, c: Change) {
    match c
    case Fired(id) => Belongs(s.pending, s.nextId, id, p)
    case Adrift(r) => r.Fired? ==> Belongs(s.pending, s.nextId, r.id, p)
    case _ => true
  }

  /** Nothing the homeserver does makes a delayed leave somebody else's. */
  lemma ServeBelongs(s: State, p: nat, c: Change, id: nat, q: nat)
    requires Belongs(s.pending, s.nextId, id, q)
    ensures Belongs(Serve(s, p, c).pending, Serve(s, p, c).nextId, id, q)
  {
  }

  lemma ServeOwn(s: State, p: nat, c: Change)
    requires OwnIds(s) && (c.Adrift? ==> OwnChange(s, p, c))
    ensures var n := Serve(s, p, c); OwnIds(n) && (c.Scheduled? ==> Belongs(n.pending, n.nextId, s.nextId, p))
  {
    hide Belongs;
    var n := Serve(s, p, c);
    forall q, id: nat | Belongs(s.pending, s.nextId, id, q)
      ensures Belongs(n.pending, n.nextId, id, q)
    {
      ServeBelongs(s, p, c, id, q);
    }
    if c.Scheduled? {
      assert Belongs(n.pending, n.nextId, s.nextId, p) by { FreshBelongs(s, p); }
    }
  }

  lemma FreshBelongs(s: State, p: nat)
    ensures Belongs(Serve(s, p, Scheduled).pending, Serve(s, p, Scheduled).nextId, s.nextId, p)
  {
  }

  lemma CommitOwn(s: State, p: nat, e: TaskEvent)
    requires OwnIds(s) && p in s.keepers
    ensures OwnIds(Next(s, OfTask(p, e)))
  {
    hide Belongs, Task, Serve;
    var x := Task(s.keepers[p], e, s.pending, s.nextId);
    forall id: nat
      ensures x.keeper.Owns(id) ==> s.keepers[p].Owns(id) || (id == s.nextId && x.change.Scheduled?)
      ensures x.change == Fired(id) || x.change == Adrift(Fired(id)) ==> s.keepers[p].Owns(id)
    {
      TaskOwns(s.keepers[p], e, s.pending, s.nextId, id);
    }
    ServeOwn(s, p, x.change);
    var n := Serve(s, p, x.change);
    forall q, id: nat | Belongs(s.pending, s.nextId, id, q)
      ensures Belongs(n.pending, n.nextId, id, q)
    {
      ServeBelongs(s, p, x.change, id, q);
    }
  }

  lemma TakeStaleOwn(s: State, p: nat)
    requires OwnIds(s) && p in s.keepers
    ensures OwnIds(TakeStale(s, p, s.keepers[p]))
  {
    hide Belongs;
  }

  lemma AbortOwn(s: State, p: nat, fate: Fate)
    requires OwnIds(s) && p in s.keepers
    ensures OwnIds(TakeStale(Serve(s, p, CutOff(s.keepers[p], fate)), p, s.keepers[p]))
  {
    hide Belongs, Serve, TakeStale, CutOff;
    forall id: nat
      ensures CutOff(s.keepers[p], fate) == Fired(id) || CutOff(s.keepers[p], fate) == Adrift(Fired(id)) ==>
                s.keepers[p].Owns(id)
    {
      CutOffOwns(s.keepers[p], fate, id);
    }
    ServeOwn(s, p, CutOff(s.keepers[p], fate));
    TakeStaleOwn(Serve(s, p, CutOff(s.keepers[p], fate)), p);
  }

  lemma SpawnOwn(s: State, slot: Option<nat>)
    requires OwnIds(s) && (slot.Some? ==> Belongs(s.pending, s.nextId, slot.value, s.newest))
    ensures OwnIds(Spawn(s, slot))
  {
    hide Belongs;
  }

  lemma ScheduleOwn(s: State, fate: Fate, ok: bool)
    requires OwnIds(s)
    ensures var n := Serve(s, s.newest, if ok then Scheduled else Fated(Scheduled, fate));
            OwnIds(n) && OwnIds(Spawn(n, if ok then Some(s.nextId) else None))
  {
    hide Belongs, Serve, Spawn;
    var c := if ok then Scheduled else Fated(Scheduled, fate);
    ServeOwn(s, s.newest, c);
    SpawnOwn(Serve(s, s.newest, c), if ok then Some(s.nextId) else None);
  }

  lemma JoinOwn(s: State, fate: Fate)
    requires OwnIds(s)
    ensures OwnIds(Join(s, fate))
  {
    hide Belongs, Serve;
    ServeOwn(s, s.newest, Fated(Renewed, fate));
  }

  lemma SameOwn(s: State, h: HoldPhase)
    ensures OwnIds(s.(hold := h)) <==> OwnIds(s)
  {
    hide Belongs;
  }

  lemma BeginsOwn(s: State)
    requires OwnIds(s)
    ensures OwnIds(HoldStep(s, HoldBegins))
  {
    hide Belongs;
  }

  lemma HoldOwn(s: State, h: HoldEvent)
    requires OwnIds(s)
    ensures OwnIds(HoldStep(s, h))
  {
    hide OwnIds, Serve, TakeStale, Spawn, Join, CutOff, Fated;
    match h {
      case HoldBegins => BeginsOwn(s);
      case PrevStopped =>
        if s.hold.AwaitingStop? && s.hold.prev in s.keepers {
          TakeStaleOwn(s, s.hold.prev);
        }
      case PrevAborted(fate) =>
        if s.hold.AwaitingStop? && s.hold.prev in s.keepers {
          AbortOwn(s, s.hold.prev, fate);
        }
      case StaleCancelled(landed, ok) =>
        if s.hold.CancellingStale? {
          var c := if landed || ok then Unscheduled(s.hold.id) else Nothing;
          ServeOwn(s, s.hold.prev, c);
          SameOwn(Serve(s, s.hold.prev, c), Joining);
        }
      case JoinAnswered(fate, ok) =>
        JoinOwn(s, if ok then Lands else fate);
        SameOwn(Join(s, if ok then Lands else fate), if ok then FirstArming else Idle);
      case FirstArmAnswered(fate, ok) => ScheduleOwn(s, fate, ok);
      case HoldDropped(fate) =>
        ScheduleOwn(s, fate, false);
        SameOwn(Serve(s, s.newest, Fated(Scheduled, fate)), Idle);
        JoinOwn(s, fate);
        SameOwn(Join(s, fate), Idle);
        SameOwn(s, Idle);
    }
  }

  lemma OwnKept(s: State, e: Event)
    requires OwnIds(s) && Shape(s)
    ensures OwnIds(Next(s, e))
  {
    hide Belongs, Serve, HoldStep, Task;
    match e {
      case OfHold(h) => HoldOwn(s, h);
      case OfTask(p, t) =>
        if p in s.keepers {
          CommitOwn(s, p, t);
        }
      case DelayFires(id) => ServeOwn(s, 0, Fired(id));
      case DelayDropped(id) => ServeOwn(s, 0, Unscheduled(id));
      case StrayLands(r) =>
        if r in s.stray {
          StrayShape(s, r);
          ServeOwn(s.(stray := s.stray - multiset{r}), r.hold, r.request);
        }
    }
  }

  // -------------------------------------------------------------------------
  // A keeper that is not told to leave takes nothing away
  // -------------------------------------------------------------------------

  predicate ToldToLeave(s: State, p: nat) { p in s.keepers && s.keepers[p].cmd == Leave }

  predicate TakesAway(c: Change) { c.Fired? || c.Cleared? || (c.Adrift? && (c.request.Fired? || c.request.Cleared?)) }

  /** Unless it was told to leave, hold `p` has no request under way that takes the membership away. */
  ghost predicate Quiet(s: State, p: nat) {
    !ToldToLeave(s, p) ==>
      && (p in s.keepers ==> !s.keepers[p].Leaving())
      && (forall r :: r in s.stray && r.hold == p ==> !TakesAway(r.request))
  }

  /** The event has the homeserver take the membership away on behalf of `p`. */
  ghost predicate Leaves(s: State, e: Event, p: nat) { Gains(s, Next(s, e), p) }

  ghost predicate Gains(s: State, n: State, p: nat) {
    |n.effects| == |s.effects| + 1 && n.effects[|s.effects|] == Left(p)
  }

  lemma TaskQuiet(k: Keeper, t: TaskEvent, pending: map<nat, nat>, nextId: nat)
    requires !k.Leaving() && t != FatalStop && Task(k, t, pending, nextId).keeper.cmd != Leave
    ensures var x := Task(k, t, pending, nextId); !x.keeper.Leaving() && !TakesAway(x.change)
  {
  }

  /** What is served for another hold, or takes nothing away, is no leave of `p`. */
  lemma ServeQuiet(s: State, q: nat, c: Change, p: nat)
    requires Quiet(s, p) && OwnChange(s, q, c) && (q == p && !ToldToLeave(s, p) ==> !TakesAway(c))
    requires (c.Adrift? ==> CanStray(c.request)) && !ToldToLeave(s, p)
    ensures Quiet(Serve(s, q, c), p) && !Gains(s, Serve(s, q, c), p)
  {
  }

  lemma TaskChange(s: State, q: nat, t: TaskEvent)
    requires OwnIds(s) && q in s.keepers
    ensures var c := Task(s.keepers[q], t, s.pending, s.nextId).change;
            OwnChange(s, q, c) && (c.Adrift? ==> CanStray(c.request))
  {
    hide Belongs;
    var c := Task(s.keepers[q], t, s.pending, s.nextId).change;
    forall id: nat
      ensures c == Fired(id) || c == Adrift(Fired(id)) ==> s.keepers[q].Owns(id)
    {
      TaskOwns(s.keepers[q], t, s.pending, s.nextId, id);
    }
  }

  lemma CommitQuiet(s: State, q: nat, t: TaskEvent, p: nat)
    requires OwnIds(s) && Shape(s) && Quiet(s, p) && q in s.keepers && !(q == p && t == FatalStop)
    requires !ToldToLeave(s, p) && !ToldToLeave(Next(s, OfTask(q, t)), p)
    ensures Quiet(Next(s, OfTask(q, t)), p) && !Leaves(s, OfTask(q, t), p)
  {
    hide OwnIds, Shape, OwnChange, Serve, Task, TakesAway;
    var x := Task(s.keepers[q], t, s.pending, s.nextId);
    TaskChange(s, q, t);
    if q == p {
      TaskQuiet(s.keepers[p], t, s.pending, s.nextId);
    }
    ServeQuiet(s, q, x.change, p);
  }

  lemma AbortQuiet(s: State, q: nat, fate: Fate, p: nat)
    requires OwnIds(s) && Quiet(s, p) && q in s.keepers && !ToldToLeave(s, p)
    ensures var n := TakeStale(Serve(s, q, CutOff(s.keepers[q], fate)), q, s.keepers[q]);
            Quiet(n, p) && !Gains(s, n, p)
  {
    hide Belongs, Serve;
    var c := CutOff(s.keepers[q], fate);
    forall id: nat
      ensures c == Fired(id) || c == Adrift(Fired(id)) ==> s.keepers[q].Owns(id)
    {
      CutOffOwns(s.keepers[q], fate, id);
    }
    ServeQuiet(s, q, c, p);
  }

  lemma JoinQuiet(s: State, fate: Fate, p: nat)
    requires OwnIds(s) && Quiet(s, p) && !ToldToLeave(s, p)
    ensures Quiet(Join(s, fate), p) && !Gains(s, Join(s, fate), p)
  {
    hide OwnIds, Serve;
    ServeQuiet(s, s.newest, Fated(Renewed, fate), p);
  }

  lemma ScheduleQuiet(s: State, fate: Fate, ok: bool, slot: Option<nat>, p: nat)
    requires OwnIds(s) && Quiet(s, p) && !ToldToLeave(s, p)
    ensures var n := Serve(s, s.newest, if ok then Scheduled else Fated(Scheduled, fate));
            && Quiet(n, p) && !Gains(s, n, p) && Quiet(n.(hold := Idle), p)
            && Quiet(Spawn(n, slot), p) && !Gains(s, Spawn(n, slot), p)
  {
    hide OwnIds, Serve;
    ServeQuiet(s, s.newest, if ok then Scheduled else Fated(Scheduled, fate), p);
  }

  lemma SameQuiet(s: State, h: HoldPhase, p: nat)
    ensures Quiet(s.(hold := h), p) <==> Quiet(s, p)
  {
  }

  lemma MovesQuiet(s: State, h: HoldEvent, p: nat)
    requires Quiet(s, p) && !ToldToLeave(s, p) && (h.HoldBegins? || h.PrevStopped?)
    ensures Quiet(HoldStep(s, h), p) && !Gains(s, HoldStep(s, h), p)
  {
    hide Serve, TakesAway;
  }

  lemma HoldQuiet(s: State, h: HoldEvent, p: nat)
    requires OwnIds(s) && Shape(s) && Quiet(s, p) && !ToldToLeave(s, p)
    ensures Quiet(HoldStep(s, h), p) && !Leaves(s, OfHold(h), p)
  {
    hide OwnIds, Shape, Serve, CutOff, Join, Fated, Quiet, TakeStale, Spawn;
    match h {
      case HoldBegins => MovesQuiet(s, h, p);
      case PrevStopped => MovesQuiet(s, h, p);
      case PrevAborted(fate) =>
        if s.hold.AwaitingStop? && s.hold.prev in s.keepers {
          AbortQuiet(s, s.hold.prev, fate, p);
        }
      case StaleCancelled(landed, ok) =>
        if s.hold.CancellingStale? {
          var c := if landed || ok then Unscheduled(s.hold.id) else Nothing;
          ServeQuiet(s, s.hold.prev, c, p);
          SameQuiet(Serve(s, s.hold.prev, c), Joining, p);
        }
      case JoinAnswered(fate, ok) =>
        var n := Join(s, if ok then Lands else fate);
        JoinQuiet(s, if ok then Lands else fate, p);
        SameQuiet(n, if ok then FirstArming else Idle, p);
      case FirstArmAnswered(fate, ok) => ScheduleQuiet(s, fate, ok, if ok then Some(s.nextId) else None, p);
      case HoldDropped(fate) =>
        ScheduleQuiet(s, fate, false, None, p);
        JoinQuiet(s, fate, p);
        SameQuiet(Join(s, fate), Idle, p);
        SameQuiet(s, Idle, p);
    }
  }

  lemma StrayQuiet(s: State, r: Stray, p: nat)
    requires OwnIds(s) && Shape(s) && Quiet(s, p) && !ToldToLeave(s, p) && r in s.stray
    ensures Quiet(Next(s, StrayLands(r)), p) && !Leaves(s, StrayLands(r), p)
  {
    hide Shape, Serve;
    StrayShape(s, r);
    ServeQuiet(s.(stray := s.stray - multiset{r}), r.hold, r.request, p);
  }

  /** No event but a delayed leave that comes due takes it away. */
  lemma QuietKept(s: State, e: Event, p: nat)
    requires OwnIds(s) && Shape(s) && Quiet(s, p) && e != OfTask(p, FatalStop) && !ToldToLeave(Next(s, e), p)
    ensures Quiet(Next(s, e), p) && (Leaves(s, e, p) ==> e.DelayFires?)
  {
    hide OwnIds, Shape, HoldStep, Task;
    if ToldToLeave(s, p) {
      CommandStays(s, e, p);
    }
    match e {
      case OfHold(h) => HoldQuiet(s, h, p);
      case OfTask(q, t) =>
        if q in s.keepers {
          CommitQuiet(s, q, t, p);
        }
      case DelayFires(id) =>
      case DelayDropped(id) => ServeQuiet(s, 0, Unscheduled(id), p);
      case StrayLands(r) =>
        if r in s.stray {
          StrayQuiet(s, r, p);
        }
    }
  }

  lemma {:induction false} OwnRun(events: seq<Event>)
    ensures OwnIds(Exec(INIT, events))
  {
    hide Next, OwnIds;
    if events != [] {
      OwnRun(events[..|events| - 1]);
      ShapeHolds(events[..|events| - 1]);
      OwnKept(Exec(INIT, events[..|events| - 1]), events[|events| - 1]);
    } else {
      assert OwnIds(INIT) by { NobodyOwns(); }
    }
  }

  lemma NobodyOwns()
    ensures OwnIds(INIT)
  {
  }

  lemma {:induction false} QuietRun(events: seq<Event>, p: nat)
    requires OfTask(p, FatalStop) !in events && !ToldToLeave(Exec(INIT, events), p)
    ensures Quiet(Exec(INIT, events), p)
    ensures forall i | 0 <= i < |events| && Leaves(Exec(INIT, events[..i]), events[i], p) :: events[i].DelayFires?
  {
    hide Next, OwnIds, ToldToLeave, Leaves;
    if events != [] {
      var n := |events| - 1;
      var s := Exec(INIT, events[..n]);
      ShapeHolds(events[..n]);
      OwnRun(events[..n]);
      NotToldBefore(s, events[n], p);
      QuietRun(events[..n], p);
      QuietKept(s, events[n], p);
      assert forall i :: 0 <= i < n ==> events[..n][..i] == events[..i];
    }
  }

  lemma NotToldBefore(s: State, e: Event, p: nat)
    requires Shape(s) && !ToldToLeave(Next(s, e), p)
    ensures !ToldToLeave(s, p)
  {
    hide Next, Shape;
    if ToldToLeave(s, p) {
      CommandStays(s, e, p);
    }
  }

  /** Over every interleaving: a keeper that goes on, or was told to hand over, and whose
      session could always be renewed, is not leaving; and whenever the membership was taken
      away on its behalf, that was its delayed leave coming due. */
  lemma OnlyToldKeepersLeave(events: seq<Event>, p: nat)
    requires OfTask(p, FatalStop) !in events
    requires p in Exec(INIT, events).keepers && Exec(INIT, events).keepers[p].cmd != Leave
    ensures !Exec(INIT, events).keepers[p].Leaving()
    ensures forall i | 0 <= i < |events| && Leaves(Exec(INIT, events[..i]), events[i], p) :: events[i].DelayFires?
  {
    QuietRun(events, p);
  }

  // -------------------------------------------------------------------------
  // A keeper that is told to leave asks for it
  // -------------------------------------------------------------------------

  /** The answer that ends a leave: to a clear, whatever it is, or to a delayed leave sent now. */
  predicate EndsLeave(k: Keeper, t: TaskEvent, pending: map<nat, nat>) {
    || (k.phase == Clearing && t.ClearAnswered?)
    || (k.phase.SendingLeave? && k.phase.id in pending && t.SendAnswered? && t.ok)
  }

  ghost predicate AskedToLeave(events: seq<Event>, p: nat) {
    exists i :: 0 <= i < |events| && events[i].OfTask? && events[i].keeper == p
                && p in Exec(INIT, events[..i]).keepers
                && EndsLeave(Exec(INIT, events[..i]).keepers[p], events[i].task, Exec(INIT, events[..i]).pending)
  }

  /** A keeper that is not told to hand over cancels nothing and has not stopped without asking to leave. */
  ghost predicate Dutiful(s: State, p: nat, asked: bool) {
    p in s.keepers && s.keepers[p].cmd != HandOver ==>
      !s.keepers[p].phase.Cancelling? && (s.keepers[p].phase == Stopped ==> asked)
  }

  lemma TaskDutiful(k: Keeper, t: TaskEvent, pending: map<nat, nat>, nextId: nat)
    requires k.cmd != HandOver ==> !k.phase.Cancelling?
    ensures var n := Task(k, t, pending, nextId).keeper;
            && (k.cmd == HandOver ==> n.cmd == HandOver)
            && (n.cmd != HandOver ==>
                  !n.phase.Cancelling? && (n.phase == Stopped ==> k.phase == Stopped || EndsLeave(k, t, pending)))
  {
  }

  lemma DutifulKept(s: State, e: Event, p: nat, asked: bool)
    requires Shape(s) && Dutiful(s, p, asked) && !(e.OfHold? && e.hold.PrevAborted?)
    ensures var ends := e.OfTask? && e.keeper == p && p in s.keepers && EndsLeave(s.keepers[p], e.task, s.pending);
            Dutiful(Next(s, e), p, asked || ends)
  {
    hide Serve, Task, EndsLeave;
    match e {
      case OfTask(q, t) =>
        if q == p && q in s.keepers {
          TaskDutiful(s.keepers[q], t, s.pending, s.nextId);
        }
      case _ =>
    }
  }

  lemma {:induction false} DutifulRun(events: seq<Event>, p: nat)
    requires forall i :: 0 <= i < |events| ==> !(events[i].OfHold? && events[i].hold.PrevAborted?)
    ensures Dutiful(Exec(INIT, events), p, AskedToLeave(events, p))
  {
    hide Next, EndsLeave;
    if events != [] {
      var n := |events| - 1;
      var before := events[..n];
      DutifulRun(before, p);
      ShapeHolds(before);
      DutifulKept(Exec(INIT, before), events[n], p, AskedToLeave(before, p));
      assert forall i :: 0 <= i < n ==> before[..i] == events[..i] && before[i] == events[i];
    }
  }

  /** Over every interleaving without an abort: a keeper that was told to leave never hands
      over, and has ended only if its "send now" worked or its clear was answered. */
  lemma ToldKeepersAskToLeave(events: seq<Event>, p: nat)
    requires forall i :: 0 <= i < |events| ==> !(events[i].OfHold? && events[i].hold.PrevAborted?)
    requires ToldToLeave(Exec(INIT, events), p)
    ensures var k := Exec(INIT, events).keepers[p];
            !k.phase.Cancelling? && (k.phase == Stopped ==> AskedToLeave(events, p))
  {
    DutifulRun(events, p);
  }

  // -------------------------------------------------------------------------
  // A plain take-over
  // -------------------------------------------------------------------------

  /** Hold `n` takes the membership over, and every request works. */
  function TakeOver(n: nat): seq<Event> {
    (if n == 0 then [OfHold(HoldBegins)]
     else [OfHold(HoldBegins), OfTask(n, Reacts(Never)), OfTask(n, CancelAnswered(true, true)), OfHold(PrevStopped)])
    + [OfHold(JoinAnswered(Lands, true)), OfHold(FirstArmAnswered(Lands, true))]
  }

  function TakeOvers(n: nat): seq<Event> { if n == 0 then [] else TakeOvers(n - 1) + TakeOver(n - 1) }

  function Joins(n: nat): seq<Effect> { if n == 0 then [] else Joins(n - 1) + [Joined(n)] }

  /** Hold `n` holds the membership and its own delayed leave, and nothing else is left. */
  ghost predicate Settled(s: State, n: nat) {
    && s.newest == n && s.hold == Idle && s.stray == multiset{} && s.nextId == n && s.effects == Joins(n)
    && if n == 0 then s == INIT
       else
         && s.registry == Some(n) && s.pending == map[n - 1 := n]
         && n in s.keepers && s.keepers[n] == Keeper(Hold, Ticking, Some(n - 1))
  }

  /** The old keeper has done its part up to this phase; hold `n + 1` waits for it. */
  ghost predicate Retiring(s: State, n: nat, phase: Phase, slot: Option<nat>, pending: map<nat, nat>) {
    && s.newest == n + 1 && s.hold == AwaitingStop(n) && s.registry == None && s.stray == multiset{} && s.nextId == n
    && s.effects == Joins(n) && s.pending == pending
    && n in s.keepers && s.keepers[n] == Keeper(HandOver, phase, slot)
  }

  lemma RetiresFirst(s: State, n: nat)
    requires 0 < n && Settled(s, n)
    ensures var r := Next(Next(s, OfHold(HoldBegins)), OfTask(n, Reacts(Never)));
            Retiring(r, n, Cancelling(n - 1), None, map[n - 1 := n])
  {
    hide Joins;
  }

  lemma RetiresThen(s: State, n: nat)
    requires 0 < n && Retiring(s, n, Cancelling(n - 1), None, map[n - 1 := n])
    ensures Retiring(Next(s, OfTask(n, CancelAnswered(true, true))), n, Stopped, None, map[])
  {
    hide Joins;
  }

  /** The old keeper cancels its delayed leave and stops. */
  lemma Retires(s: State, n: nat)
    requires 0 < n && Settled(s, n)
    ensures var steps := [OfHold(HoldBegins), OfTask(n, Reacts(Never)), OfTask(n, CancelAnswered(true, true)),
                          OfHold(PrevStopped)];
            var r := Exec(s, steps);
            && r.newest == n + 1 && r.hold == Joining && r.stray == multiset{} && r.nextId == n
            && r.effects == s.effects && r.registry == None && r.pending == map[]
  {
    hide Exec, Task, Joins, Serve;
    var a, b, c, d := OfHold(HoldBegins), OfTask(n, Reacts(Never)), OfTask(n, CancelAnswered(true, true)),
                      OfHold(PrevStopped);
    assert [a] + [b] == [a, b] && [a, b] + [c] == [a, b, c] && [a, b, c] + [d] == [a, b, c, d];
    ExecOne(s, a);
    ExecMore(s, [a], b);
    RetiresFirst(s, n);
    ExecMore(s, [a, b], c);
    RetiresThen(Exec(s, [a, b]), n);
    ExecMore(s, [a, b, c], d);
  }

  lemma Follows(s: State, n: nat)
    requires s.newest == n + 1 && s.hold == Joining && s.stray == multiset{} && s.nextId == n && s.effects == Joins(n)
    requires s.registry == None && s.pending == map[]
    ensures Settled(Exec(s, [OfHold(JoinAnswered(Lands, true)), OfHold(FirstArmAnswered(Lands, true))]), n + 1)
  {
    hide Exec;
    var a, b := OfHold(JoinAnswered(Lands, true)), OfHold(FirstArmAnswered(Lands, true));
    ExecOne(s, a);
    ExecMore(s, [a], b);
    assert [a] + [b] == [a, b];
  }

  lemma {:induction false} ExecConcat(s: State, a: seq<Event>, b: seq<Event>)
    ensures Exec(s, a + b) == Exec(Exec(s, a), b)
  {
    hide Next;
    if b == [] {
      assert a + b == a;
    } else {
      var n := |b| - 1;
      assert (a + b)[..|a + b| - 1] == a + b[..n] && (a + b)[|a + b| - 1] == b[n];
      ExecConcat(s, a, b[..n]);
    }
  }

  /** Any number of holds, one after another, with every request answered well: the
      membership is joined by each in turn and never taken away, and in the end only the
      newest hold's delayed leave is scheduled. */
  lemma {:induction false} PlainTakeOvers(n: nat)
    ensures Settled(Exec(INIT, TakeOvers(n)), n)
  {
    hide Exec, Settled, Next;
    if n == 0 {
      StartsSettled();
    } else {
      PlainTakeOvers(n - 1);
      var s := Exec(INIT, TakeOvers(n - 1));
      ExecConcat(INIT, TakeOvers(n - 1), TakeOver(n - 1));
      TakesOver(s, n - 1);
    }
  }

  lemma StartsSettled()
    ensures Settled(Exec(INIT, TakeOvers(0)), 0)
  {
  }

  lemma TakesOver(s: State, n: nat)
    requires Settled(s, n)
    ensures Settled(Exec(s, TakeOver(n)), n + 1)
  {
    hide Exec;
    var begin := OfHold(HoldBegins);
    var first := if n == 0 then [begin]
                 else [begin, OfTask(n, Reacts(Never)), OfTask(n, CancelAnswered(true, true)), OfHold(PrevStopped)];
    ExecConcat(s, first, [OfHold(JoinAnswered(Lands, true)), OfHold(FirstArmAnswered(Lands, true))]);
    ExecOne(s, begin);
    if n > 0 {
      Retires(s, n);
    }
    Follows(Exec(s, first), n);
  }
}
