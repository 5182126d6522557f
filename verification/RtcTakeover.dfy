/**
 One newer hold after another on the same membership key
 (crates/aqua-matrix-agent/src/rtc_member.rs: `request`, `supersede`, `hold_keyed`, and
 the end of `run`). A state machine with one step per request, answer or command, in
 which every interleaving of holds, keepers, handles and the homeserver is possible.
 Holds are numbered in the order in which they take the slot's lock.
 */
module RtcTakeover {
  import opened Basics

  datatype Cmd = Hold | Leave | HandOver

  /** Where a keeper's task is. All but `Ticking` and `Stopped` have a request in flight:
      `Publishing` is a refresh or a rejoin. A restart in flight counts as `Ticking`, for
      it changes neither the membership nor what is scheduled. */
  datatype Phase =
    | Ticking
    | Scheduling
    | Publishing
    | SendingLeave(id: nat)
    | Clearing
    | Cancelling(id: nat)
    | Stopped

  /** A keeper that was started: its command, its task and the shared delay id. */
  datatype Keeper = Keeper(cmd: Cmd, phase: Phase, slot: Option<nat>)
  {
    predicate Running() { phase == Ticking || phase == Scheduling || phase == Publishing }
    predicate Leaving() { phase.SendingLeave? || phase.Clearing? }
    /** The keeper can still do something to the membership or its delayed leave. */
    predicate Active() { phase != Stopped || slot.Some? }
    predicate Owns(id: nat) { slot == Some(id) || phase == SendingLeave(id) || phase == Cancelling(id) }
  }

  /** What the hold that has the slot's lock is waiting for. */
  datatype HoldPhase =
    | Idle
    | AwaitingStop(prev: nat)
    | CancellingStale(prev: nat, id: nat)
    | Joining
    | FirstArming

  /** What the homeserver did to the membership on behalf of a hold: its join, a refresh
      or rejoin of it, or a leave (sent now, cleared, or fired after its delay). */
  datatype Effect = Joined(hold: nat) | Published(hold: nat) | Left(hold: nat)

  /** What a request does at the homeserver; an adrift one has not arrived there yet. */
  datatype Change =
    | Nothing
    | Scheduled
    | Unscheduled(id: nat)
    | Fired(id: nat)
    | Cleared
    | Renewed
    | Adrift(request: Change)

  /** What becomes of a request nobody waits for any more, or that was answered with an
      error: it took effect, it still will or may, or it never does. */
  datatype Fate = Lands | Later | Never

  function Fated(c: Change, fate: Fate): Change {
    match fate
    case Lands => c
    case Later => Adrift(c)
    case Never => Nothing
  }

  /** A request of a hold that may still arrive. */
  datatype Stray = Stray(hold: nat, request: Change)

  /** `pending`: the scheduled delayed leaves and the holds they belong to. */
  datatype State = State(
    keepers: map<nat, Keeper>,
    newest: nat,
    hold: HoldPhase,
    registry: Option<nat>,
    pending: map<nat, nat>,
    nextId: nat,
    stray: multiset<Stray>,
    effects: seq<Effect>)

  const INIT := State(map[], 0, Idle, None, map[], 0, multiset{}, [])

  /** The first command wins: a keeper's command is set only while it is still Hold. */
  function Request(k: Keeper, to: Cmd): Keeper {
    if k.cmd == Hold then k.(cmd := to) else k
  }

  // -------------------------------------------------------------------------
  // The keeper's task
  // -------------------------------------------------------------------------

  /** `fate` says what becomes of a request that is cut off or not answered with `ok`. */
  datatype TaskEvent =
    | Told
    | ScheduleBegins
    | ScheduleAnswered(fate: Fate, ok: bool)
    | PublishBegins
    | PublishAnswered(fate: Fate)
    | RestartNotFound
    | Reacts(fate: Fate)
    | FatalStop
    | SendAnswered(fate: Fate, ok: bool)
    | ClearAnswered(fate: Fate)
    | CancelAnswered(landed: bool, ok: bool)

  datatype Outcome = Outcome(keeper: Keeper, change: Change)

  function StartLeaving(k: Keeper): Keeper {
    match k.slot
    case Some(id) => k.(phase := SendingLeave(id), slot := None)
    case None => k.(phase := Clearing)
  }

  function StartHandOver(k: Keeper): Keeper {
    match k.slot
    case Some(id) => k.(phase := Cancelling(id), slot := None)
    case None => k.(phase := Stopped)
  }

  /** The request that a keeper has in flight is cut off. */
  function CutOff(k: Keeper, fate: Fate): Change {
    match k.phase
    case Scheduling => Fated(Scheduled, fate)
    case Publishing => Fated(Renewed, fate)
    case SendingLeave(id) => Fated(Fired(id), fate)
    case Clearing => Fated(Cleared, fate)
    case _ => Nothing
  }

  /** One event of a keeper's task, given the scheduled leaves and the next fresh id. */
  function Task(k: Keeper, e: TaskEvent, pending: map<nat, nat>, nextId: nat): Outcome {
    match e
    case Told => Outcome(Request(k, Leave), Nothing)
    case ScheduleBegins =>
      Outcome(if k.phase == Ticking && k.slot.None? then k.(phase := Scheduling) else k, Nothing)
    case ScheduleAnswered(fate, ok) =>
      if k.phase != Scheduling then Outcome(k, Nothing)
      else if ok then Outcome(k.(phase := Ticking, slot := Some(nextId)), Scheduled)
      else Outcome(k.(phase := Ticking), Fated(Scheduled, fate))
    case PublishBegins =>
      Outcome(if k.phase == Ticking then k.(phase := Publishing) else k, Nothing)
    case PublishAnswered(fate) =>
      if k.phase != Publishing then Outcome(k, Nothing) else Outcome(k.(phase := Ticking), Fated(Renewed, fate))
    case RestartNotFound =>
      Outcome(if k.phase == Ticking && k.slot.Some? && k.slot.value !in pending then k.(slot := None) else k, Nothing)
    case Reacts(fate) =>
      if !k.Running() || k.cmd == Hold then Outcome(k, Nothing)
      else Outcome(if k.cmd == Leave then StartLeaving(k) else StartHandOver(k), CutOff(k, fate))
    case FatalStop =>
      Outcome(if k.phase == Ticking then StartLeaving(k) else k, Nothing)
    case SendAnswered(fate, ok) =>
      if !k.phase.SendingLeave? then Outcome(k, Nothing)
      else
        var id := k.phase.id;
        Outcome(k.(phase := if ok && id in pending then Stopped else Clearing),
                if id !in pending then Nothing else if ok then Fired(id) else Fated(Fired(id), fate))
    case ClearAnswered(fate) =>
      if k.phase != Clearing then Outcome(k, Nothing)
      else Outcome(k.(phase := Stopped), Fated(Cleared, fate))
    case CancelAnswered(landed, ok) =>
      if !k.phase.Cancelling? then Outcome(k, Nothing)
      else
        var id := k.phase.id;
        Outcome(k.(phase := Stopped, slot := if ok then None else Some(id)),
                if landed || ok then Unscheduled(id) else Nothing)
  }

  function Without(pending: map<nat, nat>, id: nat): map<nat, nat> {
    map i | i in pending && i != id :: pending[i]
  }

  /** The homeserver's side of a change made on behalf of hold `p`: never a join. */
  function Serve(s: State, p: nat, c: Change): (n: State)
    ensures n.hold == s.hold && n.newest == s.newest && n.keepers == s.keepers && n.registry == s.registry
    ensures n.effects == s.effects
            || (|n.effects| == |s.effects| + 1 && n.effects[..|s.effects|] == s.effects
                && !n.effects[|s.effects|].Joined?)
  {
    match c
    case Nothing => s
    case Scheduled => s.(pending := s.pending[s.nextId := p], nextId := s.nextId + 1)
    case Unscheduled(id) => s.(pending := Without(s.pending, id))
    case Fired(id) =>
      if id in s.pending then
        s.(pending := Without(s.pending, id), effects := s.effects + [Left(s.pending[id])])
      else s
    case Cleared => s.(effects := s.effects + [Left(p)])
    case Renewed => s.(effects := s.effects + [Published(p)])
    case Adrift(c) => s.(stray := s.stray + multiset{Stray(p, c)})
  }

  function Commit(s: State, p: nat, x: Outcome): State {
    Serve(s, p, x.change).(keepers := s.keepers[p := x.keeper])
  }

  // -------------------------------------------------------------------------
  // The holds
  // -------------------------------------------------------------------------

  datatype HoldEvent =
    | HoldBegins
    | PrevStopped
    | PrevAborted(fate: Fate)
    | StaleCancelled(landed: bool, ok: bool)
    | JoinAnswered(fate: Fate, ok: bool)
    | FirstArmAnswered(fate: Fate, ok: bool)
    | HoldDropped(fate: Fate)

  /** The stopped predecessor's delay id, if it left one, is taken to be cancelled. */
  function TakeStale(s: State, p: nat, k: Keeper): State {
    match k.slot
    case Some(id) => s.(keepers := s.keepers[p := k.(phase := Stopped, slot := None)], hold := CancellingStale(p, id))
    case None => s.(keepers := s.keepers[p := k.(phase := Stopped)], hold := Joining)
  }

  /** The keeper of the newest hold starts running and is registered. */
  function Spawn(s: State, slot: Option<nat>): State {
    s.(keepers := s.keepers[s.newest := Keeper(Hold, Ticking, slot)], registry := Some(s.newest), hold := Idle)
  }

  /** What becomes of the newest hold's join. */
  function Join(s: State, fate: Fate): State {
    match fate
    case Lands => s.(effects := s.effects + [Joined(s.newest)])
    case _ => Serve(s, s.newest, Fated(Renewed, fate))
  }

  function HoldStep(s: State, e: HoldEvent): State {
    match e
    case HoldBegins =>
      if s.hold != Idle then s
      else if s.registry.Some? && s.registry.value in s.keepers then
        var p := s.registry.value;
        s.(keepers := s.keepers[p := Request(s.keepers[p], HandOver)],
           registry := None, newest := s.newest + 1, hold := AwaitingStop(p))
      else s.(registry := None, newest := s.newest + 1, hold := Joining)
    case PrevStopped =>
      if s.hold.AwaitingStop? && s.hold.prev in s.keepers && s.keepers[s.hold.prev].phase == Stopped then
        TakeStale(s, s.hold.prev, s.keepers[s.hold.prev])
      else s
    case PrevAborted(fate) =>
      if s.hold.AwaitingStop? && s.hold.prev in s.keepers && s.keepers[s.hold.prev].phase != Stopped then
        var k := s.keepers[s.hold.prev];
        TakeStale(Serve(s, s.hold.prev, CutOff(k, fate)), s.hold.prev, k)
      else s
    case StaleCancelled(landed, ok) =>
      if s.hold.CancellingStale? then
        Serve(s, s.hold.prev, if landed || ok then Unscheduled(s.hold.id) else Nothing).(hold := Joining)
      else s
    case JoinAnswered(fate, ok) =>
      if s.hold.Joining? then Join(s, if ok then Lands else fate).(hold := if ok then FirstArming else Idle) else s
    case FirstArmAnswered(fate, ok) =>
      if s.hold.FirstArming? then
        Spawn(Serve(s, s.newest, if ok then Scheduled else Fated(Scheduled, fate)), if ok then Some(s.nextId) else None)
      else s
    case HoldDropped(fate) =>
      (if s.hold.FirstArming? then Serve(s, s.newest, Fated(Scheduled, fate))
       else if s.hold.Joining? then Join(s, fate)
       else s).(hold := Idle)
  }

  // -------------------------------------------------------------------------
  // Runs
  // -------------------------------------------------------------------------

  datatype Event =
    | OfHold(hold: HoldEvent)
    | OfTask(keeper: nat, task: TaskEvent)
    | DelayFires(id: nat)
    | DelayDropped(id: nat)
    | StrayLands(stray: Stray)

  /** One event; an event that is not possible in `s` changes nothing. */
  function Next(s: State, e: Event): State {
    match e
    case OfHold(h) => HoldStep(s, h)
    case OfTask(p, t) =>
      if p in s.keepers then Commit(s, p, Task(s.keepers[p], t, s.pending, s.nextId)) else s
    case DelayFires(id) => Serve(s, 0, Fired(id))
    case DelayDropped(id) => Serve(s, 0, Unscheduled(id))
    case StrayLands(r) =>
      if r in s.stray then Serve(s.(stray := s.stray - multiset{r}), r.hold, r.request) else s
  }

  function Exec(s: State, events: seq<Event>): State {
    if events == [] then s else Next(Exec(s, events[..|events| - 1]), events[|events| - 1])
  }

  /** The ways to lose track of a leave or of a request: the predecessor had to be
      aborted; cancelling its stale delayed leave failed; a schedule request took effect
      but its id never arrived; the hold was dropped while it was retiring its
      predecessor; the delayed leave could not be sent now and stayed scheduled; a request
      was given up, or answered with an error, before it took effect. */
  ghost predicate Loses(s: State, e: Event) {
    match e
    case OfHold(PrevAborted(_)) => s.hold.AwaitingStop?
    case OfHold(StaleCancelled(landed, ok)) => s.hold.CancellingStale? && !landed && !ok
    case OfHold(JoinAnswered(fate, ok)) => s.hold.Joining? && !ok && fate == Later
    case OfHold(FirstArmAnswered(fate, ok)) => s.hold.FirstArming? && !ok && fate != Never
    case OfHold(HoldDropped(fate)) =>
      || s.hold.AwaitingStop? || s.hold.CancellingStale?
      || (s.hold.FirstArming? && fate != Never) || (s.hold.Joining? && fate == Later)
    case OfTask(p, t) => p in s.keepers && TaskLoses(s.keepers[p], t, s.pending)
    case _ => false
  }

  ghost predicate TaskLoses(k: Keeper, t: TaskEvent, pending: map<nat, nat>) {
    match t
    case ScheduleAnswered(fate, ok) => k.phase == Scheduling && !ok && fate != Never
    case PublishAnswered(fate) => k.phase == Publishing && fate == Later
    case Reacts(fate) => (k.phase == Scheduling && fate != Never) || (k.phase == Publishing && fate == Later)
    case SendAnswered(fate, ok) => k.phase.SendingLeave? && k.phase.id in pending && !ok && fate != Lands
    case ClearAnswered(fate) => k.phase == Clearing && fate == Later
    case _ => false
  }

  ghost predicate NothingLost(s: State, events: seq<Event>) {
    forall i :: 0 <= i < |events| ==> !Loses(Exec(s, events[..i]), events[i])
  }

  /** After a join of a hold, nothing of an older hold. */
  ghost predicate NothingOld(effects: seq<Effect>) {
    forall i, j :: 0 <= i < j < |effects| && effects[i].Joined? ==> effects[i].hold <= effects[j].hold
  }

  // -------------------------------------------------------------------------
  // What every event keeps
  // -------------------------------------------------------------------------

  /** A keeper that schedules, leaves or hands over has no id in the shared slot. */
  predicate SlotShape(k: Keeper) {
    k.slot.Some? ==> k.phase == Ticking || k.phase == Publishing || k.phase == Stopped
  }

  /** The requests that can be adrift. */
  predicate CanStray(c: Change) { c.Scheduled? || c.Fired? || c.Cleared? || c.Renewed? }

  ghost predicate Shape(s: State) {
    && (forall p :: p in s.keepers ==> p <= s.newest && SlotShape(s.keepers[p]))
    && (s.hold != Idle ==> s.registry.None? && s.newest !in s.keepers)
    && (s.registry.Some? ==> s.registry.value in s.keepers)
    && (s.hold.AwaitingStop? ==> s.hold.prev in s.keepers)
    && (forall p :: p in s.keepers && s.keepers[p].cmd == Hold ==> s.registry == Some(p))
    && (forall i :: i in s.pending ==> i < s.nextId && s.pending[i] <= s.newest)
    && (forall r :: r in s.stray ==> r.hold <= s.newest && CanStray(r.request))
  }

  /** A task never takes a command back, and keeps the shape of its slot. */
  lemma TaskShape(k: Keeper, e: TaskEvent, pending: map<nat, nat>, nextId: nat)
    requires SlotShape(k)
    ensures var x := Task(k, e, pending, nextId);
            && SlotShape(x.keeper) && (k.cmd != Hold ==> x.keeper.cmd == k.cmd)
            && (x.change.Adrift? ==> CanStray(x.change.request))
  {
  }

  lemma KeeperShape(s: State, p: nat)
    requires Shape(s) && p in s.keepers
    ensures p <= s.newest && SlotShape(s.keepers[p])
  {
  }

  lemma ServeShape(s: State, p: nat, c: Change)
    requires Shape(s) && (c.Scheduled? || c.Adrift? ==> p <= s.newest) && (c.Adrift? ==> CanStray(c.request))
    ensures Shape(Serve(s, p, c))
  {
  }

  lemma CommitShape(s: State, p: nat, x: Outcome)
    requires Shape(s) && p in s.keepers
    requires SlotShape(x.keeper) && (s.keepers[p].cmd != Hold ==> x.keeper.cmd == s.keepers[p].cmd)
    requires x.change.Adrift? ==> CanStray(x.change.request)
    ensures Shape(Commit(s, p, x))
  {
    ServeShape(s, p, x.change);
  }

  lemma TakeStaleShape(s: State, p: nat)
    requires Shape(s) && s.hold == AwaitingStop(p)
    ensures Shape(TakeStale(s, p, s.keepers[p]))
  {
  }

  lemma SpawnShape(s: State, slot: Option<nat>)
    requires Shape(s) && s.hold == FirstArming
    ensures Shape(Spawn(s, slot))
  {
  }

  lemma ScheduleShape(s: State, fate: Fate, ok: bool)
    requires Shape(s)
    ensures Shape(Serve(s, s.newest, if ok then Scheduled else Fated(Scheduled, fate)))
  {
    hide Shape;
    ServeShape(s, s.newest, if ok then Scheduled else Fated(Scheduled, fate));
  }

  lemma AbortShape(s: State, p: nat, fate: Fate)
    requires Shape(s) && s.hold == AwaitingStop(p) && p in s.keepers
    ensures var n := Serve(s, p, CutOff(s.keepers[p], fate));
            Shape(n) && Shape(TakeStale(n, p, s.keepers[p]))
  {
    hide Shape, Serve, TakeStale;
    KeeperShape(s, p);
    ServeShape(s, p, CutOff(s.keepers[p], fate));
    TakeStaleShape(Serve(s, p, CutOff(s.keepers[p], fate)), p);
  }

  lemma JoinShape(s: State, fate: Fate)
    requires Shape(s)
    ensures Shape(Join(s, fate)) && Join(s, fate).hold == s.hold
  {
    ServeShape(s, s.newest, Fated(Renewed, fate));
  }

  lemma MoveShape(s: State, h: HoldPhase)
    requires Shape(s) && (h == Idle || (s.hold != Idle && !h.AwaitingStop?))
    ensures Shape(s.(hold := h))
  {
  }

  lemma BeginsShape(s: State)
    requires Shape(s)
    ensures Shape(HoldStep(s, HoldBegins))
  {
  }

  lemma HoldShape(s: State, e: HoldEvent)
    requires Shape(s)
    ensures Shape(HoldStep(s, e))
  {
    hide Shape, Spawn, TakeStale, Serve, CutOff, Fated, Join;
    match e {
      case HoldBegins => BeginsShape(s);
      case PrevStopped =>
        if s.hold.AwaitingStop? && s.hold.prev in s.keepers {
          TakeStaleShape(s, s.hold.prev);
        }
      case PrevAborted(fate) =>
        if s.hold.AwaitingStop? && s.hold.prev in s.keepers {
          AbortShape(s, s.hold.prev, fate);
        }
      case StaleCancelled(landed, ok) =>
        if s.hold.CancellingStale? {
          var c := if landed || ok then Unscheduled(s.hold.id) else Nothing;
          ServeShape(s, s.hold.prev, c);
          MoveShape(Serve(s, s.hold.prev, c), Joining);
        }
      case JoinAnswered(fate, ok) =>
        var n := Join(s, if ok then Lands else fate);
        JoinShape(s, if ok then Lands else fate);
        if s.hold.Joining? {
          MoveShape(n, if ok then FirstArming else Idle);
        }
      case FirstArmAnswered(fate, ok) =>
        if s.hold.FirstArming? {
          ScheduleShape(s, fate, ok);
          SpawnShape(Serve(s, s.newest, if ok then Scheduled else Fated(Scheduled, fate)),
                     if ok then Some(s.nextId) else None);
        }
      case HoldDropped(fate) =>
        ScheduleShape(s, fate, false);
        MoveShape(Serve(s, s.newest, Fated(Scheduled, fate)), Idle);
        JoinShape(s, fate);
        MoveShape(Join(s, fate), Idle);
        MoveShape(s, Idle);
    }
  }

  lemma ShapeKept(s: State, e: Event)
    requires Shape(s)
    ensures Shape(Next(s, e))
  {
    match e {
      case OfHold(h) => HoldShape(s, h);
      case OfTask(p, t) =>
        if p in s.keepers {
          TaskShape(s.keepers[p], t, s.pending, s.nextId);
          CommitShape(s, p, Task(s.keepers[p], t, s.pending, s.nextId));
        }
      case DelayFires(id) => ServeShape(s, 0, Fired(id));
      case DelayDropped(id) => ServeShape(s, 0, Unscheduled(id));
      case StrayLands(r) =>
        if r in s.stray {
          StrayShape(s, r);
          ServeShape(s.(stray := s.stray - multiset{r}), r.hold, r.request);
        }
    }
  }

  lemma StrayShape(s: State, r: Stray)
    requires Shape(s) && r in s.stray
    ensures r.hold <= s.newest && CanStray(r.request) && Shape(s.(stray := s.stray - multiset{r}))
  {
  }

  lemma {:induction false} ShapeHolds(events: seq<Event>)
    ensures Shape(Exec(INIT, events))
  {
    if events != [] {
      ShapeHolds(events[..|events| - 1]);
      ShapeKept(Exec(INIT, events[..|events| - 1]), events[|events| - 1]);
    }
  }

  // -------------------------------------------------------------------------
  // The command leaves Hold once
  // -------------------------------------------------------------------------

  lemma CommandStays(s: State, e: Event, p: nat)
    requires Shape(s) && p in s.keepers && s.keepers[p].cmd != Hold
    ensures p in Next(s, e).keepers && Next(s, e).keepers[p].cmd == s.keepers[p].cmd
  {
    hide Serve, CutOff, Fated, Task;
    match e {
      case OfHold(h) =>
      case OfTask(q, t) =>
        if q in s.keepers {
          TaskShape(s.keepers[q], t, s.pending, s.nextId);
        }
      case _ =>
    }
  }

  /** A command given is never taken back or replaced, over any continuation. */
  lemma {:induction false} CommandLeavesHoldOnce(before: seq<Event>, after: seq<Event>, p: nat)
    requires p in Exec(INIT, before).keepers && Exec(INIT, before).keepers[p].cmd != Hold
    ensures p in Exec(INIT, before + after).keepers
    ensures Exec(INIT, before + after).keepers[p].cmd == Exec(INIT, before).keepers[p].cmd
  {
    hide Next, Shape;
    if after == [] {
      assert before + after == before;
    } else {
      var all := before + after;
      assert all[..|all| - 1] == before + after[..|after| - 1];
      CommandLeavesHoldOnce(before, after[..|after| - 1], p);
      ShapeHolds(all[..|all| - 1]);
      CommandStays(Exec(INIT, all[..|all| - 1]), all[|all| - 1], p);
    }
  }

  /** Once a newer hold has taken the slot, `leave` on an old handle, or dropping it,
      does nothing at all. */
  lemma OldHandleIsInert(events: seq<Event>, p: nat)
    requires var s := Exec(INIT, events); p in s.keepers && s.registry != Some(p)
    ensures var s := Exec(INIT, events); Next(s, OfTask(p, Told)) == s
  {
    ShapeHolds(events);
    var s := Exec(INIT, events);
    assert s.keepers[p := s.keepers[p]] == s.keepers;
  }

  // -------------------------------------------------------------------------
  // Without losses every leave is under control
  // -------------------------------------------------------------------------

  /** Who may still touch the membership is the registered keeper, or the one whose
      end the newest hold awaits. */
  ghost predicate InCharge(s: State, p: nat) {
    s.registry == Some(p) || s.hold == AwaitingStop(p)
  }

  /** A delayed leave that somebody can still cancel or send. */
  ghost predicate Accounted(s: State, id: nat, p: nat) {
    s.hold == CancellingStale(p, id) || (p in s.keepers && s.keepers[p].Owns(id))
  }

  ghost predicate UnderControl(s: State) {
    && Shape(s)
    && s.stray == multiset{}
    && (forall i :: i in s.pending ==> Accounted(s, i, s.pending[i]))
    && (forall p :: p in s.keepers && s.keepers[p].Active() ==> InCharge(s, p))
  }

  /** A task event that loses nothing wakes nobody up and disowns no scheduled leave. */
  lemma TaskControl(k: Keeper, e: TaskEvent, pending: map<nat, nat>, nextId: nat)
    requires SlotShape(k) && !TaskLoses(k, e, pending)
    ensures var x := Task(k, e, pending, nextId);
            && (x.keeper.Active() ==> k.Active()) && !x.change.Adrift?
            && (x.change.Scheduled? ==> x.keeper.Owns(nextId))
            && KeepsOwned(k, x, pending)
  {
  }

  ghost predicate KeepsOwned(k: Keeper, x: Outcome, pending: map<nat, nat>) {
    forall i :: i in pending && k.Owns(i) ==> x.keeper.Owns(i) || x.change == Unscheduled(i) || x.change == Fired(i)
  }

  lemma CommitAccounts(s: State, p: nat, x: Outcome, i: nat)
    requires UnderControl(s) && p in s.keepers && KeepsOwned(s.keepers[p], x, s.pending)
    requires x.change.Scheduled? ==> x.keeper.Owns(s.nextId)
    requires i in Commit(s, p, x).pending
    ensures Accounted(Commit(s, p, x), i, Commit(s, p, x).pending[i])
  {
    hide Shape;
    if i in s.pending {
      assert Accounted(s, i, s.pending[i]);
      PendingShape(s, i);
    }
  }

  lemma PendingShape(s: State, i: nat)
    requires Shape(s) && i in s.pending
    ensures i < s.nextId && s.pending[i] <= s.newest
  {
  }

  lemma CommitInCharge(s: State, p: nat, x: Outcome, q: nat)
    requires UnderControl(s) && p in s.keepers && (x.keeper.Active() ==> s.keepers[p].Active())
    requires q in Commit(s, p, x).keepers && Commit(s, p, x).keepers[q].Active()
    ensures InCharge(Commit(s, p, x), q)
  {
    assert q in s.keepers && s.keepers[q].Active();
    assert InCharge(s, q);
  }

  lemma CommitControl(s: State, p: nat, x: Outcome)
    requires UnderControl(s) && p in s.keepers && Shape(Commit(s, p, x))
    requires x.keeper.Active() ==> s.keepers[p].Active()
    requires (x.change.Scheduled? ==> x.keeper.Owns(s.nextId)) && !x.change.Adrift?
    requires KeepsOwned(s.keepers[p], x, s.pending)
    ensures UnderControl(Commit(s, p, x))
  {
    hide Shape;
    var n := Commit(s, p, x);
    forall i | i in n.pending
      ensures Accounted(n, i, n.pending[i])
    {
      CommitAccounts(s, p, x, i);
    }
    forall q | q in n.keepers && n.keepers[q].Active()
      ensures InCharge(n, q)
    {
      CommitInCharge(s, p, x, q);
    }
  }

  lemma TakeStaleControl(s: State)
    requires UnderControl(s) && s.hold.AwaitingStop?
    requires s.hold.prev in s.keepers && s.keepers[s.hold.prev].phase == Stopped
    ensures UnderControl(TakeStale(s, s.hold.prev, s.keepers[s.hold.prev]))
  {
    hide Shape;
    TakeStaleShape(s, s.hold.prev);
    var n := TakeStale(s, s.hold.prev, s.keepers[s.hold.prev]);
    forall i | i in n.pending
      ensures Accounted(n, i, n.pending[i])
    {
      assert Accounted(s, i, s.pending[i]);
    }
    forall q | q in n.keepers && n.keepers[q].Active()
      ensures InCharge(n, q)
    {
      assert q in s.keepers && InCharge(s, q);
    }
  }

  /** The keeper that is spawned takes charge: nobody else is active, and what is
      scheduled is its own. */
  lemma SpawnControl(s: State, slot: Option<nat>)
    requires Shape(s) && s.hold.FirstArming? && s.stray == multiset{}
    requires forall i :: i in s.pending ==> s.pending[i] == s.newest && slot == Some(i)
    requires forall p :: p in s.keepers ==> !s.keepers[p].Active()
    ensures UnderControl(Spawn(s, slot))
  {
    hide Shape;
    SpawnShape(s, slot);
  }

  lemma FirstArmControl(s: State, fate: Fate, ok: bool)
    requires UnderControl(s) && s.hold.FirstArming? && (ok || fate == Never)
    ensures UnderControl(HoldStep(s, FirstArmAnswered(fate, ok)))
  {
    hide Shape, UnderControl;
    ControlShape(s);
    forall i: nat
      ensures i !in s.pending
    {
      NothingPending(s, i);
    }
    forall p | p in s.keepers
      ensures !s.keepers[p].Active()
    {
      NobodyActive(s, p);
    }
    var c := if ok then Scheduled else Nothing;
    ServeShape(s, s.newest, c);
    SpawnControl(Serve(s, s.newest, c), if ok then Some(s.nextId) else None);
  }

  lemma ControlShape(s: State)
    requires UnderControl(s)
    ensures Shape(s) && s.stray == multiset{}
  {
  }

  lemma BeginsControl(s: State)
    requires UnderControl(s)
    ensures UnderControl(HoldStep(s, HoldBegins))
  {
    hide Shape;
    HoldShape(s, HoldBegins);
    var n := HoldStep(s, HoldBegins);
    IdleShape(s);
    forall i | i in n.pending
      ensures Accounted(n, i, n.pending[i])
    {
      assert Accounted(s, i, s.pending[i]);
    }
    forall q | q in n.keepers && n.keepers[q].Active()
      ensures InCharge(n, q)
    {
      assert q in s.keepers && InCharge(s, q);
    }
  }

  lemma IdleShape(s: State)
    requires Shape(s)
    ensures s.registry.Some? ==> s.registry.value in s.keepers
  {
  }

  lemma HoldControl(s: State, e: HoldEvent)
    requires UnderControl(s) && !Loses(s, OfHold(e))
    ensures UnderControl(HoldStep(s, e))
  {
    hide Shape, TakeStale, Spawn;
    HoldShape(s, e);
    match e {
      case HoldBegins => BeginsControl(s);
      case PrevStopped =>
        if s.hold.AwaitingStop? && s.hold.prev in s.keepers && s.keepers[s.hold.prev].phase == Stopped {
          TakeStaleControl(s);
        }
      case FirstArmAnswered(fate, ok) =>
        if s.hold.FirstArming? {
          FirstArmControl(s, fate, ok);
        }
      case _ =>
        var n := HoldStep(s, e);
        forall i | i in n.pending
          ensures Accounted(n, i, n.pending[i])
        {
          assert Accounted(s, i, s.pending[i]);
        }
        forall q | q in n.keepers && n.keepers[q].Active()
          ensures InCharge(n, q)
        {
          assert InCharge(s, q);
        }
    }
  }

  lemma ControlKept(s: State, e: Event)
    requires UnderControl(s) && !Loses(s, e)
    ensures UnderControl(Next(s, e))
  {
    ShapeKept(s, e);
    match e {
      case OfHold(h) => HoldControl(s, h);
      case OfTask(p, t) =>
        if p in s.keepers {
          TaskControl(s.keepers[p], t, s.pending, s.nextId);
          CommitControl(s, p, Task(s.keepers[p], t, s.pending, s.nextId));
        }
      case DelayFires(id) =>
      case DelayDropped(id) =>
      case StrayLands(p) =>
    }
  }

  // -------------------------------------------------------------------------
  // Old holds that can no longer act
  // -------------------------------------------------------------------------

  predicate Harmless(k: Keeper) { k.phase.Stopped? || k.phase.Cancelling? }

  /** No hold before `e` can act on the membership: their keepers have stopped (or are
      only cancelling), none of their delayed leaves is scheduled, none of their requests
      is adrift (but to send a delayed leave, which does nothing unless it is scheduled). */
  ghost predicate Clean(s: State, e: nat) {
    && (forall p :: p in s.keepers && p < e ==> Harmless(s.keepers[p]))
    && (forall i :: i in s.pending ==> e <= s.pending[i])
    && (forall r :: r in s.stray ==> e <= r.hold || r.request.Fired?)
  }

  /** ... and no such hold is ahead in the registry either. */
  ghost predicate Inert(s: State, e: nat) {
    && Shape(s) && e <= s.newest && Clean(s, e)
    && (s.registry.Some? ==> e <= s.registry.value)
    && (s.hold.AwaitingStop? ==> e <= s.hold.prev)
  }

  /** The effects grew by nothing, or by one effect of hold `e` or a newer one. */
  ghost predicate Grows(before: seq<Effect>, after: seq<Effect>, e: nat) {
    after == before || (|after| == |before| + 1 && after[..|before|] == before && e <= after[|before|].hold)
  }

  lemma TaskHarmless(k: Keeper, e: TaskEvent, pending: map<nat, nat>, nextId: nat)
    requires Harmless(k)
    ensures var x := Task(k, e, pending, nextId); Harmless(x.keeper) && (x.change.Nothing? || x.change.Unscheduled?)
  {
  }

  lemma CommitInert(s: State, p: nat, x: Outcome, e: nat)
    requires Inert(s, e) && p in s.keepers && Shape(Commit(s, p, x))
    requires x.change.Adrift? ==> CanStray(x.change.request)
    requires p < e ==> Harmless(x.keeper) && (x.change.Nothing? || x.change.Unscheduled?)
    ensures Inert(Commit(s, p, x), e) && Grows(s.effects, Commit(s, p, x).effects, e)
  {
    hide Shape, Serve;
    KeeperShape(s, p);
    ServeShape(s, p, x.change);
    ServeInert(s, p, x.change, e);
  }

  lemma ServeInert(s: State, p: nat, c: Change, e: nat)
    requires Inert(s, e) && Shape(Serve(s, p, c)) && (c.Nothing? || c.Unscheduled? || c.Fired? || e <= p)
    ensures Inert(Serve(s, p, c), e) && Grows(s.effects, Serve(s, p, c).effects, e)
  {
    hide Shape;
  }

  lemma TakeStaleInert(s: State, e: nat)
    requires Inert(s, e) && s.hold.AwaitingStop? && s.hold.prev in s.keepers
    ensures var n := TakeStale(s, s.hold.prev, s.keepers[s.hold.prev]); Inert(n, e) && n.effects == s.effects
  {
    hide Shape;
    TakeStaleShape(s, s.hold.prev);
  }

  lemma SpawnInert(s: State, slot: Option<nat>, e: nat)
    requires Inert(s, e) && s.hold.FirstArming?
    ensures Inert(Spawn(s, slot), e) && Spawn(s, slot).effects == s.effects
  {
    hide Shape;
    SpawnShape(s, slot);
  }

  lemma ScheduleInert(s: State, fate: Fate, ok: bool, e: nat)
    requires Inert(s, e)
    ensures var n := Serve(s, s.newest, if ok then Scheduled else Fated(Scheduled, fate));
            Inert(n, e) && Grows(s.effects, n.effects, e) && n.effects == s.effects
  {
    hide Shape;
    ScheduleShape(s, fate, ok);
    ServeInert(s, s.newest, if ok then Scheduled else Fated(Scheduled, fate), e);
  }

  lemma AbortInert(s: State, p: nat, fate: Fate, e: nat)
    requires Inert(s, e) && s.hold == AwaitingStop(p) && p in s.keepers
    ensures var n := TakeStale(Serve(s, p, CutOff(s.keepers[p], fate)), p, s.keepers[p]);
            Inert(n, e) && Grows(s.effects, n.effects, e)
  {
    hide Shape, Serve, CutOff;
    AbortShape(s, p, fate);
    ServeInert(s, p, CutOff(s.keepers[p], fate), e);
    TakeStaleInert(Serve(s, p, CutOff(s.keepers[p], fate)), e);
  }

  lemma JoinInert(s: State, fate: Fate, e: nat)
    requires Inert(s, e)
    ensures Inert(Join(s, fate), e) && Grows(s.effects, Join(s, fate).effects, e)
  {
    hide Serve, Shape;
    ServeShape(s, s.newest, Fated(Renewed, fate));
    ServeInert(s, s.newest, Fated(Renewed, fate), e);
    JoinShape(s, fate);
  }

  lemma MoveInert(s: State, h: HoldPhase, e: nat)
    requires Inert(s, e) && Shape(s.(hold := h)) && !h.AwaitingStop?
    ensures Inert(s.(hold := h), e)
  {
  }

  lemma BeginsInert(s: State, e: nat)
    requires Inert(s, e)
    ensures Inert(HoldStep(s, HoldBegins), e) && HoldStep(s, HoldBegins).effects == s.effects
  {
    hide Shape;
    BeginsShape(s);
  }

  lemma HoldInert(s: State, h: HoldEvent, e: nat)
    requires Inert(s, e)
    ensures Inert(HoldStep(s, h), e) && Grows(s.effects, HoldStep(s, h).effects, e)
  {
    hide Shape, Clean, TakeStale, Spawn, Serve, CutOff, Fated, Join;
    HoldShape(s, h);
    match h {
      case HoldBegins => BeginsInert(s, e);
      case PrevStopped =>
        if s.hold.AwaitingStop? && s.hold.prev in s.keepers {
          TakeStaleInert(s, e);
        }
      case PrevAborted(fate) =>
        if s.hold.AwaitingStop? && s.hold.prev in s.keepers {
          AbortInert(s, s.hold.prev, fate, e);
        }
      case StaleCancelled(landed, ok) =>
        if s.hold.CancellingStale? {
          var c := if landed || ok then Unscheduled(s.hold.id) else Nothing;
          ServeShape(s, s.hold.prev, c);
          ServeInert(s, s.hold.prev, c, e);
          MoveInert(Serve(s, s.hold.prev, c), Joining, e);
        }
      case JoinAnswered(fate, ok) =>
        if s.hold.Joining? {
          JoinInert(s, if ok then Lands else fate, e);
          MoveInert(Join(s, if ok then Lands else fate), if ok then FirstArming else Idle, e);
        }
      case FirstArmAnswered(fate, ok) =>
        if s.hold.FirstArming? {
          var c := if ok then Scheduled else Fated(Scheduled, fate);
          ScheduleInert(s, fate, ok, e);
          SpawnInert(Serve(s, s.newest, c), if ok then Some(s.nextId) else None, e);
        }
      case HoldDropped(fate) =>
        ScheduleInert(s, fate, false, e);
        JoinInert(s, fate, e);
        if s.hold.FirstArming? {
          MoveInert(Serve(s, s.newest, Fated(Scheduled, fate)), Idle, e);
        } else {
          MoveInert(if s.hold.Joining? then Join(s, fate) else s, Idle, e);
        }
    }
  }

  /** Once inert, always inert, whatever happens afterwards. */
  lemma InertKept(s: State, ev: Event, e: nat)
    requires Inert(s, e)
    ensures Inert(Next(s, ev), e) && Grows(s.effects, Next(s, ev).effects, e)
  {
    ShapeKept(s, ev);
    match ev {
      case OfHold(h) => HoldInert(s, h, e);
      case OfTask(p, t) =>
        if p in s.keepers {
          if p < e {
            TaskHarmless(s.keepers[p], t, s.pending, s.nextId);
          }
          KeeperShape(s, p);
          TaskShape(s.keepers[p], t, s.pending, s.nextId);
          CommitInert(s, p, Task(s.keepers[p], t, s.pending, s.nextId), e);
        }
      case DelayFires(id) => ServeInert(s, 0, Fired(id), e);
      case DelayDropped(id) => ServeInert(s, 0, Unscheduled(id), e);
      case StrayLands(r) =>
        if r in s.stray {
          StrayShape(s, r);
          ServeInert(s.(stray := s.stray - multiset{r}), r.hold, r.request, e);
        }
    }
  }

  /** `after` extends `before` by effects of hold `e` or newer ones. */
  ghost predicate Extends(before: seq<Effect>, after: seq<Effect>, e: nat) {
    && |before| <= |after| && after[..|before|] == before
    && forall j :: |before| <= j < |after| ==> e <= after[j].hold
  }

  lemma ExtendsGrows(a: seq<Effect>, b: seq<Effect>, c: seq<Effect>, e: nat)
    requires Extends(a, b, e) && Grows(b, c, e)
    ensures Extends(a, c, e)
  {
    assert forall j :: 0 <= j < |b| ==> c[j] == b[j];
  }

  lemma {:induction false} InertForGood(s: State, events: seq<Event>, e: nat)
    requires Inert(s, e)
    ensures Inert(Exec(s, events), e) && Extends(s.effects, Exec(s, events).effects, e)
  {
    if events != [] {
      var before := Exec(s, events[..|events| - 1]);
      InertForGood(s, events[..|events| - 1], e);
      InertKept(before, events[|events| - 1], e);
      ExtendsGrows(s.effects, before.effects, Next(before, events[|events| - 1]).effects, e);
    }
  }

  // -------------------------------------------------------------------------
  // Safety of a whole run
  // -------------------------------------------------------------------------

  /** Every hold that has joined has put all older ones to rest. */
  ghost predicate JoinsAreFinal(s: State) {
    forall i :: 0 <= i < |s.effects| && s.effects[i].Joined? ==> Inert(s, s.effects[i].hold)
  }

  lemma NothingPending(s: State, i: nat)
    requires UnderControl(s) && (s.hold.Joining? || s.hold.FirstArming?)
    ensures i !in s.pending
  {
  }

  lemma NobodyActive(s: State, p: nat)
    requires UnderControl(s) && (s.hold.Joining? || s.hold.FirstArming?) && p in s.keepers
    ensures !s.keepers[p].Active()
  {
  }

  lemma JoiningIsClean(s: State)
    requires UnderControl(s) && (s.hold.Joining? || s.hold.FirstArming?)
    ensures Inert(s, s.newest)
  {
    forall i: nat
      ensures i !in s.pending
    {
      NothingPending(s, i);
    }
    forall p | p in s.keepers
      ensures !s.keepers[p].Active()
    {
      NobodyActive(s, p);
    }
  }

  lemma SafeStep(s: State, e: Event)
    requires UnderControl(s) && JoinsAreFinal(s) && NothingOld(s.effects) && !Loses(s, e)
    ensures var n := Next(s, e); UnderControl(n) && JoinsAreFinal(n) && NothingOld(n.effects)
  {
    hide Next, Shape;
    ControlKept(s, e);
    var n := Next(s, e);
    EffectsGrow(s, e);
    forall i | 0 <= i < |n.effects| && n.effects[i].Joined?
      ensures Inert(n, n.effects[i].hold)
    {
      if i < |s.effects| {
        InertKept(s, e, s.effects[i].hold);
      } else {
        JoiningIsClean(s);
        InertKept(s, e, s.newest);
      }
    }
    forall i, j | 0 <= i < j < |n.effects| && n.effects[i].Joined?
      ensures n.effects[i].hold <= n.effects[j].hold
    {
      if j == |s.effects| {
        InertKept(s, e, s.effects[i].hold);
      }
    }
  }

  /** An event has at most one effect, and a join is always the newest hold's. */
  lemma EffectsGrow(s: State, e: Event)
    requires s.stray == multiset{}
    ensures var n := Next(s, e);
            && (|| n.effects == s.effects
                || (|n.effects| == |s.effects| + 1 && n.effects[..|s.effects|] == s.effects))
            && (n.effects != s.effects && n.effects[|s.effects|].Joined? ==>
                  n.effects[|s.effects|].hold == s.newest && s.hold.Joining?)
  {
    hide Serve, CutOff, Fated, Task;
    match e {
      case OfHold(h) => HoldEffects(s, h);
      case _ =>
    }
  }

  lemma HoldEffects(s: State, h: HoldEvent)
    ensures var n := HoldStep(s, h);
            && (|| n.effects == s.effects
                || (|n.effects| == |s.effects| + 1 && n.effects[..|s.effects|] == s.effects))
            && (n.effects != s.effects && n.effects[|s.effects|].Joined? ==>
                  n.effects[|s.effects|].hold == s.newest && s.hold.Joining?)
  {
    hide Serve, CutOff, Fated;
  }

  lemma {:induction false} SafeRun(events: seq<Event>)
    requires NothingLost(INIT, events)
    ensures var n := Exec(INIT, events); UnderControl(n) && JoinsAreFinal(n) && NothingOld(n.effects)
  {
    if events != [] {
      var before := events[..|events| - 1];
      assert forall i :: 0 <= i < |before| ==> before[..i] == events[..i];
      SafeRun(before);
      SafeStep(Exec(INIT, before), events[|events| - 1]);
    }
  }

  /** Take-over safety: over every interleaving in which nothing gets lost, no publication,
      leave, clear or delayed leave of an older hold reaches the homeserver after the join
      of a newer one, and whenever a hold joins, every older one has been put to rest. */
  lemma TakeoverIsSafe(events: seq<Event>)
    requires NothingLost(INIT, events)
    ensures NothingOld(Exec(INIT, events).effects)
    ensures Exec(INIT, events).hold.Joining? ==> Clean(Exec(INIT, events), Exec(INIT, events).newest)
  {
    SafeRun(events);
    if Exec(INIT, events).hold.Joining? {
      JoiningIsClean(Exec(INIT, events));
    }
  }

  // -------------------------------------------------------------------------
  // When a join is safe for good
  // -------------------------------------------------------------------------

  /** Some continuation lets a hold before `e` act on the membership after `s`. */
  ghost predicate OldMayAct(s: State, e: nat) {
    exists events, j :: 0 <= j && OldActs(s, events, j, e)
  }

  ghost predicate OldActs(s: State, events: seq<Event>, j: nat, e: nat) {
    |s.effects| <= j < |Exec(s, events).effects| && Exec(s, events).effects[j].hold < e
  }

  lemma ExecOne(s: State, a: Event)
    ensures Exec(s, [a]) == Next(s, a)
  {
    assert [a][..0] == [];
  }

  lemma ExecMore(s: State, before: seq<Event>, a: Event)
    ensures Exec(s, before + [a]) == Next(Exec(s, before), a)
  {
    assert (before + [a])[..|before|] == before;
  }

  /** One more event that acts for an older hold. */
  lemma ActsNext(s: State, before: seq<Event>, a: Event, e: nat)
    requires var n := Exec(s, before); var m := Next(n, a);
             n.effects == s.effects && |m.effects| == |s.effects| + 1 && m.effects[|s.effects|].hold < e
    ensures OldMayAct(s, e)
  {
    ExecMore(s, before, a);
    assert OldActs(s, before + [a], |s.effects|, e);
  }

  lemma DelayActs(s: State, before: seq<Event>, i: nat, e: nat)
    requires var n := Exec(s, before); n.effects == s.effects && i in n.pending && n.pending[i] < e
    ensures OldMayAct(s, e)
  {
    ActsNext(s, before, DelayFires(i), e);
  }

  lemma ClearingActs(s: State, before: seq<Event>, p: nat, e: nat)
    requires var n := Exec(s, before);
             p in n.keepers && n.keepers[p].phase == Clearing && n.effects == s.effects
    requires p < e
    ensures OldMayAct(s, e)
  {
    hide Exec, HoldStep, CutOff;
    ActsNext(s, before, OfTask(p, ClearAnswered(Lands)), e);
  }

  /** A keeper that is clearing the membership may do so now; one that is sending its
      leave may be refused and clear instead. */
  lemma LeavingActs(s: State, p: nat, e: nat)
    requires p in s.keepers && s.keepers[p].Leaving() && p < e
    ensures OldMayAct(s, e)
  {
    hide HoldStep, CutOff;
    if s.keepers[p].phase == Clearing {
      ClearingActs(s, [], p, e);
    } else {
      var a := OfTask(p, SendAnswered(Never, false));
      ExecOne(s, a);
      ClearingActs(s, [a], p, e);
    }
  }

  /** A running keeper may refresh the membership, or schedule a leave that fires. */
  lemma RunningActs(s: State, p: nat, e: nat)
    requires p in s.keepers && s.keepers[p].Running() && p < e
    ensures OldMayAct(s, e)
  {
    if s.keepers[p].phase == Scheduling {
      var a := OfTask(p, ScheduleAnswered(Lands, false));
      ExecOne(s, a);
      DelayActs(s, [a], s.nextId, e);
    } else if s.keepers[p].phase == Publishing {
      ActsNext(s, [], OfTask(p, PublishAnswered(Lands)), e);
    } else {
      var a := OfTask(p, PublishBegins);
      ExecOne(s, a);
      ActsNext(s, [a], OfTask(p, PublishAnswered(Lands)), e);
    }
  }

  /** A request adrift may arrive; if it schedules a leave, that fires. */
  lemma StrayActs(s: State, r: Stray, e: nat)
    requires Shape(s) && r in s.stray && r.hold < e && !r.request.Fired?
    ensures OldMayAct(s, e)
  {
    StrayShape(s, r);
    if r.request.Scheduled? {
      ExecOne(s, StrayLands(r));
      DelayActs(s, [StrayLands(r)], s.nextId, e);
    } else {
      ActsNext(s, [], StrayLands(r), e);
    }
  }

  /** Whoever is not clean may act. */
  lemma UncleanActs(s: State, e: nat)
    requires Shape(s) && !Clean(s, e)
    ensures OldMayAct(s, e)
  {
    if p :| p in s.keepers && p < e && !Harmless(s.keepers[p]) {
      if s.keepers[p].Leaving() {
        LeavingActs(s, p, e);
      } else {
        RunningActs(s, p, e);
      }
    } else if i :| i in s.pending && s.pending[i] < e {
      DelayActs(s, [], i, e);
    } else {
      var r :| r in s.stray && r.hold < e && !r.request.Fired?;
      StrayActs(s, r, e);
    }
  }

  /** Exactly when a join is safe, whatever was lost before it and whatever is lost
      after it: an older hold can touch the membership after the newest hold's join if
      and only if, at the join, an older keeper has not stopped, one of its delayed
      leaves is still scheduled, or a request of it that was cut off or answered with an
      error (to publish, to clear or to schedule a leave) may still arrive. */
  lemma JoinIsSafeIffClean(events: seq<Event>)
    requires Exec(INIT, events).hold.Joining?
    ensures var s := Exec(INIT, events);
            OldMayAct(Next(s, OfHold(JoinAnswered(Lands, true))), s.newest) <==> !Clean(s, s.newest)
  {
    var s := Exec(INIT, events);
    var n := Next(s, OfHold(JoinAnswered(Lands, true)));
    ShapeHolds(events);
    ShapeKept(s, OfHold(JoinAnswered(Lands, true)));
    if Clean(s, s.newest) {
      assert Inert(n, s.newest);
      forall after, j: int | 0 <= j
        ensures !OldActs(n, after, j, s.newest)
      {
        InertForGood(n, after, s.newest);
      }
    } else {
      UncleanActs(n, s.newest);
    }
  }

  /** A loss that needs no slow, aborted or dropped party: the old handle leaves, the
      homeserver refuses to send its delayed leave now, the membership is cleared, and
      the delayed leave, whose id nobody holds any more, removes the next hold. */
  const REFUSED_LEAVE: seq<Event> := [
    OfHold(HoldBegins), OfHold(JoinAnswered(Lands, true)), OfHold(FirstArmAnswered(Lands, true)),
    OfTask(1, Told), OfTask(1, Reacts(Never)), OfTask(1, SendAnswered(Never, false)), OfTask(1, ClearAnswered(Lands)),
    OfHold(HoldBegins), OfHold(PrevStopped), OfHold(JoinAnswered(Lands, true)), DelayFires(0)]

  /** The events before position `n` lead to `s`, and lose nothing but at position 5. */
  ghost predicate Reaches(events: seq<Event>, n: nat, s: State) {
    && n <= |events| && s == Exec(INIT, events[..n])
    && forall i | 0 <= i < n && i != 5 :: !Loses(Exec(INIT, events[..i]), events[i])
  }

  lemma OneMoreEvent(events: seq<Event>, n: nat, s: State, e: Event, t: State)
    requires Reaches(events, n, s) && n < |events| && e == events[n] && t == Next(s, e)
    requires n == 5 || !Loses(s, e)
    ensures Reaches(events, n + 1, t)
  {
    hide Next, Loses;
    assert events[..n + 1][..n] == events[..n];
  }

  /** Hold 1 alone, its delayed leave 0 scheduled. */
  function Alone(k: Keeper, effects: seq<Effect>): State {
    State(map[1 := k], 1, Idle, Some(1), map[0 := 1], 1, multiset{}, effects)
  }

  lemma FirstJoin() returns (s: State)
    ensures Reaches(REFUSED_LEAVE, 2, s) && s == INIT.(newest := 1, hold := FirstArming, effects := [Joined(1)])
  {
    hide Task, TaskLoses;
    var s1 := INIT.(newest := 1, hold := Joining);
    OneMoreEvent(REFUSED_LEAVE, 0, INIT, OfHold(HoldBegins), s1);
    s := s1.(hold := FirstArming, effects := [Joined(1)]);
    OneMoreEvent(REFUSED_LEAVE, 1, s1, OfHold(JoinAnswered(Lands, true)), s);
  }

  lemma FirstHold()
    ensures Reaches(REFUSED_LEAVE, 3, Alone(Keeper(Hold, Ticking, Some(0)), [Joined(1)]))
  {
    hide Exec, Task, TaskLoses, Reaches;
    var s2 := FirstJoin();
    OneMoreEvent(REFUSED_LEAVE, 2, s2, OfHold(FirstArmAnswered(Lands, true)),
                 Alone(Keeper(Hold, Ticking, Some(0)), [Joined(1)]));
  }

  lemma OnlyKeeper(s: State, k: Keeper, t: TaskEvent)
    requires s.keepers == map[1 := k]
    ensures var x := Task(k, t, s.pending, s.nextId);
            Next(s, OfTask(1, t)) == Serve(s, 1, x.change).(keepers := map[1 := x.keeper])
  {
    var x := Task(k, t, s.pending, s.nextId);
    assert s.keepers[1 := x.keeper] == map[1 := x.keeper];
  }

  lemma AloneStep(n: nat, k: Keeper, effects: seq<Effect>, t: TaskEvent, k': Keeper, effects': seq<Effect>)
    requires Reaches(REFUSED_LEAVE, n, Alone(k, effects)) && n < |REFUSED_LEAVE| && REFUSED_LEAVE[n] == OfTask(1, t)
    requires n == 5 || !TaskLoses(k, t, map[0 := 1])
    requires || (Task(k, t, map[0 := 1], 1) == Outcome(k', Nothing) && effects' == effects)
             || (Task(k, t, map[0 := 1], 1) == Outcome(k', Cleared) && effects' == effects + [Left(1)])
    ensures Reaches(REFUSED_LEAVE, n + 1, Alone(k', effects'))
  {
    hide Exec, Task, Reaches;
    OnlyKeeper(Alone(k, effects), k, t);
    OneMoreEvent(REFUSED_LEAVE, n, Alone(k, effects), OfTask(1, t), Alone(k', effects'));
  }

  lemma FirstLeaveBegins()
    ensures Reaches(REFUSED_LEAVE, 5, Alone(Keeper(Leave, SendingLeave(0), None), [Joined(1)]))
  {
    hide Exec, Loses;
    FirstHold();
    AloneStep(3, Keeper(Hold, Ticking, Some(0)), [Joined(1)], Told, Keeper(Leave, Ticking, Some(0)), [Joined(1)]);
    AloneStep(4, Keeper(Leave, Ticking, Some(0)), [Joined(1)], Reacts(Never),
              Keeper(Leave, SendingLeave(0), None), [Joined(1)]);
  }

  lemma FirstLeave() returns (s: State)
    ensures Reaches(REFUSED_LEAVE, 7, s) && s == Alone(Keeper(Leave, Stopped, None), [Joined(1), Left(1)])
  {
    hide Exec, Loses;
    FirstLeaveBegins();
    AloneStep(5, Keeper(Leave, SendingLeave(0), None), [Joined(1)], SendAnswered(Never, false),
              Keeper(Leave, Clearing, None), [Joined(1)]);
    AloneStep(6, Keeper(Leave, Clearing, None), [Joined(1)], ClearAnswered(Lands),
              Keeper(Leave, Stopped, None), [Joined(1), Left(1)]);
    s := Alone(Keeper(Leave, Stopped, None), [Joined(1), Left(1)]);
  }

  lemma SecondJoin() returns (s: State)
    ensures Reaches(REFUSED_LEAVE, 10, s)
    ensures s == Alone(Keeper(Leave, Stopped, None), [Joined(1), Left(1), Joined(2)])
                 .(registry := None, newest := 2, hold := FirstArming)
  {
    hide Exec, Task, TaskLoses, Reaches;
    var s7 := FirstLeave();
    var s8 := s7.(registry := None, newest := 2, hold := AwaitingStop(1));
    OneMoreEvent(REFUSED_LEAVE, 7, s7, OfHold(HoldBegins), s8);
    var s9 := s8.(hold := Joining);
    OneMoreEvent(REFUSED_LEAVE, 8, s8, OfHold(PrevStopped), s9);
    s := s9.(hold := FirstArming, effects := [Joined(1), Left(1), Joined(2)]);
    OneMoreEvent(REFUSED_LEAVE, 9, s9, OfHold(JoinAnswered(Lands, true)), s);
  }

  lemma RefusedLeaveRemovesTheNextHold()
    ensures Exec(INIT, REFUSED_LEAVE).effects == [Joined(1), Left(1), Joined(2), Left(1)]
    ensures !NothingOld(Exec(INIT, REFUSED_LEAVE).effects)
    ensures forall i | 0 <= i < |REFUSED_LEAVE| && i != 5 ::
              !Loses(Exec(INIT, REFUSED_LEAVE[..i]), REFUSED_LEAVE[i])
  {
    hide Exec, Task, TaskLoses;
    var s10 := SecondJoin();
    var s11 := s10.(pending := map[], effects := [Joined(1), Left(1), Joined(2), Left(1)]);
    OneMoreEvent(REFUSED_LEAVE, 10, s10, DelayFires(0), s11);
    assert REFUSED_LEAVE[..11] == REFUSED_LEAVE;
    assert s11.effects[2] == Joined(2) && s11.effects[3] == Left(1);
  }
}
