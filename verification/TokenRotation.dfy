/**
 Session tokens rotated by several clients through one store
 (crates/aqua-matrix-agent/src/lib.rs, `session_lock`, `mint_session_token`,
 `acquire_session_for`). Each step is one request or one file access; between two steps any
 other client may run. The identity provider numbers the refresh tokens it issues.
 */
module TokenRotation {
  import opened Basics

  datatype Identity = Identity(user: string, device: string)

  /** The cached session: whose it is, and its refresh token if it has one. */
  datatype Session = Session(who: Identity, refresh: Option<nat>)

  /** What a client asks for: a new token even if the cached one is still good, and for
      which identity, if it matters. */
  datatype Request = Request(force: bool, wanted: Option<Identity>)

  predicate Unexpected(wanted: Option<Identity>, who: Identity) { wanted.Some? && wanted.value != who }

  /** Where the session about to be saved comes from. */
  datatype Origin = FromExchange | FromLogin | Reused

  datatype Phase =
    | Idle
    | Waiting(request: Request)
    | Loaded(request: Request, cached: Option<Session>)
    | LoggingIn(request: Request)
    | Identifying(request: Request, token: Option<nat>)
    | Saving(request: Request, session: Session, origin: Origin)
  {
    /** Between taking the lock and giving it back. */
    predicate Inside() { !Idle? && !Waiting? }
  }

  /** The provider's answer to a refresh grant: it exchanges the token for a new one, or
      accepts it again; the reply to an exchange may be lost, or arrive in a state that
      reads as a refusal; the provider never sees the request; or it refuses the token. */
  datatype Grant = Rotated | Kept | Lost | Garbled | Unreachable | Refused
  {
    /** The new token never reaches the client. */
    predicate Wasted() { Lost? || Garbled? }
    /** Not a network failure, so a fresh login follows. */
    predicate Judged() { Refused? || Garbled? }
  }

  datatype Whoami = Same | Different | Offline | Rejected

  datatype Step =
    | Begin(client: nat, request: Request)
    | Acquire(client: nat, readable: bool)
    | UseCached(client: nat, answer: Whoami)
    | Refresh(client: nat, grant: Grant)
    | Login(client: nat, ok: bool, withRefresh: bool)
    | Identify(client: nat, who: Option<Identity>)
    | Save(client: nat, ok: bool)

  /** A token shown to the provider, and whether it had been exchanged before. */
  datatype Presented = Presented(token: nat, exchanged: bool)

  /** The session file, the lock, the clients, the provider's tokens, and two marks.
      `stranded`: an exchange whose new token did not reach the file, with no new session
      saved since. `behind`: the same for a new token of any origin. */
  datatype World = World(
    file: Option<Session>,
    lock: Option<nat>,
    phases: map<nat, Phase>,
    issued: nat,
    exchanged: set<nat>,
    presented: seq<Presented>,
    stranded: bool,
    behind: bool
  )
  {
    function PhaseOf(c: nat): Phase { if c in phases then phases[c] else Idle }

    function To(c: nat, p: Phase): World { this.(phases := phases[c := p]) }

    /** Return, with a token or an error, and give the lock back. */
    function Leave(c: nat): World { To(c, Idle).(lock := None) }

    /** Only a session on this agent's own device is used at all. */
    function Cached(device: string): Option<Session> {
      if file.Some? && file.value.who.device == device then file else None
    }

    function Shown(token: nat): World { this.(presented := presented + [Presented(token, token in exchanged)]) }

    function Exchanged(token: nat): World { this.(exchanged := exchanged + {token}, issued := issued + 1) }

    function Granted(c: nat, p: Phase, grant: Grant): World
      requires p.Loaded? && p.cached.Some? && p.cached.value.refresh.Some?
    {
      var token := p.cached.value.refresh.value;
      var w := Shown(token);
      match grant
      case Rotated =>
        w.Exchanged(token).To(c, Saving(p.request, p.cached.value.(refresh := Some(issued)), FromExchange))
      case Kept => w.To(c, Saving(p.request, p.cached.value, Reused))
      case Lost => w.Exchanged(token).Leave(c).(stranded := true, behind := true)
      case Garbled => w.Exchanged(token).To(c, LoggingIn(p.request)).(stranded := true, behind := true)
      case Unreachable => w.Leave(c)
      case Refused => w.To(c, LoggingIn(p.request))
    }

    function Acquired(device: string, c: nat, request: Request, readable: bool): World {
      var cached := Cached(device);
      if !readable || (cached.Some? && Unexpected(request.wanted, cached.value.who)) then To(c, Idle)
      else To(c, Loaded(request, cached)).(lock := Some(c))
    }

    function Saved(c: nat, p: Phase, ok: bool): World
      requires p.Saving?
    {
      var isNew := p.origin.FromExchange? || (p.origin.FromLogin? && p.session.refresh.Some?);
      if !ok then Leave(c).(stranded := stranded || p.origin.FromExchange?, behind := behind || isNew)
      else if p.origin.Reused? then Leave(c).(file := Some(p.session))
      else Leave(c).(file := Some(p.session), stranded := false, behind := false)
    }

    function Apply(device: string, step: Step): World {
      var p := PhaseOf(step.client);
      match step
      case Begin(c, request) =>
        if p.Idle? then To(c, Waiting(request)) else this
      case Acquire(c, readable) =>
        if p.Waiting? && lock.None? then Acquired(device, c, p.request, readable) else this
      case UseCached(c, answer) =>
        if !p.Loaded? || p.cached.None? || p.request.force then this
        else if answer.Same? || answer.Offline? then Leave(c)
        else To(c, LoggingIn(p.request))
      case Refresh(c, grant) =>
        if p.Loaded? && p.cached.Some? && p.cached.value.refresh.Some? then Granted(c, p, grant) else this
      case Login(c, ok, withRefresh) =>
        if !p.LoggingIn? && !(p.Loaded? && (p.cached.None? || p.cached.value.refresh.None?)) then this
        else if !ok then Leave(c)
        else if withRefresh then this.(issued := issued + 1).To(c, Identifying(p.request, Some(issued)))
        else To(c, Identifying(p.request, None))
      case Identify(c, who) =>
        if !p.Identifying? then this
        else if who.None? || Unexpected(p.request.wanted, who.value) then Leave(c).(behind := behind || p.token.Some?)
        else To(c, Saving(p.request, Session(who.value, p.token), FromLogin))
      case Save(c, ok) =>
        if p.Saving? then Saved(c, p, ok) else this
    }
  }

  function Run(w: World, device: string, steps: seq<Step>): World {
    if steps == [] then w else Run(w, device, steps[..|steps| - 1]).Apply(device, steps[|steps| - 1])
  }

  /** Nobody is at work. */
  predicate AtRest(w: World) {
    && w.lock.None? && w.phases == map[] && w.exchanged == {} && w.presented == [] && !w.stranded && !w.behind
    && (FileToken(w).Some? ==> FileToken(w).value == w.issued - 1)
  }

  function FileToken(w: World): Option<nat> { if w.file.Some? then w.file.value.refresh else None }

  // -------------------------------------------------------------------------
  // The invariant
  // -------------------------------------------------------------------------

  predicate FileExchanged(w: World) { FileToken(w).Some? && FileToken(w).value in w.exchanged }

  /** The newest token, never exchanged. */
  predicate Newest(w: World, token: Option<nat>) {
    token.Some? ==> token.value == w.issued - 1 && token.value !in w.exchanged
  }

  /** What the holder of the lock knows is still so. */
  ghost predicate HolderOk(w: World, device: string, p: Phase) {
    match p
    case Loaded(request, cached) =>
      cached == w.Cached(device) && (cached.Some? ==> !Unexpected(request.wanted, cached.value.who))
    case LoggingIn(_) => true
    case Identifying(_, token) => Newest(w, token)
    case Saving(request, session, origin) =>
      && !Unexpected(request.wanted, session.who)
      && (origin.Reused? ==> w.file == Some(session))
      && (!origin.Reused? ==> Newest(w, session.refresh))
      && (origin.FromExchange? ==> session.refresh.Some? && FileExchanged(w))
    case _ => false
  }

  /** A new token is on its way to the file. */
  predicate Pending(p: Phase) {
    || (p.Identifying? && p.token.Some?)
    || (p.Saving? && !p.origin.Reused? && p.session.refresh.Some?)
  }

  predicate Exchanging(p: Phase) { p.Saving? && p.origin.FromExchange? }

  ghost predicate LockOk(w: World) { forall c: nat :: w.PhaseOf(c).Inside() <==> w.lock == Some(c) }

  /** What the tokens and the marks have to do with each other while the holder, if
      there is one, is in this phase. */
  ghost predicate TokensOk(w: World, device: string, p: Phase) {
    && (forall t :: t in w.exchanged ==> t < w.issued)
    && (FileToken(w).Some? ==> FileToken(w).value < w.issued)
    && (p.Inside() ==> HolderOk(w, device, p))
    && (!Exchanging(p) ==> (FileExchanged(w) <==> w.stranded))
    && (!Pending(p) && !w.behind && FileToken(w).Some? ==> FileToken(w).value == w.issued - 1)
    && (w.stranded ==> w.behind)
  }

  function HolderPhase(w: World): Phase { if w.lock.Some? then w.PhaseOf(w.lock.value) else Idle }

  ghost predicate Inv(w: World, device: string) { LockOk(w) && TokensOk(w, device, HolderPhase(w)) }

  lemma Leaves(w: World, c: nat)
    requires LockOk(w) && w.lock == Some(c)
    ensures LockOk(w.Leave(c)) && HolderPhase(w.Leave(c)) == Idle
  {
    assert forall d: nat :: d != c ==> w.Leave(c).PhaseOf(d) == w.PhaseOf(d);
  }

  lemma Stays(w: World, c: nat, p: Phase)
    requires LockOk(w) && w.lock == Some(c) && p.Inside()
    ensures LockOk(w.To(c, p)) && HolderPhase(w.To(c, p)) == p
  {
    assert forall d: nat :: d != c ==> w.To(c, p).PhaseOf(d) == w.PhaseOf(d);
  }

  lemma AcquireKeepsInv(w: World, device: string, c: nat, request: Request, readable: bool)
    requires Inv(w, device) && w.lock.None? && w.PhaseOf(c) == Waiting(request)
    ensures Inv(w.Acquired(device, c, request, readable), device)
  {
    var r := w.Acquired(device, c, request, readable);
    assert forall d: nat :: d != c ==> r.PhaseOf(d) == w.PhaseOf(d);
  }

  lemma GrantKeepsInv(w: World, device: string, c: nat, grant: Grant)
    requires Inv(w, device) && w.lock == Some(c)
    requires var p := w.PhaseOf(c); p.Loaded? && p.cached.Some? && p.cached.value.refresh.Some?
    ensures Inv(w.Granted(c, w.PhaseOf(c), grant), device)
  {
    hide LockOk;
    var p := w.PhaseOf(c);
    var token := p.cached.value.refresh.value;
    var shown := w.Shown(token);
    SameLocks(w, shown);
    SameLocks(w, shown.Exchanged(token));
    match grant
    case Rotated =>
      var session := p.cached.value.(refresh := Some(w.issued));
      Stays(shown.Exchanged(token), c, Saving(p.request, session, FromExchange));
    case Kept => Stays(shown, c, Saving(p.request, p.cached.value, Reused));
    case Lost =>
      Leaves(shown.Exchanged(token), c);
      SameLocks(shown.Exchanged(token).Leave(c), w.Granted(c, p, grant));
    case Garbled =>
      Stays(shown.Exchanged(token), c, LoggingIn(p.request));
      SameLocks(shown.Exchanged(token).To(c, LoggingIn(p.request)), w.Granted(c, p, grant));
    case Unreachable => Leaves(shown, c);
    case Refused => Stays(shown, c, LoggingIn(p.request));
  }

  lemma SameLocks(w: World, r: World)
    requires w.lock == r.lock && w.phases == r.phases
    ensures LockOk(w) <==> LockOk(r)
    ensures HolderPhase(w) == HolderPhase(r)
  {
    assert forall c: nat :: w.PhaseOf(c) == r.PhaseOf(c);
  }

  lemma SaveKeepsInv(w: World, device: string, c: nat, ok: bool)
    requires Inv(w, device) && w.lock == Some(c) && w.PhaseOf(c).Saving?
    ensures Inv(w.Saved(c, w.PhaseOf(c), ok), device)
  {
    hide LockOk;
    Leaves(w, c);
    SameLocks(w.Leave(c), w.Saved(c, w.PhaseOf(c), ok));
  }

  lemma IdentifyKeepsInv(w: World, device: string, c: nat, who: Option<Identity>)
    requires Inv(w, device) && w.lock == Some(c) && w.PhaseOf(c).Identifying?
    ensures Inv(w.Apply(device, Identify(c, who)), device)
  {
    hide LockOk;
    var p := w.PhaseOf(c);
    Leaves(w, c);
    SameLocks(w.Leave(c), w.Leave(c).(behind := w.behind || p.token.Some?));
    if who.Some? {
      Stays(w, c, Saving(p.request, Session(who.value, p.token), FromLogin));
    }
  }

  lemma LoginKeepsInv(w: World, device: string, c: nat, ok: bool, withRefresh: bool)
    requires Inv(w, device) && w.lock == Some(c) && (w.PhaseOf(c).LoggingIn? || w.PhaseOf(c).Loaded?)
    ensures Inv(w.Apply(device, Login(c, ok, withRefresh)), device)
  {
    hide LockOk;
    var p := w.PhaseOf(c);
    Leaves(w, c);
    SameLocks(w, w.(issued := w.issued + 1));
    Stays(w, c, Identifying(p.request, None));
    Stays(w.(issued := w.issued + 1), c, Identifying(p.request, Some(w.issued)));
  }

  lemma InsideHolds(w: World, device: string, c: nat)
    requires Inv(w, device)
    ensures w.PhaseOf(c).Inside() ==> w.lock == Some(c)
  {
  }

  lemma StepKeepsInv(w: World, device: string, step: Step)
    requires Inv(w, device)
    ensures Inv(w.Apply(device, step), device)
  {
    hide Inv, World.Acquired, World.Granted, World.Saved;
    InsideHolds(w, device, step.client);
    var p := w.PhaseOf(step.client);
    match step
    case Begin(c, request) =>
      if p.Idle? {
        BeginKeepsInv(w, device, c, request);
      }
    case Acquire(c, readable) =>
      if p.Waiting? && w.lock.None? {
        AcquireKeepsInv(w, device, c, p.request, readable);
      }
    case UseCached(c, answer) =>
      if p.Loaded? {
        CachedKeepsInv(w, device, c, answer);
      }
    case Refresh(c, grant) =>
      if p.Loaded? && p.cached.Some? && p.cached.value.refresh.Some? {
        GrantKeepsInv(w, device, c, grant);
      }
    case Login(c, ok, withRefresh) =>
      if p.LoggingIn? || p.Loaded? {
        LoginKeepsInv(w, device, c, ok, withRefresh);
      }
    case Identify(c, who) =>
      if p.Identifying? {
        IdentifyKeepsInv(w, device, c, who);
      }
    case Save(c, ok) =>
      if p.Saving? {
        SaveKeepsInv(w, device, c, ok);
      }
  }

  lemma BeginKeepsInv(w: World, device: string, c: nat, request: Request)
    requires Inv(w, device) && w.PhaseOf(c).Idle?
    ensures Inv(w.To(c, Waiting(request)), device)
  {
    var r := w.To(c, Waiting(request));
    assert forall d: nat :: d != c ==> r.PhaseOf(d) == w.PhaseOf(d);
  }

  lemma CachedKeepsInv(w: World, device: string, c: nat, answer: Whoami)
    requires Inv(w, device) && w.lock == Some(c) && w.PhaseOf(c).Loaded?
    ensures Inv(w.Apply(device, UseCached(c, answer)), device)
  {
    hide LockOk;
    Leaves(w, c);
    Stays(w, c, LoggingIn(w.PhaseOf(c).request));
  }

  lemma {:induction false} RunKeepsInv(w: World, device: string, steps: seq<Step>)
    requires Inv(w, device)
    ensures Inv(Run(w, device, steps), device)
  {
    hide Inv, World.Apply;
    if steps != [] {
      RunKeepsInv(w, device, steps[..|steps| - 1]);
      StepKeepsInv(Run(w, device, steps[..|steps| - 1]), device, steps[|steps| - 1]);
    }
  }

  lemma RestIsInv(w: World, device: string)
    requires AtRest(w)
    ensures Inv(w, device)
  {
  }

  // -------------------------------------------------------------------------
  // No exchanged token is presented again
  // -------------------------------------------------------------------------

  /** The step shows a token to the provider. */
  predicate Presents(w: World, step: Step) {
    var p := w.PhaseOf(step.client);
    step.Refresh? && p.Loaded? && p.cached.Some? && p.cached.value.refresh.Some?
  }

  /** What is presented is the token in the file, and it was exchanged before exactly
      when an exchange is stranded. */
  lemma PresentedIsExchangedIff(w: World, device: string, step: Step)
    requires Inv(w, device)
    ensures var r := w.Apply(device, step);
            if Presents(w, step) then
              && FileToken(w).Some? && !Unexpected(w.PhaseOf(step.client).request.wanted, w.file.value.who)
              && r.presented == w.presented + [Presented(FileToken(w).value, w.stranded)]
            else r.presented == w.presented
  {
    hide LockOk;
    InsideHolds(w, device, step.client);
  }

  ghost predicate SomeExchanged(w: World) { exists k :: 0 <= k < |w.presented| && w.presented[k].exchanged }

  /** At some point of the run a token is presented while an exchange is stranded. */
  ghost predicate PresentsStranded(w: World, device: string, steps: seq<Step>) {
    steps != [] &&
    var before := steps[..|steps| - 1];
    || (Presents(Run(w, device, before), steps[|steps| - 1]) && Run(w, device, before).stranded)
    || PresentsStranded(w, device, before)
  }

  /** Over every interleaving, an exchanged token is presented again exactly when one is
      presented after an exchange whose reply was lost or unusable, or whose save failed,
      before any new session is saved. */
  lemma {:induction false} ExchangedIsPresentedIff(w: World, device: string, steps: seq<Step>)
    requires AtRest(w)
    ensures SomeExchanged(Run(w, device, steps)) <==> PresentsStranded(w, device, steps)
  {
    hide World.Apply, Inv, Presents;
    if steps != [] {
      var before, step := steps[..|steps| - 1], steps[|steps| - 1];
      ExchangedIsPresentedIff(w, device, before);
      RestIsInv(w, device);
      RunKeepsInv(w, device, before);
      var v := Run(w, device, before);
      var r := v.Apply(device, step);
      PresentedIsExchangedIff(v, device, step);
      if Presents(v, step) {
        assert r.presented[|v.presented|] == Presented(FileToken(v).value, v.stranded);
        assert forall k :: 0 <= k < |v.presented| ==> r.presented[k] == v.presented[k];
      }
    }
  }

  /** The reply to an exchange is lost or unusable, or a save of an exchanged token fails. */
  predicate Strands(w: World, step: Step) {
    || (Presents(w, step) && step.grant.Wasted())
    || (step.Save? && Exchanging(w.PhaseOf(step.client)) && !step.ok)
  }

  /** A new token is thrown away: it is stranded, or a login's session is not saved. */
  predicate Loses(w: World, step: Step) {
    var p := w.PhaseOf(step.client);
    || Strands(w, step)
    || (step.Save? && p.Saving? && p.origin.FromLogin? && p.session.refresh.Some? && !step.ok)
    || (step.Identify? && p.Identifying? && p.token.Some?
        && (step.who.None? || Unexpected(p.request.wanted, step.who.value)))
  }

  ghost predicate NeverStrands(w: World, device: string, steps: seq<Step>) {
    steps != [] ==>
      && !Strands(Run(w, device, steps[..|steps| - 1]), steps[|steps| - 1])
      && NeverStrands(w, device, steps[..|steps| - 1])
  }

  ghost predicate NeverLoses(w: World, device: string, steps: seq<Step>) {
    steps != [] ==>
      !Loses(Run(w, device, steps[..|steps| - 1]), steps[|steps| - 1]) && NeverLoses(w, device, steps[..|steps| - 1])
  }

  lemma MarksMove(w: World, device: string, step: Step)
    ensures !w.stranded ==> (w.Apply(device, step).stranded <==> Strands(w, step))
    ensures !w.behind ==> (w.Apply(device, step).behind <==> Loses(w, step))
  {
  }

  lemma {:induction false} MarksStay(w: World, device: string, steps: seq<Step>)
    requires AtRest(w)
    ensures NeverStrands(w, device, steps) ==> !Run(w, device, steps).stranded && !PresentsStranded(w, device, steps)
    ensures NeverLoses(w, device, steps) ==> !Run(w, device, steps).behind
  {
    hide World.Apply, Strands, Loses, Presents;
    if steps != [] {
      MarksStay(w, device, steps[..|steps| - 1]);
      MarksMove(Run(w, device, steps[..|steps| - 1]), device, steps[|steps| - 1]);
    }
  }

  /** Provided each exchanged grant's reply arrives and is saved, no interleaving of
      clients presents an exchanged token again; and if no new session is thrown away
      either, the file holds the newest token issued whenever the lock is free. */
  lemma RotationIsSafe(w: World, device: string, steps: seq<Step>)
    requires AtRest(w)
    ensures NeverStrands(w, device, steps) ==> !SomeExchanged(Run(w, device, steps))
    ensures NeverLoses(w, device, steps) ==>
              var r := Run(w, device, steps);
              r.lock.None? && FileToken(r).Some? ==>
                FileToken(r).value == r.issued - 1 && FileToken(r).value !in r.exchanged
  {
    hide Run;
    ExchangedIsPresentedIff(w, device, steps);
    MarksStay(w, device, steps);
    RestIsInv(w, device);
    RunKeepsInv(w, device, steps);
  }

  /** At most one client is between load and save, so no save overwrites another's. */
  lemma OneInside(w: World, device: string, steps: seq<Step>, a: nat, b: nat)
    requires AtRest(w)
    ensures var r := Run(w, device, steps);
            r.PhaseOf(a).Inside() && r.PhaseOf(b).Inside() ==> a == b
  {
    hide Run;
    RestIsInv(w, device);
    RunKeepsInv(w, device, steps);
  }

  /** What makes a client's step possible: a cached session is used only if it is there and no
      new token is asked for, a refresh token is spent only if there is one, and a login is
      made only without one or after a refusal. */
  lemma OnlyDueStepsAct(w: World, device: string, step: Step)
    requires w.Apply(device, step) != w
    ensures var p := w.PhaseOf(step.client);
            match step
            case Begin(_, _) => p.Idle?
            case Acquire(_, _) => p.Waiting? && w.lock.None?
            case UseCached(_, _) => p.Loaded? && p.cached.Some? && !p.request.force
            case Refresh(_, _) => p.Loaded? && p.cached.Some? && p.cached.value.refresh.Some?
            case Login(_, _, _) => p.LoggingIn? || (p.Loaded? && (p.cached.None? || p.cached.value.refresh.None?))
            case Identify(_, _) => p.Identifying?
            case Save(_, _) => p.Saving?
  {
    hide World.Acquired, World.Granted, World.Saved;
  }

  /** Exchanged tokens stay exchanged, and one more is exactly by a grant that was carried out. */
  lemma ExchangedStays(w: World, device: string, step: Step)
    ensures var gone := Presents(w, step) && (step.grant == Rotated || step.grant == Lost || step.grant == Garbled);
            w.Apply(device, step).exchanged
            == w.exchanged + if gone then {w.PhaseOf(step.client).cached.value.refresh.value} else {}
  {
  }

  /** A new session that is saved makes up for everything lost before: its token is the newest
      one and was never exchanged. */
  lemma SaveHeals(w: World, device: string, c: nat)
    requires Inv(w, device) && w.PhaseOf(c).Saving? && !w.PhaseOf(c).origin.Reused?
    ensures var r := w.Apply(device, Save(c, true));
            && r.file == Some(w.PhaseOf(c).session) && !r.stranded && !r.behind
            && (FileToken(r).Some? ==> FileToken(r).value == r.issued - 1 && FileToken(r).value !in r.exchanged)
  {
    hide LockOk;
    InsideHolds(w, device, c);
  }

  /** The file changes only by a save, and never to an identity its client did not want. */
  lemma FileChangesOnlyBySaves(w: World, device: string, step: Step)
    requires Inv(w, device) && w.Apply(device, step).file != w.file
    ensures step.Save? && step.ok && w.PhaseOf(step.client).Saving?
    ensures var p := w.PhaseOf(step.client);
            w.Apply(device, step).file == Some(p.session) && !Unexpected(p.request.wanted, p.session.who)
  {
    hide LockOk;
    InsideHolds(w, device, step.client);
  }

  lemma RunSnoc(w: World, device: string, steps: seq<Step>, step: Step)
    ensures Run(w, device, steps + [step]) == Run(w, device, steps).Apply(device, step)
  {
    assert (steps + [step])[..|steps|] == steps;
  }

  /** One turn whose exchange is carried out but whose reply is lost. */
  lemma LostTurn(w: World, who: Identity)
    requires w == World(Some(Session(who, Some(0))), None, map[], 1, {}, [], false, false)
    ensures var steps := [Begin(0, Request(true, None)), Acquire(0, true), Refresh(0, Lost)];
            var lost := Run(w, who.device, steps);
            && lost.file == w.file && lost.lock == None
            && lost.exchanged == {0} && lost.presented == [Presented(0, false)]
            && lost.PhaseOf(1).Idle?
  {
    hide Run, World.Saved;
    var a, b, c := Begin(0, Request(true, None)), Acquire(0, true), Refresh(0, Lost);
    RunNothing(w, who.device);
    RunSnoc(w, who.device, [], a);
    assert [] + [a] == [a];
    RunSnoc(w, who.device, [a], b);
    assert [a] + [b] == [a, b];
    RunSnoc(w, who.device, [a, b], c);
    assert [a, b] + [c] == [a, b, c];
  }

  /** The proviso is needed: after a lost reply the next rotation presents the old token. */
  lemma LostReplyPresentsAgain(who: Identity)
    ensures var w := World(Some(Session(who, Some(0))), None, map[], 1, {}, [], false, false);
            var force := Request(true, None);
            var steps := [Begin(0, force), Acquire(0, true), Refresh(0, Lost)];
            var more := [Begin(1, force), Acquire(1, true), Refresh(1, Refused)];
            AtRest(w) && Run(w, who.device, steps + more).presented == [Presented(0, false), Presented(0, true)]
  {
    hide Run, World.Saved;
    var w := World(Some(Session(who, Some(0))), None, map[], 1, {}, [], false, false);
    var force := Request(true, None);
    var steps := [Begin(0, force), Acquire(0, true), Refresh(0, Lost)];
    var lost := Run(w, who.device, steps);
    var d, e, f := Begin(1, force), Acquire(1, true), Refresh(1, Refused);
    LostTurn(w, who);
    RunConcat(w, who.device, steps, [d, e, f]);
    RunNothing(lost, who.device);
    RunSnoc(lost, who.device, [], d);
    assert [] + [d] == [d];
    RunSnoc(lost, who.device, [d], e);
    assert [d] + [e] == [d, e];
    RunSnoc(lost, who.device, [d, e], f);
    assert [d, e] + [f] == [d, e, f];
  }

  lemma RunNothing(w: World, device: string)
    ensures Run(w, device, []) == w
  {
  }

  lemma {:induction false} RunConcat(w: World, device: string, a: seq<Step>, b: seq<Step>)
    ensures Run(w, device, a + b) == Run(Run(w, device, a), device, b)
  {
    hide World.Apply;
    if b == [] {
      assert a + b == a;
    } else {
      var n := |b| - 1;
      assert (a + b)[..|a + b| - 1] == a + b[..n];
      RunConcat(w, device, a, b[..n]);
    }
  }

  // -------------------------------------------------------------------------
  // One client's turn
  // -------------------------------------------------------------------------

  /** What the file system, the clock, the provider and the homeserver answer during one
      turn; each is asked at most once. */
  datatype Answers = Answers(readable: bool, valid: bool, whoami: Whoami, grant: Grant, login: bool, withRefresh: bool,
                             who: Option<Identity>, saved: bool)

  /** A login succeeds if its identity is known and wanted. */
  predicate LoginGood(request: Request, a: Answers) {
    a.login && a.who.Some? && !Unexpected(request.wanted, a.who.value)
  }

  /** The steps of a fresh login: only a good one is saved. */
  function LoginSteps(c: nat, request: Request, a: Answers): seq<Step> {
    [Login(c, a.login, a.withRefresh)]
    + if !a.login then []
      else [Identify(c, a.who)] + if LoginGood(request, a) then [Save(c, a.saved)] else []
  }

  /** How a turn gets its token: not at all, from the cache while it is valid, from the
      refresh token, or by a fresh login. */
  datatype Route = Stopped | ByCache | ByGrant | ByLogin

  function RouteOf(cached: Option<Session>, request: Request, a: Answers): Route {
    if !a.readable || (cached.Some? && Unexpected(request.wanted, cached.value.who)) then Stopped
    else if cached.Some? && !request.force && a.valid then ByCache
    else if cached.Some? && cached.value.refresh.Some? then ByGrant
    else ByLogin
  }

  /** Everything one turn does once it has the lock. A cached session that turns out to be
      refused or another's, and a refresh token that is refused or whose reply cannot be
      used, lead to a login; a network failure ends the turn. */
  function InsideSteps(c: nat, cached: Option<Session>, request: Request, a: Answers): seq<Step> {
    match RouteOf(cached, request, a)
    case Stopped => []
    case ByCache =>
      [UseCached(c, a.whoami)] + if a.whoami.Same? || a.whoami.Offline? then [] else LoginSteps(c, request, a)
    case ByGrant => [Refresh(c, a.grant)] + AfterGrant(c, request, a)
    case ByLogin => LoginSteps(c, request, a)
  }

  function AfterGrant(c: nat, request: Request, a: Answers): seq<Step> {
    match a.grant
    case Rotated => [Save(c, a.saved)]
    case Kept => [Save(c, a.saved)]
    case Refused => LoginSteps(c, request, a)
    case Garbled => LoginSteps(c, request, a)
    case _ => []
  }

  function TurnSteps(c: nat, cached: Option<Session>, request: Request, a: Answers): seq<Step> {
    [Acquire(c, a.readable)] + InsideSteps(c, cached, request, a)
  }

  /** Whether the turn ends with a token. */
  predicate TurnGood(cached: Option<Session>, request: Request, a: Answers) {
    match RouteOf(cached, request, a)
    case Stopped => false
    case ByCache => a.whoami.Same? || (!a.whoami.Offline? && LoginGood(request, a))
    case ByGrant => a.grant.Rotated? || a.grant.Kept? || (a.grant.Judged() && LoginGood(request, a))
    case ByLogin => LoginGood(request, a)
  }

  // -------------------------------------------------------------------------
  // What a turn comes to, from what is on file and what is answered
  // -------------------------------------------------------------------------

  /** The cached session of this device, unless it is not the one that is wanted. */
  predicate Usable(cached: Option<Session>, request: Request) {
    cached.Some? ==> request.wanted.None? || request.wanted.value == cached.value.who
  }

  /** The cached session is used as it is: it is there, and a new token is neither wanted
      nor needed. */
  predicate Reuses(cached: Option<Session>, request: Request, a: Answers) {
    a.readable && Usable(cached, request) && cached.Some? && !request.force && a.valid
  }

  /** The cached refresh token is presented: a new token is wanted, or needed. */
  predicate Spends(cached: Option<Session>, request: Request, a: Answers) {
    && a.readable && Usable(cached, request) && cached.Some? && cached.value.refresh.Some?
    && (request.force || !a.valid)
  }

  /** A fresh login is made: nothing is cached, or what is cannot be renewed, or it was
      refused in one way or another. */
  predicate LogsIn(cached: Option<Session>, request: Request, a: Answers) {
    && a.readable && Usable(cached, request)
    && (|| cached.None?
        || (cached.value.refresh.None? && (request.force || !a.valid))
        || (Reuses(cached, request, a) && (a.whoami == Different || a.whoami == Rejected))
        || (Spends(cached, request, a) && (a.grant == Refused || a.grant == Garbled)))
  }

  /** The login of a turn gives a session of an identity that is wanted. */
  predicate LoginWorks(request: Request, a: Answers) {
    a.login && a.who.Some? && (request.wanted.None? || request.wanted.value == a.who.value)
  }

  /** The turn ends with a token. */
  predicate GetsToken(cached: Option<Session>, request: Request, a: Answers) {
    || (Reuses(cached, request, a) && a.whoami == Same)
    || (Spends(cached, request, a) && (a.grant == Rotated || a.grant == Kept))
    || (LogsIn(cached, request, a) && LoginWorks(request, a))
  }

  /** What a turn leaves on file, the next token to be issued being `next`. */
  function FileAfter(file: Option<Session>, cached: Option<Session>, request: Request, a: Answers, next: nat)
    : Option<Session>
  {
    if !a.saved then file
    else if Spends(cached, request, a) && a.grant == Rotated then Some(Session(cached.value.who, Some(next)))
    else if Spends(cached, request, a) && a.grant == Kept then cached
    else if LogsIn(cached, request, a) && LoginWorks(request, a) then
      var issued := next + if Spends(cached, request, a) && a.grant == Garbled then 1 else 0;
      Some(Session(a.who.value, if a.withRefresh then Some(issued) else None))
    else file
  }

  lemma RunThree(w: World, device: string, a: Step, b: Step, c: Step)
    ensures Run(w, device, [a]) == w.Apply(device, a)
    ensures Run(w, device, [a, b]) == w.Apply(device, a).Apply(device, b)
    ensures Run(w, device, [a, b, c]) == w.Apply(device, a).Apply(device, b).Apply(device, c)
  {
    hide World.Apply;
    assert [] + [a] == [a] && [a] + [b] == [a, b] && [a, b] + [c] == [a, b, c];
    RunSnoc(w, device, [], a);
    RunSnoc(w, device, [a], b);
    RunSnoc(w, device, [a, b], c);
  }

  /** The identity of a login, once known, decides; only a wanted one is saved. */
  lemma IdentityComesTo(w: World, device: string, c: nat, request: Request, token: Option<nat>, a: Answers)
    requires w.PhaseOf(c) == Identifying(request, token)
    ensures var v := w.Apply(device, Identify(c, a.who));
            var good := a.who.Some? && (request.wanted.None? || request.wanted.value == a.who.value);
            var r := if good then v.Apply(device, Save(c, a.saved)) else v;
            && r.presented == w.presented && r.exchanged == w.exchanged && r.lock == None
            && r.file == if good && a.saved then Some(Session(a.who.value, token)) else w.file
  {
    hide World.Acquired, World.Granted;
  }

  lemma LoginComesTo(w: World, device: string, c: nat, request: Request, a: Answers)
    requires w.PhaseOf(c) == LoggingIn(request)
             || (w.PhaseOf(c).Loaded? && w.PhaseOf(c).request == request
                 && (w.PhaseOf(c).cached.None? || w.PhaseOf(c).cached.value.refresh.None?))
    ensures var r := Run(w, device, LoginSteps(c, request, a));
            && r.presented == w.presented && r.exchanged == w.exchanged && r.lock == None
            && r.file == if LoginWorks(request, a) && a.saved then
                           Some(Session(a.who.value, if a.withRefresh then Some(w.issued) else None))
                         else w.file
  {
    hide Run, World.Acquired, World.Granted, World.Saved;
    var login, identify, save := Login(c, a.login, a.withRefresh), Identify(c, a.who), Save(c, a.saved);
    RunThree(w, device, login, identify, save);
    assert [login] + [] == [login] && [login] + ([identify] + []) == [login, identify];
    assert [login] + ([identify] + [save]) == [login, identify, save];
    if a.login {
      IdentityComesTo(w.Apply(device, login), device, c, request, if a.withRefresh then Some(w.issued) else None, a);
    }
  }

  /** What the refresh grant makes of the cached session. */
  lemma GrantComesTo(w: World, device: string, c: nat, request: Request, a: Answers)
    requires w.PhaseOf(c).Loaded? && w.PhaseOf(c).request == request
    requires w.PhaseOf(c).cached.Some? && w.PhaseOf(c).cached.value.refresh.Some?
    ensures var session := w.PhaseOf(c).cached.value; var token := session.refresh.value;
            var v := w.Apply(device, Refresh(c, a.grant));
            && v.presented == w.presented + [Presented(token, token in w.exchanged)] && v.file == w.file
            && (a.grant == Refused || a.grant == Garbled ==>
                  v.PhaseOf(c) == LoggingIn(request) && v.issued == w.issued + if a.grant == Garbled then 1 else 0)
            && (a.grant == Lost || a.grant == Unreachable ==> v.lock == None)
            && (a.grant == Rotated || a.grant == Kept ==>
                  var r := v.Apply(device, Save(c, a.saved));
                  && r.presented == v.presented && r.lock == None
                  && r.file == if !a.saved then w.file
                               else if a.grant == Kept then Some(session)
                               else Some(Session(session.who, Some(w.issued))))
  {
    hide World.Acquired;
  }

  lemma InsideComesTo(w: World, device: string, c: nat, cached: Option<Session>, request: Request, a: Answers)
    requires w.PhaseOf(c) == Loaded(request, cached) && a.readable && Usable(cached, request)
    ensures var r := Run(w, device, InsideSteps(c, cached, request, a));
            && r.lock == None && r.file == FileAfter(w.file, cached, request, a, w.issued)
            && r.presented == w.presented + if Spends(cached, request, a) then
                                              var token := cached.value.refresh.value;
                                              [Presented(token, token in w.exchanged)]
                                            else []
  {
    hide Run, World.Apply, LoginSteps, LoginWorks;
    var login := LoginSteps(c, request, a);
    if Spends(cached, request, a) {
      var spend, save := Refresh(c, a.grant), Save(c, a.saved);
      GrantComesTo(w, device, c, request, a);
      RunThree(w, device, spend, save, save);
      assert [spend] + [] == [spend] && [spend] + [save] == [spend, save];
      if a.grant == Refused || a.grant == Garbled {
        RunConcat(w, device, [spend], login);
        LoginComesTo(w.Apply(device, spend), device, c, request, a);
      }
    } else if Reuses(cached, request, a) {
      var use := UseCached(c, a.whoami);
      UseComesTo(w, device, c, request, a);
      RunThree(w, device, use, use, use);
      assert [use] + [] == [use];
      if a.whoami == Different || a.whoami == Rejected {
        RunConcat(w, device, [use], login);
        LoginComesTo(w.Apply(device, use), device, c, request, a);
      }
    } else {
      LoginComesTo(w, device, c, request, a);
    }
  }

  lemma UseComesTo(w: World, device: string, c: nat, request: Request, a: Answers)
    requires w.PhaseOf(c).Loaded? && w.PhaseOf(c).request == request && w.PhaseOf(c).cached.Some? && !request.force
    ensures var v := w.Apply(device, UseCached(c, a.whoami));
            && v.presented == w.presented && v.file == w.file && v.issued == w.issued
            && (if a.whoami == Different || a.whoami == Rejected then v.PhaseOf(c) == LoggingIn(request)
                else v.lock == None)
  {
    hide World.Acquired, World.Granted, World.Saved;
  }

  /** The whole turn of a client that has the lock to itself: the cached refresh token is
      presented exactly once or not at all, and what is on file afterwards. */
  lemma TurnComesTo(w: World, device: string, c: nat, request: Request, a: Answers)
    requires w.lock == None && w.PhaseOf(c) == Waiting(request)
    ensures var cached := if w.file.Some? && w.file.value.who.device == device then w.file else None;
            var r := Run(w, device, TurnSteps(c, cached, request, a));
            && r.lock == None && r.file == FileAfter(w.file, cached, request, a, w.issued)
            && r.presented == w.presented + if Spends(cached, request, a) then
                                              var token := cached.value.refresh.value;
                                              [Presented(token, token in w.exchanged)]
                                            else []
  {
    hide Run, World.Apply, InsideSteps, FileAfter;
    var cached := w.Cached(device);
    var acquire := Acquire(c, a.readable);
    AcquireComesTo(w, device, c, request, a);
    RunThree(w, device, acquire, acquire, acquire);
    RunConcat(w, device, [acquire], InsideSteps(c, cached, request, a));
    if a.readable && Usable(cached, request) {
      InsideComesTo(w.Apply(device, acquire), device, c, cached, request, a);
    } else {
      NothingInside(w, c, cached, request, a);
      assert TurnSteps(c, cached, request, a) == [acquire];
    }
  }

  lemma AcquireComesTo(w: World, device: string, c: nat, request: Request, a: Answers)
    requires w.lock == None && w.PhaseOf(c) == Waiting(request)
    ensures var v := w.Apply(device, Acquire(c, a.readable)); var cached := w.Cached(device);
            && v.file == w.file && v.presented == w.presented && v.exchanged == w.exchanged && v.issued == w.issued
            && if a.readable && Usable(cached, request) then
                 v.PhaseOf(c) == Loaded(request, cached) && v.lock == Some(c)
               else v.lock == None
  {
    hide World.Granted, World.Saved;
  }

  lemma NothingInside(w: World, c: nat, cached: Option<Session>, request: Request, a: Answers)
    ensures !a.readable || !Usable(cached, request) ==>
              InsideSteps(c, cached, request, a) == [] && FileAfter(w.file, cached, request, a, w.issued) == w.file
  {
  }

  predicate HasLogin(steps: seq<Step>) { exists i :: 0 <= i < |steps| && steps[i].Login? }

  /** A turn logs in, and gets a token, exactly when what is on file and the answers call for it. */
  lemma TurnIsJustified(cached: Option<Session>, c: nat, request: Request, a: Answers)
    ensures TurnGood(cached, request, a) <==> GetsToken(cached, request, a)
    ensures HasLogin(TurnSteps(c, cached, request, a)) <==> LogsIn(cached, request, a)
  {
    hide LoginWorks, LoginGood;
    LoginsAgree(request, a);
    var steps := TurnSteps(c, cached, request, a);
    if LogsIn(cached, request, a) {
      var k := if Reuses(cached, request, a) || Spends(cached, request, a) then 2 else 1;
      assert steps[k].Login?;
    }
  }

  lemma LoginsAgree(request: Request, a: Answers)
    ensures LoginGood(request, a) <==> LoginWorks(request, a)
  {
  }

  /** The store directory of one agent and the tokens of its provider. The ghost field
      mirrors every step taken. */
  class Store {
    const device: string
    var file: Option<Session>
    var lock: Option<nat>
    var issued: nat
    ghost var world: World

    ghost predicate Valid()
      reads this
    {
      world.file == file && world.lock == lock && world.issued == issued
    }

    constructor (device: string, file: Option<Session>, issued: nat)
      ensures Valid() && this.device == device && world == World(file, None, map[], issued, {}, [], false, false)
    {
      this.device, this.file, this.lock, this.issued := device, file, None, issued;
      world := World(file, None, map[], issued, {}, [], false, false);
    }

    ghost method Take(step: Step)
      modifies this`world
      ensures world == old(world).Apply(device, step)
    {
      world := world.Apply(device, step);
    }

    /** The new session goes to the file, or a warning to the log; the token is good. */
    method SaveSession(c: nat, session: Session, saved: bool)
      requires Valid() && world.PhaseOf(c).Saving? && world.PhaseOf(c).session == session
      modifies this
      ensures Valid() && world == old(world).Apply(device, Save(c, saved)) && lock == None
      ensures file == if saved then Some(session) else old(file)
    {
      if saved {
        file := Some(session);
      }
      lock := None;
      Take(Save(c, saved));
    }

    /** The identity of a fresh login is checked before its session is saved. */
    method Install(c: nat, request: Request, token: Option<nat>, who: Option<Identity>, saved: bool) returns (ok: bool)
      requires Valid() && world.PhaseOf(c) == Identifying(request, token)
      modifies this
      ensures Valid() && lock == None && (ok <==> who.Some? && !Unexpected(request.wanted, who.value))
      ensures var w := old(world).Apply(device, Identify(c, who));
              world == if ok then w.Apply(device, Save(c, saved)) else w
    {
      Take(Identify(c, who));
      if who.None? || Unexpected(request.wanted, who.value) {
        lock := None;
        return false;
      }
      SaveSession(c, Session(who.value, token), saved);
      ok := true;
    }

    /** A fresh login, when the cached session cannot be used. */
    method FreshLogin(c: nat, request: Request, a: Answers) returns (ok: bool)
      requires Valid() && (world.PhaseOf(c) == LoggingIn(request)
                           || (world.PhaseOf(c).Loaded? && world.PhaseOf(c).request == request
                               && (world.PhaseOf(c).cached.None? || world.PhaseOf(c).cached.value.refresh.None?)))
      modifies this
      ensures Valid() && lock == None && world == Run(old(world), device, LoginSteps(c, request, a))
      ensures ok <==> LoginGood(request, a)
    {
      hide Run;
      ghost var w0 := world;
      ghost var login, identify, save := Login(c, a.login, a.withRefresh), Identify(c, a.who), Save(c, a.saved);
      RunNothing(w0, device);
      Take(login);
      RunSnoc(w0, device, [], login);
      assert [] + [login] == [login];
      if !a.login {
        lock := None;
        assert LoginSteps(c, request, a) == [login];
        return false;
      }
      var token := if a.withRefresh then Some(issued) else None;
      issued := if a.withRefresh then issued + 1 else issued;
      RunSnoc(w0, device, [login], identify);
      RunSnoc(w0, device, [login] + [identify], save);
      ok := Install(c, request, token, a.who, a.saved);
      assert LoginSteps(c, request, a) == if ok then [login] + [identify] + [save] else [login] + [identify];
    }

    /** Load, use or spend the cached session or log in, and save, all under the lock. */
    method MintSession(c: nat, request: Request, a: Answers) returns (ok: bool)
      requires Valid() && lock.None? && world.PhaseOf(c) == Waiting(request)
      modifies this
      ensures Valid() && lock.None?
      ensures var cached := old(world).Cached(device);
              world == Run(old(world), device, TurnSteps(c, cached, request, a)) && ok == TurnGood(cached, request, a)
      ensures var own := if old(file).Some? && old(file).value.who.device == device then old(file) else None;
              && (ok <==> GetsToken(own, request, a))
              && file == FileAfter(old(file), own, request, a, old(issued))
              && world.presented == old(world).presented
                   + if Spends(own, request, a) then
                       var token := own.value.refresh.value; [Presented(token, token in old(world).exchanged)]
                     else []
    {
      hide Run, LoginSteps, LoginGood, FileAfter, LogsIn, Spends, Reuses, GetsToken, World.Apply, InsideSteps;
      AcquireComesTo(world, device, c, request, a);
      NothingInside(world, c, world.Cached(device), request, a);
      TurnComesTo(world, device, c, request, a);
      TurnIsJustified(world.Cached(device), c, request, a);
      ghost var w0 := world;
      ghost var acquire := Acquire(c, a.readable);
      RunNothing(w0, device);
      Take(acquire);
      RunSnoc(w0, device, [], acquire);
      assert [] + [acquire] == [acquire];
      var cached := if file.Some? && file.value.who.device == device then file else None;
      if !a.readable || (cached.Some? && Unexpected(request.wanted, cached.value.who)) {
        assert TurnSteps(c, cached, request, a) == [acquire];
        return false;
      }
      lock := Some(c);
      RunConcat(w0, device, [acquire], InsideSteps(c, cached, request, a));
      ok := UseSession(c, cached, request, a);
    }

    /** With the lock held and the file loaded. */
    method UseSession(c: nat, cached: Option<Session>, request: Request, a: Answers) returns (ok: bool)
      requires Valid() && world.PhaseOf(c) == Loaded(request, cached) && RouteOf(cached, request, a) != Stopped
      modifies this
      ensures Valid() && lock.None? && ok == TurnGood(cached, request, a)
      ensures world == Run(old(world), device, InsideSteps(c, cached, request, a))
    {
      hide Run, LoginSteps, LoginGood;
      ghost var w0 := world;
      RunNothing(w0, device);
      if cached.Some? && !request.force && a.valid {
        ghost var use := UseCached(c, a.whoami);
        Take(use);
        RunSnoc(w0, device, [], use);
        assert [] + [use] == [use] && [use] + [] == [use];
        RunConcat(w0, device, [use], LoginSteps(c, request, a));
        if a.whoami.Same? || a.whoami.Offline? {
          lock := None;
          return a.whoami.Same?;
        }
        ok := FreshLogin(c, request, a);
      } else if cached.Some? && cached.value.refresh.Some? {
        ghost var spend, save := Refresh(c, a.grant), Save(c, a.saved);
        RunSnoc(w0, device, [], spend);
        assert [] + [spend] == [spend] && [spend] + [] == [spend];
        RunSnoc(w0, device, [spend], save);
        RunConcat(w0, device, [spend], LoginSteps(c, request, a));
        var done;
        done, ok := SpendToken(c, request, cached.value, a);
        if !done {
          ok := FreshLogin(c, request, a);
        }
      } else {
        ok := FreshLogin(c, request, a);
      }
    }

    /** Present the cached refresh token; unless the answer is a judgement against it, that
        ends the turn. */
    method SpendToken(c: nat, request: Request, cached: Session, a: Answers) returns (done: bool, ok: bool)
      requires Valid() && world.PhaseOf(c) == Loaded(request, Some(cached)) && cached.refresh.Some?
      modifies this
      ensures Valid() && done == !a.grant.Judged() && ok == (a.grant.Rotated? || a.grant.Kept?)
      ensures done ==> lock == None
      ensures !done ==> world.PhaseOf(c) == LoggingIn(request)
      ensures var w := old(world).Apply(device, Refresh(c, a.grant));
              world == if ok then w.Apply(device, Save(c, a.saved)) else w
    {
      Take(Refresh(c, a.grant));
      match a.grant {
        case Rotated =>
          var token := issued;
          issued := issued + 1;
          SaveSession(c, cached.(refresh := Some(token)), a.saved);
          done, ok := true, true;
        case Kept =>
          SaveSession(c, cached, a.saved);
          done, ok := true, true;
        case Lost =>
          issued := issued + 1;
          lock := None;
          done, ok := true, false;
        case Garbled =>
          issued := issued + 1;
          done, ok := false, false;
        case Unreachable =>
          lock := None;
          done, ok := true, false;
        case Refused =>
          done, ok := false, false;
      }
    }
  }
}
