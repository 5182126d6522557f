/**
 The keeper of one held RTC membership (crates/aqua-matrix-agent/src/rtc_member.rs):
 it drives a homeserver according to the schedule. Every request consumes the next
 answer of an arbitrary oracle, which also says how long the request took, so a
 statement about all oracles is a statement about every behaviour of the server.

 `KeeperState` is the mathematical state; the class `Keeper` below holds the same
 data in mutable objects and is proved to do what `KeeperState` says.
 */
module RtcKeeper {
  import opened Basics
  import opened RtcSchedule

  /** The largest integer a `created_ts` can carry (`js_int::UInt::MAX`). */
  const UINT_MAX: nat := 0x1F_FFFF_FFFF_FFFF

  datatype Outcome =
    | Ok
    | NotFound
    | Unsupported
    | RateLimited(retryAfter: Option<nat>)
    | Failed
  {
    function RetryAfter(): Option<nat> {
      match this
      case RateLimited(r) => r
      case _ => None
    }
  }

  /** One answer: how long it took, what it was, and the payload an `Ok` carries.
      `wall` is the host clock, read only when no anchor is known. */
  datatype Answer = Answer(lag: nat, outcome: Outcome, delayId: nat, ts: nat, live: bool, wall: nat)
  {
    predicate Acked() { outcome.Ok? }
    predicate ConfirmsLive() { outcome.Ok? && live }
  }

  type Oracle = nat -> Answer

  /** How a membership publication relates to the chains before it. */
  datatype Kind =
    | NewChain
    | Continue(chain: nat)
    | InPlace

  datatype Request =
    | Publish(kind: Kind, createdTs: Option<nat>, expires: nat)
    | OriginTs(event: nat)
    | IsLive
    | ScheduleLeave(delay: nat)
    | RestartLeave(id: nat)
    | SendLeaveNow(id: nat)
    | ClearMember
    | CancelLeave(id: nat)

  /** What the keeper did: a request with its answer, or the decision, inside a
      refresh, that the published membership had lapsed. */
  datatype Event =
    | Asked(req: Request, sentAt: nat, answer: Answer)
    | LapseSeen(at: nat)
  {
    predicate Published() { Asked? && req.Publish? && answer.Acked() }
    predicate StartsChain() { Published() && !req.kind.Continue? }
    /** The delayed leave was gone and the server did not confirm a live membership. */
    predicate GoneSeen() { Asked? && req.IsLive? && !answer.ConfirmsLive() }
    predicate EndsChain() { GoneSeen() || LapseSeen? }
  }

  /** `chain` and every chain named in a trace is the position, in the trace, of
      the acknowledged publication that started it: event ids are never reused. */
  datatype KeeperState = KeeperState(
    sched: Sched,
    createdTs: Option<nat>,
    chain: Option<nat>,
    delayId: Option<nat>,
    clock: nat,
    trace: seq<Event>)
  {
    function Next(o: Oracle): Answer { o(|trace|) }

    function Ask(req: Request, o: Oracle): KeeperState {
      this.(trace := trace + [Asked(req, clock, Next(o))], clock := clock + Next(o).lag)
    }

    function AnchorCreatedTs(o: Oracle): KeeperState {
      match chain
      case None => this
      case Some(event) =>
        var k := Ask(OriginTs(event), o);
        if Next(o).Acked() then k.(createdTs := Some(Next(o).ts)) else k
    }

    function ArmLeave(o: Oracle): KeeperState {
      var k := Ask(ScheduleLeave(sched.timing.leaveDelay), o);
      match Next(o).outcome
      case Ok => k.(delayId := Some(Next(o).delayId), sched := sched.LeaveArmed(k.clock))
      case Unsupported => k.(sched := sched.LeaveDisabled())
      case bad => k.(sched := sched.LeaveArmFailed(k.clock, bad.RetryAfter()))
    }

    function Rejoin(o: Oracle): KeeperState {
      var k := this.(chain := None, createdTs := None).Ask(Publish(NewChain, None, sched.timing.expiry), o);
      if Next(o).Acked() then
        k.(chain := Some(|trace|), sched := sched.Rejoined(k.clock)).AnchorCreatedTs(o)
      else
        k.(sched := sched.RefreshFailed(k.clock, Next(o).outcome.RetryAfter()))
    }

    function Refresh(expires: nat, o: Oracle): KeeperState {
      if chain.None? then
        Rejoin(o)
      else if clock >= sched.validUntil then
        this.(trace := trace + [LapseSeen(clock)]).Rejoin(o)
      else
        var k := if createdTs.None? then AnchorCreatedTs(o) else this;
        if k.createdTs.None? then k.Rejoin(o) else k.Resend(expires, o)
    }

    /** The re-send of the current chain that a refresh consists of. */
    function Resend(expires: nat, o: Oracle): KeeperState
      requires chain.Some? && createdTs.Some?
    {
      var k := Ask(Publish(Continue(chain.value), createdTs, expires), o);
      if Next(o).Acked() then
        k.(sched := sched.Refreshed(k.clock, expires))
      else
        k.(sched := sched.RefreshFailed(k.clock, Next(o).outcome.RetryAfter()))
    }

    /** What an in-place rejoin publishes: the anchor moved on by the age of the chain, by
        one millisecond at the least and never past the ceiling; else the host clock. */
    function NextCreatedTs(o: Oracle): nat {
      match createdTs
      case Some(anchor) =>
        var elapsed := if clock >= sched.joinedAt then clock - sched.joinedAt else 0;
        Min(UINT_MAX, anchor + Max(elapsed, 1))
      case None => Next(o).wall
    }

    function RejoinInPlace(o: Oracle): KeeperState {
      var a := if createdTs.None? then AnchorCreatedTs(o) else this;
      var at := a.clock;
      var ts := a.NextCreatedTs(o);
      var k := a.Ask(Publish(InPlace, Some(ts), sched.timing.expiry), o);
      if a.Next(o).Acked() then
        k.(chain := Some(|a.trace|), createdTs := Some(ts), sched := sched.Rejoined(at))
      else
        k
    }

    function RestartLeave(o: Oracle): KeeperState {
      match delayId
      case None => this.(sched := sched.LeaveLost(clock))
      case Some(id) =>
        var k := Ask(Request.RestartLeave(id), o);
        match Next(o).outcome
        case Ok => k.(sched := sched.LeaveArmed(k.clock))
        case NotFound => k.(delayId := None).RecoverLeave(o)
        case bad => k.(sched := sched.LeaveRestartFailed(k.clock, bad.RetryAfter()))
    }

    /** What follows a NotFound: ask whether the membership is live, arm anew, and rejoin unless it is. */
    function RecoverLeave(o: Oracle): KeeperState {
      var k := Ask(IsLive, o);
      var armed := k.(sched := sched.LeaveLost(k.clock)).ArmLeave(o);
      if Next(o).ConfirmsLive() then armed else armed.Rejoin(o)
    }

    /** One pass of the loop: serve whichever deadline has passed. */
    function Step(o: Oracle): KeeperState {
      match sched.DueAt(clock)
      case Some(ArmLeave) => ArmLeave(o)
      case Some(RestartLeave) => RestartLeave(o)
      case Some(Refresh(expires)) => Refresh(expires, o)
      case None => this
    }

    function Leave(o: Oracle): KeeperState {
      match delayId
      case None => Ask(ClearMember, o)
      case Some(id) =>
        var k := this.(delayId := None).Ask(SendLeaveNow(id), o);
        if Next(o).Acked() then k else k.Ask(ClearMember, o)
    }

    function HandOver(o: Oracle): KeeperState {
      match delayId
      case None => this
      case Some(id) =>
        var k := this.(delayId := None).Ask(CancelLeave(id), o);
        match Next(o).outcome
        case Ok => k
        case NotFound => k
        case _ => k.(delayId := Some(id))
    }
  }

  /** What a hold holds once its join was acknowledged; `None` if it was not. */
  function Start(timing: Timing, o: Oracle): Option<KeeperState> {
    var k0 := KeeperState(JoinedAt(timing, 0), None, None, None, 0, []);
    var k := k0.Ask(Publish(NewChain, None, timing.expiry), o);
    if Validate(timing).None? && o(0).Acked() then
      Some(k.(chain := Some(0), sched := JoinedAt(timing, k.clock)).AnchorCreatedTs(o).ArmLeave(o))
    else
      None
  }

  /** What can happen to a holding keeper: time passes, the action due is
      performed, or the handle asks for a rejoin in place. */
  datatype Action = Wait(ms: nat) | Act | Rejoin

  function Apply(k: KeeperState, a: Action, o: Oracle): KeeperState {
    match a
    case Wait(ms) => k.(clock := k.clock + ms)
    case Act => k.Step(o)
    case Rejoin => k.RejoinInPlace(o)
  }

  function Run(k: KeeperState, actions: seq<Action>, o: Oracle): KeeperState {
    if actions == [] then k else Apply(Run(k, actions[..|actions| - 1], o), actions[|actions| - 1], o)
  }

  // -------------------------------------------------------------------------
  // The keeper and its transport as mutable objects
  // -------------------------------------------------------------------------

  /** The homeserver as the keeper reaches it: an arbitrary oracle of answers,
      the monotonic clock, and the record of what was asked. */
  class Transport {
    const oracle: Oracle
    var clock: nat
    var trace: seq<Event>

    constructor (oracle: Oracle)
      ensures this.oracle == oracle && clock == 0 && trace == []
    {
      this.oracle := oracle;
      clock, trace := 0, [];
    }

    method Ask(req: Request) returns (a: Answer)
      modifies this
      ensures a == oracle(|old(trace)|)
      ensures trace == old(trace) + [Asked(req, old(clock), a)] && clock == old(clock) + a.lag
    {
      a := oracle(|trace|);
      trace, clock := trace + [Asked(req, clock, a)], clock + a.lag;
    }

    method Note(e: Event)
      modifies this`trace
      ensures trace == old(trace) + [e]
    {
      trace := trace + [e];
    }
  }

  /** The delayed leave's id, shared with the registry of holds. */
  class DelaySlot {
    var id: Option<nat>

    constructor ()
      ensures id == None
    {
      id := None;
    }
  }

  class Keeper {
    const transport: Transport
    const sched: Schedule
    const delay: DelaySlot
    var createdTs: Option<nat>
    var chain: Option<nat>

    function View(): KeeperState
      reads this, transport, sched, delay
    {
      KeeperState(sched.View(), createdTs, chain, delay.id, transport.clock, transport.trace)
    }

    function Oracle(): Oracle { transport.oracle }

    constructor Join(transport: Transport, timing: Timing, chain: nat, delay: DelaySlot)
      ensures this.transport == transport && this.delay == delay && fresh(sched)
      ensures View() == KeeperState(JoinedAt(timing, transport.clock), None, Some(chain), delay.id,
                                    transport.clock, transport.trace)
    {
      this.transport, this.delay := transport, delay;
      sched := new Schedule.Joined(timing, transport.clock);
      createdTs, this.chain := None, Some(chain);
    }

    /** Publish the membership (a failure is the caller's error), anchor it, arm the switch. */
    static method StartShared(transport: Transport, timing: Timing, delay: DelaySlot)
      returns (keeper: Keeper?)
      requires transport.clock == 0 && transport.trace == [] && delay.id == None
      modifies transport, delay
      ensures Start(timing, transport.oracle) ==
              if keeper == null then None else Some(keeper.View())
      ensures keeper != null ==> keeper.transport == transport && keeper.delay == delay && fresh(keeper)
    {
      if Validate(timing).Some? {
        return null;
      }
      var a := transport.Ask(Publish(NewChain, None, timing.expiry));
      if !a.Acked() {
        return null;
      }
      var k := new Keeper.Join(transport, timing, 0, delay);
      k.AnchorCreatedTs();
      k.ArmLeave();
      keeper := k;
    }

    method AnchorCreatedTs()
      modifies this, transport
      ensures View() == old(View()).AnchorCreatedTs(Oracle())
    {
      if chain.Some? {
        var a := transport.Ask(OriginTs(chain.value));
        if a.Acked() {
          createdTs := Some(a.ts);
        }
      }
    }

    method ArmLeave()
      modifies this, transport, sched, delay
      ensures View() == old(View()).ArmLeave(Oracle())
    {
      var a := transport.Ask(ScheduleLeave(sched.timing.leaveDelay));
      match a.outcome {
        case Ok =>
          delay.id := Some(a.delayId);
          sched.LeaveArmed(transport.clock);
        case Unsupported =>
          sched.LeaveDisabled();
        case _ =>
          sched.LeaveArmFailed(transport.clock, a.outcome.RetryAfter());
      }
    }

    method Rejoin()
      modifies this, transport, sched
      ensures View() == old(View()).Rejoin(Oracle())
    {
      chain, createdTs := None, None;
      var eventId := |transport.trace|;
      var a := transport.Ask(Publish(NewChain, None, sched.timing.expiry));
      if a.Acked() {
        chain := Some(eventId);
        sched.Rejoined(transport.clock);
        AnchorCreatedTs();
      } else {
        sched.RefreshFailed(transport.clock, a.outcome.RetryAfter());
      }
    }

    method Refresh(expires: nat)
      modifies this, transport, sched
      ensures View() == old(View()).Refresh(expires, Oracle())
    {
      if chain.None? {
        Rejoin();
        return;
      }
      if transport.clock >= sched.validUntil {
        transport.Note(LapseSeen(transport.clock));
        Rejoin();
        return;
      }
      if createdTs.None? {
        AnchorCreatedTs();
      }
      if createdTs.None? {
        Rejoin();
        return;
      }
      var a := transport.Ask(Publish(Continue(chain.value), createdTs, expires));
      if a.Acked() {
        sched.Refreshed(transport.clock, expires);
      } else {
        sched.RefreshFailed(transport.clock, a.outcome.RetryAfter());
      }
    }

    method RejoinInPlace() returns (ts: Option<nat>)
      modifies this, transport, sched
      ensures View() == old(View()).RejoinInPlace(Oracle())
      ensures ts.Some? ==> View().createdTs == ts && View().trace[|View().trace| - 1].StartsChain()
      ensures ts.None? ==> View().sched == old(View()).sched && View().chain == old(View()).chain
    {
      if createdTs.None? {
        AnchorCreatedTs();
      }
      var at := transport.clock;
      var created := View().NextCreatedTs(Oracle());
      var eventId := |transport.trace|;
      var a := transport.Ask(Publish(InPlace, Some(created), sched.timing.expiry));
      if a.Acked() {
        chain, createdTs := Some(eventId), Some(created);
        sched.Rejoined(at);
        ts := Some(created);
      } else {
        ts := None;
      }
    }

    method RestartLeave()
      modifies this, transport, sched, delay
      ensures View() == old(View()).RestartLeave(Oracle())
    {
      hide KeeperState.ArmLeave, KeeperState.Rejoin;
      if delay.id.None? {
        sched.LeaveLost(transport.clock);
        return;
      }
      var a := transport.Ask(Request.RestartLeave(delay.id.value));
      match a.outcome {
        case Ok =>
          sched.LeaveArmed(transport.clock);
        case NotFound =>
          delay.id := None;
          var live := transport.Ask(IsLive);
          sched.LeaveLost(transport.clock);
          ArmLeave();
          if !live.ConfirmsLive() {
            Rejoin();
          }
        case _ =>
          sched.LeaveRestartFailed(transport.clock, a.outcome.RetryAfter());
      }
    }

    method Step() returns (acted: bool)
      modifies this, transport, sched, delay
      ensures View() == old(View()).Step(Oracle())
      ensures acted <==> old(View()).sched.NextWake() <= old(View()).clock
    {
      var due := sched.View().DueAt(transport.clock);
      DueIffAwake(sched.View(), transport.clock);
      match due {
        case Some(ArmLeave) => ArmLeave();
        case Some(RestartLeave) => RestartLeave();
        case Some(Refresh(expires)) => Refresh(expires);
        case None => return false;
      }
      acted := true;
    }

    method Leave() returns (left: bool)
      modifies this, transport, delay
      ensures View() == old(View()).Leave(Oracle())
      ensures left <==> View().trace[|View().trace| - 1].answer.Acked()
      ensures delay.id == None
    {
      if delay.id.Some? {
        var id := delay.id.value;
        delay.id := None;
        var sent := transport.Ask(SendLeaveNow(id));
        if sent.Acked() {
          return true;
        }
      }
      var cleared := transport.Ask(ClearMember);
      left := cleared.Acked();
    }

    method HandOver()
      modifies this, transport, delay
      ensures View() == old(View()).HandOver(Oracle())
    {
      if delay.id.Some? {
        var id := delay.id.value;
        delay.id := None;
        var a := transport.Ask(CancelLeave(id));
        if !(a.outcome.Ok? || a.outcome.NotFound?) {
          delay.id := Some(id);
        }
      }
    }
  }
}
