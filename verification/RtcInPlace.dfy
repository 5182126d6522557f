/**
 Rejoining in place: as long as no new chain has to be started, the `created_ts` that
 the server acknowledges only ever grows, a refresh repeats the newest one, and the
 absolute expiry `created_ts + expires` never moves back.
 */
module RtcInPlace {
  import opened Basics
  import opened RtcSchedule
  import opened RtcKeeper
  import opened RtcEffects

  /** The keeper holds a chain whose anchor is known, begun no later than now. */
  ghost predicate Anchored(k: KeeperState) {
    k.chain.Some? && k.createdTs.Some? && k.sched.joinedAt <= k.clock
  }

  /** What the absolute expiry would be if the membership were published now. */
  function Horizon(k: KeeperState): nat
    requires Anchored(k)
  {
    k.createdTs.value + (k.clock - k.sched.joinedAt) + k.sched.timing.expiry
  }

  predicate Named(e: Event) { e.Published() && e.req.createdTs.Some? }

  function AbsoluteExpiry(e: Event): nat
    requires Named(e)
  {
    e.req.createdTs.value + e.req.expires
  }

  ghost predicate IsInPlace(e: Event) { Named(e) && e.req.kind.InPlace? }

  /** No acknowledged in-place rejoin lies strictly between `i` and `j`. */
  ghost predicate NoneBetween(t: seq<Event>, i: nat, j: nat) {
    forall m :: i < m < j && m < |t| ==> !IsInPlace(t[m])
  }

  /** The order of two acknowledged publications. */
  ghost predicate Ordered(t: seq<Event>, i: nat, j: nat)
    requires i < j < |t| && Named(t[i]) && Named(t[j])
  {
    && t[i].req.createdTs.value <= t[j].req.createdTs.value
    && AbsoluteExpiry(t[i]) <= AbsoluteExpiry(t[j])
    && (t[j].req.kind.InPlace? ==> t[i].req.createdTs.value < t[j].req.createdTs.value)
    && (t[j].req.kind.Continue? && NoneBetween(t, i, j) ==> t[i].req.createdTs == t[j].req.createdTs)
  }

  /** From position `base` on: no new chain, every in-place `created_ts` below the ceiling. */
  ghost predicate Continuing(t: seq<Event>, base: nat) {
    && (forall i :: base <= i < |t| && t[i].Asked? && t[i].req.Publish? ==> !t[i].req.kind.NewChain?)
    && (forall i :: base <= i < |t| && IsInPlace(t[i]) ==> t[i].req.createdTs.value < UINT_MAX)
  }

  /** No in-place rejoin was acknowledged from position `base` up to `j`. */
  ghost predicate NoneSince(t: seq<Event>, base: nat, j: nat) {
    forall m :: base <= m < j && m < |t| ==> !IsInPlace(t[m])
  }

  /** A publication made after the anchored state `k0`, against the anchor of `k0`: that
      is the `created_ts` the server named for the publication its chain began with. */
  ghost predicate AfterAnchor(k0: KeeperState, t: seq<Event>, i: nat)
    requires Anchored(k0) && i < |t| && Named(t[i])
  {
    && k0.createdTs.value <= t[i].req.createdTs.value
    && Horizon(k0) <= AbsoluteExpiry(t[i])
    && (t[i].req.kind.InPlace? ==> k0.createdTs.value < t[i].req.createdTs.value)
    && (t[i].req.kind.Continue? && NoneSince(t, |k0.trace|, i) ==> t[i].req.createdTs == k0.createdTs)
  }

  /** The publications since `k0` are in order, and none is ahead of the keeper. */
  ghost predicate Pairwise(k: KeeperState, k0: KeeperState)
    requires Anchored(k)
  {
    var base := |k0.trace|;
    && (forall i, j :: base <= i < j < |k.trace| && Named(k.trace[i]) && Named(k.trace[j]) ==> Ordered(k.trace, i, j))
    && (forall i :: base <= i < |k.trace| && Named(k.trace[i]) ==>
          && k.trace[i].req.createdTs.value <= k.createdTs.value
          && AbsoluteExpiry(k.trace[i]) <= Horizon(k)
          && (NoneBetween(k.trace, i, |k.trace|) ==> k.trace[i].req.createdTs == k.createdTs))
  }

  /** They come after the anchor of `k0`, and so does the keeper. */
  ghost predicate FromAnchor(k: KeeperState, k0: KeeperState)
    requires Anchored(k) && Anchored(k0)
  {
    var base := |k0.trace|;
    && (forall i :: base <= i < |k.trace| && Named(k.trace[i]) ==> AfterAnchor(k0, k.trace, i))
    && k0.createdTs.value <= k.createdTs.value && Horizon(k0) <= Horizon(k)
    && (NoneSince(k.trace, base, |k.trace|) ==> k.createdTs == k0.createdTs)
  }

  ghost predicate InOrder(k: KeeperState, k0: KeeperState) {
    Anchored(k) && Anchored(k0) && |k0.trace| <= |k.trace| && Pairwise(k, k0) && FromAnchor(k, k0)
  }

  lemma ContinuingPrefix(t: seq<Event>, u: seq<Event>, base: nat)
    requires base <= |t| <= |u| && u[..|t|] == t && Continuing(u, base)
    ensures Continuing(t, base)
  {
    assert forall i :: 0 <= i < |t| ==> t[i] == u[i];
  }

  /** An event that publishes nothing changes nothing, whatever time it took. */
  ghost predicate Quiet(k: KeeperState, n: KeeperState) {
    && Anchored(k) && Anchored(n)
    && |k.trace| <= |n.trace| && n.trace[..|k.trace|] == k.trace
    && (forall i :: |k.trace| <= i < |n.trace| ==> !Named(n.trace[i]))
    && n.createdTs == k.createdTs && Horizon(k) <= Horizon(n)
  }

  lemma Unpublished(k: KeeperState, n: KeeperState, k0: KeeperState)
    requires InOrder(k, k0) && Quiet(k, n)
    ensures InOrder(n, k0)
  {
    hide Pairwise, FromAnchor;
    QuietPairwise(k, n, k0);
    QuietFromAnchor(k, n, k0);
  }

  lemma QuietPairwise(k: KeeperState, n: KeeperState, k0: KeeperState)
    requires Quiet(k, n) && |k0.trace| <= |k.trace| && Pairwise(k, k0)
    ensures Pairwise(n, k0)
  {
    assert forall i :: 0 <= i < |k.trace| ==> n.trace[i] == k.trace[i];
    forall i, j | |k0.trace| <= i < j < |n.trace| && Named(n.trace[i]) && Named(n.trace[j])
      ensures Ordered(n.trace, i, j)
    {
      assert Ordered(k.trace, i, j);
      assert NoneBetween(n.trace, i, j) ==> NoneBetween(k.trace, i, j);
    }
    forall i | |k0.trace| <= i < |n.trace| && Named(n.trace[i])
      ensures NoneBetween(n.trace, i, |n.trace|) ==> NoneBetween(k.trace, i, |k.trace|)
    {
    }
  }

  lemma QuietFromAnchor(k: KeeperState, n: KeeperState, k0: KeeperState)
    requires Quiet(k, n) && Anchored(k0) && |k0.trace| <= |k.trace| && FromAnchor(k, k0)
    ensures FromAnchor(n, k0)
  {
    hide Horizon;
    assert forall i :: 0 <= i < |k.trace| ==> n.trace[i] == k.trace[i];
    forall i | |k0.trace| <= i < |n.trace| && Named(n.trace[i])
      ensures AfterAnchor(k0, n.trace, i)
    {
      assert AfterAnchor(k0, k.trace, i);
      assert NoneSince(n.trace, |k0.trace|, i) ==> NoneSince(k.trace, |k0.trace|, i);
    }
    assert NoneSince(n.trace, |k0.trace|, |n.trace|) ==> NoneSince(k.trace, |k0.trace|, |k.trace|);
  }

  /** An acknowledged publication `e` that is not behind the keeper comes after all others. */
  ghost predicate Follows(k: KeeperState, e: Event, n: KeeperState) {
    && Anchored(k) && Anchored(n) && Named(e)
    && n.trace == k.trace + [e] && n.createdTs == e.req.createdTs
    && Horizon(k) <= AbsoluteExpiry(e) <= Horizon(n)
    && if e.req.kind.InPlace? then k.createdTs.value < e.req.createdTs.value
       else e.req.kind.Continue? && e.req.createdTs == k.createdTs
  }

  lemma PublishedNext(k: KeeperState, e: Event, n: KeeperState, k0: KeeperState)
    requires InOrder(k, k0) && Follows(k, e, n)
    ensures InOrder(n, k0)
  {
    hide Pairwise, FromAnchor;
    FollowsPairwise(k, e, n, k0);
    FollowsFromAnchor(k, e, n, k0);
  }

  lemma FollowsPairwise(k: KeeperState, e: Event, n: KeeperState, k0: KeeperState)
    requires Follows(k, e, n) && |k0.trace| <= |k.trace| && Pairwise(k, k0)
    ensures Pairwise(n, k0)
  {
    var t := n.trace;
    assert forall i :: 0 <= i < |k.trace| ==> t[i] == k.trace[i];
    forall i, j | |k0.trace| <= i < j < |t| && Named(t[i]) && Named(t[j])
      ensures Ordered(t, i, j)
    {
      if j < |k.trace| {
        assert Ordered(k.trace, i, j);
        assert NoneBetween(t, i, j) ==> NoneBetween(k.trace, i, j);
      } else {
        assert NoneBetween(t, i, j) ==> NoneBetween(k.trace, i, |k.trace|);
      }
    }
    forall i | |k0.trace| <= i < |t| && Named(t[i]) && NoneBetween(t, i, |t|)
      ensures t[i].req.createdTs == n.createdTs
    {
      if i < |k.trace| {
        assert !IsInPlace(t[|k.trace|]);
        assert NoneBetween(k.trace, i, |k.trace|);
      }
    }
  }

  lemma FollowsFromAnchor(k: KeeperState, e: Event, n: KeeperState, k0: KeeperState)
    requires Follows(k, e, n) && Anchored(k0) && |k0.trace| <= |k.trace| && FromAnchor(k, k0)
    ensures FromAnchor(n, k0)
  {
    hide Horizon;
    var t := n.trace;
    assert forall i :: 0 <= i < |k.trace| ==> t[i] == k.trace[i];
    forall i | |k0.trace| <= i < |t| && Named(t[i])
      ensures AfterAnchor(k0, t, i)
    {
      if i < |k.trace| {
        assert AfterAnchor(k0, k.trace, i);
        assert NoneSince(t, |k0.trace|, i) ==> NoneSince(k.trace, |k0.trace|, i);
      } else {
        assert NoneSince(t, |k0.trace|, i) ==> NoneSince(k.trace, |k0.trace|, |k.trace|);
      }
    }
    if NoneSince(t, |k0.trace|, |t|) {
      assert !IsInPlace(t[|k.trace|]);
      assert NoneSince(k.trace, |k0.trace|, |k.trace|);
    }
  }

  lemma RefreshInOrder(k: KeeperState, o: Oracle, k0: KeeperState)
    requires InOrder(k, k0)
    requires Continuing(k.Refresh(k.sched.ExpiresAt(k.clock), o).trace, |k0.trace|)
    ensures InOrder(k.Refresh(k.sched.ExpiresAt(k.clock), o), k0)
  {
    hide Pairwise, FromAnchor;
    var n := k.Refresh(k.sched.ExpiresAt(k.clock), o);
    if k.clock >= k.sched.validUntil {
      var seen := k.(trace := k.trace + [LapseSeen(k.clock)]);
      NewChainAsked(seen, o);
      assert false;
    } else {
      var e := n.trace[|k.trace|];
      if k.Next(o).Acked() {
        PublishedNext(k, e, n, k0);
      } else {
        Unpublished(k, n, k0);
      }
    }
  }

  lemma NewChainAsked(k: KeeperState, o: Oracle)
    ensures var t := k.Rejoin(o).trace;
            && |k.trace| < |t| && t[..|k.trace|] == k.trace
            && t[|k.trace|].Asked? && t[|k.trace|].req.Publish? && t[|k.trace|].req.kind.NewChain?
  {
  }

  lemma RejoinInOrder(k: KeeperState, o: Oracle, k0: KeeperState)
    requires InOrder(k, k0) && Continuing(k.RejoinInPlace(o).trace, |k0.trace|)
    ensures InOrder(k.RejoinInPlace(o), k0)
  {
    hide Pairwise, FromAnchor;
    var n := k.RejoinInPlace(o);
    var e := n.trace[|k.trace|];
    if k.Next(o).Acked() {
      assert IsInPlace(e);
      PublishedNext(k, e, n, k0);
    } else {
      Unpublished(k, n, k0);
    }
  }

  lemma RestartInOrder(k: KeeperState, o: Oracle, k0: KeeperState)
    requires InOrder(k, k0) && k.delayId.Some? && Continuing(k.RestartLeave(o).trace, |k0.trace|)
    ensures InOrder(k.RestartLeave(o), k0)
  {
    hide KeeperState.Rejoin, Pairwise, FromAnchor;
    if o(|k.trace|).outcome.NotFound? && !o(|k.trace| + 1).ConfirmsLive() {
      var gone := k.Ask(Request.RestartLeave(k.delayId.value), o).(delayId := None);
      var lost := gone.Ask(IsLive, o);
      NewChainAsked(lost.(sched := lost.sched.LeaveLost(lost.clock)).ArmLeave(o), o);
      assert false;
    } else {
      Unpublished(k, k.RestartLeave(o), k0);
    }
  }

  lemma ApplyInOrder(k: KeeperState, a: Action, o: Oracle, k0: KeeperState)
    requires InOrder(k, k0) && Continuing(Apply(k, a, o).trace, |k0.trace|)
    ensures InOrder(Apply(k, a, o), k0)
  {
    hide Pairwise, FromAnchor;
    match a {
      case Wait(ms) => Unpublished(k, Apply(k, a, o), k0);
      case Rejoin => RejoinInOrder(k, o, k0);
      case Act =>
        match k.sched.DueAt(k.clock) {
          case Some(ArmLeave) => Unpublished(k, k.ArmLeave(o), k0);
          case Some(RestartLeave) =>
            if k.delayId.Some? {
              RestartInOrder(k, o, k0);
            } else {
              Unpublished(k, k.RestartLeave(o), k0);
            }
          case Some(Refresh(expires)) => RefreshInOrder(k, o, k0);
          case None =>
        }
    }
  }

  lemma ApplyExtends(k: KeeperState, a: Action, o: Oracle)
    ensures |k.trace| <= |Apply(k, a, o).trace| && Apply(k, a, o).trace[..|k.trace|] == k.trace
  {
    match a {
      case Wait(_) =>
      case Rejoin => InPlaceEffect(k, o);
      case Act =>
        match k.sched.DueAt(k.clock) {
          case Some(ArmLeave) => ArmEffect(k, o);
          case Some(RestartLeave) =>
            if k.delayId.Some? {
              if o(|k.trace|).outcome.NotFound? {
                RecoverEffect(k.Ask(Request.RestartLeave(k.delayId.value), o).(delayId := None), o, 0);
              }
            }
          case Some(Refresh(expires)) => RefreshEffect(k, expires, o, 0);
          case None =>
        }
    }
  }

  lemma {:induction false} RunInOrder(k: KeeperState, actions: seq<Action>, o: Oracle)
    requires Anchored(k) && Continuing(Run(k, actions, o).trace, |k.trace|)
    ensures InOrder(Run(k, actions, o), k)
    ensures Run(k, actions, o).trace[..|k.trace|] == k.trace
  {
    if actions != [] {
      var before := Run(k, actions[..|actions| - 1], o);
      var a := actions[|actions| - 1];
      ApplyExtends(before, a, o);
      RunExtends(k, actions[..|actions| - 1], o);
      ContinuingPrefix(before.trace, Apply(before, a, o).trace, |k.trace|);
      RunInOrder(k, actions[..|actions| - 1], o);
      ApplyInOrder(before, a, o, k);
    }
  }

  lemma {:induction false} RunExtends(k: KeeperState, actions: seq<Action>, o: Oracle)
    ensures |k.trace| <= |Run(k, actions, o).trace| && Run(k, actions, o).trace[..|k.trace|] == k.trace
  {
    if actions != [] {
      var before := Run(k, actions[..|actions| - 1], o);
      RunExtends(k, actions[..|actions| - 1], o);
      ApplyExtends(before, actions[|actions| - 1], o);
    }
  }

  /** Over any run that starts no new chain and stays below the integer ceiling, every
      acknowledged publication `j` is named, and
      - against the anchor `k.createdTs`, the `created_ts` the server named for the
        publication the chain began with: an in-place rejoin is strictly above it, and a
        refresh before any in-place rejoin repeats it;
      - against any acknowledged publication `i` before it: an in-place rejoin is strictly
        above it, and a refresh with no in-place rejoin in between repeats it (so it
        repeats the newest one);
      - the absolute expiry is not below that at `i`, nor below the first one. */
  lemma PublicationsAdvance(k: KeeperState, actions: seq<Action>, o: Oracle)
    requires Anchored(k) && Continuing(Run(k, actions, o).trace, |k.trace|)
    ensures var t := Run(k, actions, o).trace;
            && (forall j :: |k.trace| <= j < |t| && t[j].Published() ==> Named(t[j]) && AfterAnchor(k, t, j))
            && (forall i, j :: |k.trace| <= i < j < |t| && Named(t[i]) && Named(t[j]) ==> Ordered(t, i, j))
  {
    hide Run, AfterAnchor, Ordered;
    RunInOrder(k, actions, o);
    RunNames(k, actions, o);
  }

  /** Only a new chain is published without a `created_ts`. */
  ghost predicate NamedSince(t: seq<Event>, base: nat) {
    forall i :: base <= i < |t| && t[i].Asked? && t[i].req.Publish? && !t[i].req.kind.NewChain? ==>
                  t[i].req.createdTs.Some?
  }

  lemma {:induction false} RunNames(k: KeeperState, actions: seq<Action>, o: Oracle)
    ensures NamedSince(Run(k, actions, o).trace, |k.trace|)
  {
    if actions != [] {
      var before := Run(k, actions[..|actions| - 1], o);
      var a := actions[|actions| - 1];
      RunNames(k, actions[..|actions| - 1], o);
      RunExtends(k, actions[..|actions| - 1], o);
      ApplyExtends(before, a, o);
      ApplyNames(before, a, o);
      assert forall i :: 0 <= i < |before.trace| ==> Apply(before, a, o).trace[i] == before.trace[i];
    }
  }

  lemma RefreshNames(k: KeeperState, expires: nat, o: Oracle)
    ensures NamedSince(k.Refresh(expires, o).trace, |k.trace|)
  {
    if k.chain.None? {
    } else if k.clock >= k.sched.validUntil {
    } else if k.createdTs.None? {
      AnchorEffect(k, o);
      var a := k.AnchorCreatedTs(o);
      if a.createdTs.None? {
        assert NamedSince(a.Rejoin(o).trace, |a.trace|);
      }
    }
  }

  lemma RestartNames(k: KeeperState, o: Oracle)
    ensures NamedSince(k.RestartLeave(o).trace, |k.trace|)
  {
    hide KeeperState.Refresh, KeeperState.RejoinInPlace;
    if k.delayId.Some? && o(|k.trace|).outcome.NotFound? {
      var gone := k.Ask(Request.RestartLeave(k.delayId.value), o).(delayId := None);
      var lost := gone.Ask(IsLive, o);
      var armed := lost.(sched := lost.sched.LeaveLost(lost.clock)).ArmLeave(o);
      assert NamedSince(armed.Rejoin(o).trace, |armed.trace|);
    }
  }

  lemma ApplyNames(k: KeeperState, a: Action, o: Oracle)
    ensures NamedSince(Apply(k, a, o).trace, |k.trace|)
  {
    match a {
      case Wait(_) =>
      case Rejoin =>
      case Act =>
        match k.sched.DueAt(k.clock) {
          case Some(ArmLeave) =>
          case Some(RestartLeave) => RestartNames(k, o);
          case Some(Refresh(expires)) => RefreshNames(k, expires, o);
          case None =>
        }
    }
  }

  /** The ceiling is the only exception: an acknowledged in-place rejoin of an anchored
      keeper raises `created_ts` exactly when the old one is below the ceiling. */
  lemma InPlaceRaisesUnlessSaturated(k: KeeperState, o: Oracle)
    requires Anchored(k) && k.createdTs.value <= UINT_MAX && k.Next(o).Acked()
    ensures var n := k.RejoinInPlace(o);
            && n.createdTs.Some?
            && (n.createdTs.value > k.createdTs.value <==> k.createdTs.value < UINT_MAX)
            && n.createdTs.value <= UINT_MAX
  {
  }

  /** A rejoin that fails changes nothing but the clock and the record of requests. */
  lemma FailedInPlaceChangesNothing(k: KeeperState, o: Oracle)
    requires k.createdTs.Some? && !k.Next(o).Acked()
    ensures var n := k.RejoinInPlace(o); n == k.(clock := n.clock, trace := n.trace)
  {
  }
}
