/**
 The pending-question router (crates/aqua-matrix-gating/src/pending.rs): a shared map from
 a user to the one-shot channel of the question asked last. `ask` is split at its await
 points: register, send, wait for the answer, and clear the entry after a failed send or a
 timeout. Any number of asks, messages and clears interleave. The map's lock is never
 poisoned in this model.
 */
module PendingQuestions {
  import opened Basics

  /** Where an ask is: its question being sent, waiting for the answer, about to clear
      the entry after a failed send or a timeout, or returned. */
  datatype Phase = Sending | Waiting | SendFailed | Expired | Answered(body: string) | Denied

  /** A one-shot channel: empty, holding the body of the message sent into it by the step
      `at`, or closed because its sender was dropped unused. */
  datatype Channel = Empty | Full(at: nat, body: string) | Closed

  datatype Ask = Ask(target: string, phase: Phase, channel: Channel)
  {
    predicate Returned() { phase.Answered? || phase.Denied? }
  }

  datatype Step =
    | Register(target: string)
    | Sent(ask: nat, ok: bool)
    | Message(target: string, body: string)
    | Wake(ask: nat)
    | Elapse(ask: nat)
    | ClearAfter(ask: nat)
    | Clear(target: string)

  datatype State = State(entries: map<string, nat>, asks: seq<Ask>)
  {
    /** Every entry refers to an ask. */
    predicate Valid() { forall t :: t in entries ==> entries[t] < |asks| }

    function WithAsk(n: nat, a: Ask): State
      requires n < |asks|
    {
      this.(asks := asks[n := a])
    }

    predicate In(n: nat, phase: Phase) { n < |asks| && asks[n].phase == phase }

    /** The sender in the entry is dropped. */
    function Dropped(target: string): (s: State)
      requires Valid()
      ensures s.Valid() && |s.asks| == |asks|
    {
      if target !in entries then this
      else
        var n := entries[target];
        WithAsk(n, asks[n].(channel := Closed)).(entries := entries - {target})
    }

    function Registered(target: string): State
      requires Valid()
    {
      var s := Dropped(target);
      State(s.entries[target := |asks|], s.asks + [Ask(target, Sending, Empty)])
    }

    /** A message is the answer to the open question, if there is one. After a timeout
        the receiver is gone and the message is lost. */
    function Resolved(at: nat, target: string, body: string): State
      requires Valid()
    {
      if target !in entries then this
      else
        var n := entries[target];
        WithAsk(n, if asks[n].phase.Expired? then asks[n] else asks[n].(channel := Full(at, body)))
        .(entries := entries - {target})
    }

    function Apply(at: nat, step: Step): (s: State)
      requires Valid()
      ensures s.Valid()
    {
      match step
      case Register(target) => Registered(target)
      case Sent(n, ok) =>
        if In(n, Sending) then WithAsk(n, asks[n].(phase := if ok then Waiting else SendFailed)) else this
      case Message(target, body) => Resolved(at, target, body)
      case Wake(n) =>
        if !In(n, Waiting) || asks[n].channel.Empty? then this
        else WithAsk(n, asks[n].(phase := if asks[n].channel.Full? then Answered(asks[n].channel.body) else Denied))
      case Elapse(n) =>
        if In(n, Waiting) && asks[n].channel.Empty? then WithAsk(n, asks[n].(phase := Expired)) else this
      case ClearAfter(n) =>
        if !In(n, SendFailed) && !In(n, Expired) then this
        else
          var s := Dropped(asks[n].target);
          s.WithAsk(n, s.asks[n].(phase := Denied))
      case Clear(target) => Dropped(target)
    }
  }

  const START := State(map[], [])

  // -------------------------------------------------------------------------
  // The shared map
  // -------------------------------------------------------------------------

  class PendingMap {
    /** From a user to the ask whose one-shot sender is in the map. */
    var inner: map<string, nat>
    /** The calls of `ask` so far, and the number of steps, which tells messages apart. */
    var asks: seq<Ask>
    var steps: nat

    function View(): State
      reads this
    {
      State(inner, asks)
    }

    constructor ()
      ensures View() == START && steps == 0
    {
      inner, asks, steps := map[], [], 0;
    }

    predicate IsPending(target: string)
      reads this
    {
      target in inner
    }

    /** Take the sender out of the map. */
    method Remove(target: string) returns (sender: Option<nat>)
      modifies this`inner
      ensures sender == if target in old(inner) then Some(old(inner)[target]) else None
      ensures inner == old(inner) - {target}
    {
      sender := if target in inner then Some(inner[target]) else None;
      inner := inner - {target};
    }

    method TryResolve(target: string, body: string) returns (consumed: bool)
      requires View().Valid()
      modifies this
      ensures View() == old(View()).Apply(old(steps), Message(target, body)) && steps == old(steps) + 1
      ensures consumed == old(IsPending(target)) && !IsPending(target)
    {
      var sender := Remove(target);
      match sender {
        case None =>
          assert inner == old(inner);
          consumed := false;
        case Some(n) =>
          asks := asks[n := if asks[n].phase.Expired? then asks[n] else asks[n].(channel := Full(steps, body))];
          consumed := true;
      }
      steps := steps + 1;
    }

    method Clear(target: string)
      requires View().Valid()
      modifies this`inner, this`asks
      ensures View() == old(View()).Dropped(target)
    {
      var sender := Remove(target);
      if sender.Some? {
        asks := asks[sender.value := asks[sender.value].(channel := Closed)];
      }
    }

    /** The start of `ask`: the new sender replaces a stale one, which is dropped. */
    method Register(target: string) returns (n: nat)
      requires View().Valid()
      modifies this
      ensures View() == old(View()).Apply(old(steps), Step.Register(target)) && steps == old(steps) + 1
      ensures n == |old(asks)| && IsPending(target)
    {
      Clear(target);
      n := |asks|;
      asks := asks + [Ask(target, Sending, Empty)];
      inner := inner[target := n];
      steps := steps + 1;
    }

    /** The question was sent, or it was not and the entry must be cleared. */
    method Sent(n: nat, ok: bool)
      requires View().Valid() && View().In(n, Sending)
      modifies this
      ensures View() == old(View()).Apply(old(steps), Step.Sent(n, ok)) && steps == old(steps) + 1
    {
      asks := asks[n := asks[n].(phase := if ok then Waiting else SendFailed)];
      steps := steps + 1;
    }

    /** The wait of `ask`, woken by its channel or by the timeout. A value that is there
        when the time is up still counts. */
    method Await(n: nat, timeUp: bool)
      requires View().Valid() && View().In(n, Waiting)
      modifies this
      ensures var step := if timeUp && old(asks[n].channel).Empty? then Elapse(n) else Wake(n);
              View() == old(View()).Apply(old(steps), step)
      ensures steps == old(steps) + 1
    {
      match asks[n].channel {
        case Full(_, body) =>
          asks := asks[n := asks[n].(phase := Answered(body))];
        case Closed =>
          asks := asks[n := asks[n].(phase := Denied)];
        case Empty =>
          if timeUp {
            asks := asks[n := asks[n].(phase := Expired)];
          }
      }
      steps := steps + 1;
    }

    /** The end of `ask` after a failed send or a timeout. */
    method ClearAfter(n: nat)
      requires View().Valid() && (View().In(n, SendFailed) || View().In(n, Expired))
      modifies this
      ensures View() == old(View()).Apply(old(steps), Step.ClearAfter(n)) && steps == old(steps) + 1
    {
      Clear(asks[n].target);
      asks := asks[n := asks[n].(phase := Denied)];
      steps := steps + 1;
    }
  }

  // -------------------------------------------------------------------------
  // Runs
  // -------------------------------------------------------------------------

  /** Ask `n` holds the entry of its user. */
  predicate Holds(s: State, n: nat) {
    n < |s.asks| && s.asks[n].target in s.entries && s.entries[s.asks[n].target] == n
  }

  /** Whoever holds an entry is still running and its channel is empty; whoever waits with
      an empty channel holds its entry; an answer is what was sent into the channel. */
  ghost predicate Inv(s: State) {
    && (forall t :: t in s.entries ==> s.entries[t] < |s.asks| && s.asks[s.entries[t]].target == t
                                       && s.asks[s.entries[t]].channel.Empty? && !s.asks[s.entries[t]].Returned())
    && (forall n: nat :: n < |s.asks| ==>
          && (s.asks[n].channel.Empty? && !s.asks[n].Returned() && !s.asks[n].phase.Expired? ==> Holds(s, n))
          && (s.asks[n].phase.Answered? ==>
                s.asks[n].channel.Full? && s.asks[n].phase == Answered(s.asks[n].channel.body)))
  }

  function Run(trace: seq<Step>): (s: State)
    ensures s.Valid()
  {
    if trace == [] then START
    else
      var n := |trace| - 1;
      Run(trace[..n]).Apply(n, trace[n])
  }

  lemma DropKeepsInv(s: State, target: string)
    requires Inv(s) && s.Valid()
    ensures Inv(s.Dropped(target))
    ensures target !in s.Dropped(target).entries
  {
  }

  lemma RegisterKeepsInv(s: State, target: string)
    requires Inv(s) && s.Valid()
    ensures Inv(s.Registered(target))
  {
    hide State.Dropped;
    DropKeepsInv(s, target);
    var d, r := s.Dropped(target), s.Registered(target);
    assert forall n: nat :: n < |d.asks| ==> r.asks[n] == d.asks[n];
  }

  lemma ResolveKeepsInv(s: State, at: nat, target: string, body: string)
    requires Inv(s) && s.Valid()
    ensures Inv(s.Resolved(at, target, body))
  {
    if target in s.entries {
      var n, r := s.entries[target], s.Resolved(at, target, body);
      assert forall k: nat :: k < |s.asks| && k != n ==> r.asks[k] == s.asks[k];
      assert forall t :: t in r.entries ==> t in s.entries && t != target && r.entries[t] == s.entries[t] != n;
    }
  }

  /** An ask moves on without touching the map. */
  lemma MoveKeepsInv(s: State, n: nat, phase: Phase)
    requires Inv(s) && s.Valid() && n < |s.asks|
    requires phase.Answered? || phase.Denied? ==> !Holds(s, n)
    requires phase.Answered? ==> s.asks[n].channel.Full? && phase == Answered(s.asks[n].channel.body)
    requires s.asks[n].Returned() ==> phase.Answered? || phase.Denied?
    requires s.asks[n].phase.Expired? ==> phase.Expired? || phase.Denied?
    ensures Inv(s.WithAsk(n, s.asks[n].(phase := phase)))
  {
    var r := s.WithAsk(n, s.asks[n].(phase := phase));
    assert forall k: nat :: k < |s.asks| && k != n ==> r.asks[k] == s.asks[k];
    forall t | t in r.entries
      ensures r.entries[t] < |r.asks| && r.asks[r.entries[t]].target == t
              && r.asks[r.entries[t]].channel.Empty? && !r.asks[r.entries[t]].Returned()
    {
      assert t in s.entries && s.entries[t] < |s.asks|;
    }
  }

  lemma StepKeepsInv(s: State, at: nat, step: Step)
    requires Inv(s) && s.Valid()
    ensures Inv(s.Apply(at, step))
  {
    hide State.Dropped, State.Registered, State.Resolved, Inv;
    match step
    case Register(target) => RegisterKeepsInv(s, target);
    case Message(target, body) => ResolveKeepsInv(s, at, target, body);
    case Clear(target) => DropKeepsInv(s, target);
    case Sent(n, ok) =>
      if s.In(n, Sending) {
        MoveKeepsInv(s, n, if ok then Waiting else SendFailed);
      }
    case Wake(n) =>
      if s.In(n, Waiting) && !s.asks[n].channel.Empty? {
        HolderIsEmpty(s, n);
        MoveKeepsInv(s, n, if s.asks[n].channel.Full? then Answered(s.asks[n].channel.body) else Denied);
      }
    case Elapse(n) =>
      if s.In(n, Waiting) && s.asks[n].channel.Empty? {
        MoveKeepsInv(s, n, Expired);
      }
    case ClearAfter(n) =>
      if s.In(n, SendFailed) || s.In(n, Expired) {
        DropKeepsInv(s, s.asks[n].target);
        DropFrame(s, s.asks[n].target);
        MoveKeepsInv(s.Dropped(s.asks[n].target), n, Denied);
      }
  }

  lemma HolderIsEmpty(s: State, n: nat)
    requires Inv(s)
    ensures Holds(s, n) ==> s.asks[n].channel.Empty? && !s.asks[n].Returned()
  {
  }

  /** Dropping an entry changes nothing but that entry and the channel of its holder. */
  lemma DropFrame(s: State, target: string)
    requires s.Valid()
    ensures var d := s.Dropped(target);
            && target !in d.entries && (forall t :: t in d.entries ==> t in s.entries && d.entries[t] == s.entries[t])
            && forall n: nat :: n < |s.asks| ==>
                 && d.asks[n].target == s.asks[n].target && d.asks[n].phase == s.asks[n].phase
                 && (d.asks[n].channel == s.asks[n].channel || d.asks[n].channel.Closed?)
  {
  }

  lemma {:induction false} RunInv(trace: seq<Step>)
    ensures Inv(Run(trace))
  {
    if trace != [] {
      var n := |trace| - 1;
      RunInv(trace[..n]);
      StepKeepsInv(Run(trace[..n]), n, trace[n]);
    }
  }

  lemma RunStep(trace: seq<Step>, i: nat)
    requires i < |trace|
    ensures Run(trace[..i + 1]) == Run(trace[..i]).Apply(i, trace[i])
  {
    assert trace[..i + 1][..i] == trace[..i];
  }

  /** Step `i` put its message into the channel of ask `n`, whose own entry it took. */
  ghost predicate Answers(trace: seq<Step>, i: nat, n: nat) {
    && i < |trace| && trace[i].Message? && Holds(Run(trace[..i]), n)
    && trace[i].target == Run(trace[..i]).asks[n].target && !Run(trace[..i]).asks[n].phase.Expired?
  }

  /** Step `i` took the entry of ask `n` without a message: a newer ask overwrote it, or
      a clear for the same user, by this ask or another one, removed it. */
  ghost predicate Drops(trace: seq<Step>, i: nat, n: nat) {
    i < |trace| && !trace[i].Message? && Holds(Run(trace[..i]), n) && !Holds(Run(trace[..i + 1]), n)
  }

  // -------------------------------------------------------------------------
  // Where a channel's content comes from
  // -------------------------------------------------------------------------

  /** One step changes the channel of one ask at most: that of the holder of the entry. */
  lemma StepChannel(s: State, at: nat, step: Step, n: nat)
    requires Inv(s) && s.Valid() && n < |s.asks|
    ensures var r := s.Apply(at, step);
            && |s.asks| <= |r.asks| && r.asks[n].target == s.asks[n].target
            && (Holds(r, n) ==> Holds(s, n))
            && (if !Holds(s, n) || Holds(r, n) then r.asks[n].channel == s.asks[n].channel
                else if !step.Message? then r.asks[n].channel.Closed?
                else step.target == s.asks[n].target
                     && r.asks[n].channel == if s.asks[n].phase.Expired? then s.asks[n].channel
                                             else Full(at, step.body))
            && (step.Message? && Holds(s, n) && step.target == s.asks[n].target ==> !Holds(r, n))
  {
    hide State.Dropped, State.Resolved, Inv;
    match step
    case Register(target) => DropChannel(s, target, n);
    case Clear(target) => DropChannel(s, target, n);
    case ClearAfter(k) =>
      if s.In(k, SendFailed) || s.In(k, Expired) {
        DropChannel(s, s.asks[k].target, n);
        DropFrame(s, s.asks[k].target);
      }
    case Message(target, body) => ResolveChannel(s, at, target, body, n);
    case Sent(_, _) =>
    case Wake(_) =>
    case Elapse(_) =>
  }

  lemma DropChannel(s: State, target: string, n: nat)
    requires Inv(s) && s.Valid() && n < |s.asks|
    ensures var d := s.Dropped(target);
            && d.asks[n].target == s.asks[n].target && target !in d.entries
            && (Holds(d, n) <==> Holds(s, n) && s.asks[n].target != target)
            && d.asks[n].channel == if Holds(s, n) && s.asks[n].target == target then Closed else s.asks[n].channel
  {
  }

  lemma ResolveChannel(s: State, at: nat, target: string, body: string, n: nat)
    requires Inv(s) && s.Valid() && n < |s.asks|
    ensures var r := s.Resolved(at, target, body);
            && |r.asks| == |s.asks| && r.asks[n].target == s.asks[n].target
            && (Holds(r, n) <==> Holds(s, n) && s.asks[n].target != target)
            && r.asks[n].channel == if Holds(s, n) && s.asks[n].target == target && !s.asks[n].phase.Expired?
                                    then Full(at, body) else s.asks[n].channel
  {
  }

  lemma {:induction false} AsksGrow(trace: seq<Step>, i: nat)
    requires i <= |trace|
    ensures |Run(trace[..i]).asks| <= |Run(trace).asks|
  {
    hide State.Apply;
    if i < |trace| {
      var m := |trace| - 1;
      assert trace[..m][..i] == trace[..i];
      AsksGrow(trace[..m], i);
      StepGrows(Run(trace[..m]), m, trace[m]);
    } else {
      assert trace[..i] == trace;
    }
  }

  lemma StepGrows(s: State, at: nat, step: Step)
    requires s.Valid()
    ensures |s.asks| <= |s.Apply(at, step).asks|
  {
  }

  /** What is in the channel of an ask says what happened to its entry: a message took
      it, or it was dropped, or neither. */
  ghost predicate Explained(trace: seq<Step>, n: nat)
    requires n < |Run(trace).asks|
  {
    var channel := Run(trace).asks[n].channel;
    && (channel.Full? ==> Answers(trace, channel.at, n) && trace[channel.at].body == channel.body)
    && (channel.Closed? ==> exists i: nat :: Drops(trace, i, n))
    && (forall i: nat :: Answers(trace, i, n) ==> channel == Full(i, trace[i].body))
    && (forall i: nat :: Drops(trace, i, n) ==> channel.Closed?)
  }

  lemma EarlierSame(trace: seq<Step>, m: nat, i: nat, n: nat)
    requires i < m <= |trace|
    ensures Answers(trace[..m], i, n) <==> Answers(trace, i, n)
    ensures Drops(trace[..m], i, n) <==> Drops(trace, i, n)
  {
    assert trace[..m][..i] == trace[..i] && trace[..m][..i + 1] == trace[..i + 1];
  }

  lemma {:induction false} ChannelsAreExplained(trace: seq<Step>, n: nat)
    requires n < |Run(trace).asks|
    ensures Explained(trace, n)
  {
    hide State.Apply, Inv, Run;
    if trace == [] {
      NoAsks();
    } else {
      var m := |trace| - 1;
      var s := Run(trace[..m]);
      RunInv(trace[..m]);
      RunStep(trace, m);
      assert trace[..m + 1] == trace;
      if n == |s.asks| {
        NewAsk(s, m, trace[m]);
        forall i: nat | i < |trace|
          ensures !Answers(trace, i, n) && !Drops(trace, i, n)
        {
          AsksGrow(trace[..m], i);
          assert trace[..m][..i] == trace[..i];
        }
      } else {
        LastGrows(s, m, trace[m], n);
        ChannelsAreExplained(trace[..m], n);
        StepChannel(s, m, trace[m], n);
        HolderIsEmpty(s, n);
        forall i: nat | i < m
          ensures Answers(trace[..m], i, n) <==> Answers(trace, i, n)
          ensures Drops(trace[..m], i, n) <==> Drops(trace, i, n)
        {
          EarlierSame(trace, m, i, n);
        }
        LastStepExplained(trace, n);
      }
    }
  }

  lemma NoAsks()
    ensures Run([]).asks == []
  {
  }

  lemma NewAsk(s: State, at: nat, step: Step)
    requires s.Valid() && |s.asks| < |s.Apply(at, step).asks|
    ensures s.Apply(at, step).asks[|s.asks|].channel.Empty?
  {
  }

  lemma LastGrows(s: State, at: nat, step: Step, n: nat)
    requires s.Valid() && n < |s.Apply(at, step).asks| && n != |s.asks|
    ensures n < |s.asks|
  {
  }

  lemma LastStepExplained(trace: seq<Step>, n: nat)
    requires trace != []
    requires var m := |trace| - 1; n < |Run(trace[..m]).asks| && n < |Run(trace).asks| && Explained(trace[..m], n)
    requires var m := |trace| - 1;
             && (forall i: nat :: i < m ==> (Answers(trace[..m], i, n) <==> Answers(trace, i, n)))
             && (forall i: nat :: i < m ==> (Drops(trace[..m], i, n) <==> Drops(trace, i, n)))
    requires var m, s, r := |trace| - 1, Run(trace[..|trace| - 1]), Run(trace);
             && (Holds(s, n) ==> s.asks[n].channel.Empty?)
             && (if !Holds(s, n) || Holds(r, n) then r.asks[n].channel == s.asks[n].channel
                 else if !trace[m].Message? then r.asks[n].channel.Closed?
                 else trace[m].target == s.asks[n].target
                      && r.asks[n].channel == if s.asks[n].phase.Expired? then s.asks[n].channel
                                              else Full(m, trace[m].body))
             && (trace[m].Message? && Holds(s, n) && trace[m].target == s.asks[n].target ==> !Holds(r, n))
    ensures Explained(trace, n)
  {
    hide Run, Holds;
    var m := |trace| - 1;
    assert trace[..m + 1] == trace;
    var channel := Run(trace).asks[n].channel;
    forall i: nat | Answers(trace, i, n)
      ensures channel == Full(i, trace[i].body)
    {
      if i < m {
        assert Answers(trace[..m], i, n);
      }
    }
    forall i: nat | Drops(trace, i, n)
      ensures channel.Closed?
    {
      if i < m {
        assert Drops(trace[..m], i, n);
      }
    }
    if channel.Full? {
      if Holds(Run(trace[..m]), n) && !Holds(Run(trace), n) {
        assert Answers(trace, m, n);
      } else {
        assert Answers(trace[..m], channel.at, n);
      }
    }
    if channel.Closed? {
      if Holds(Run(trace[..m]), n) && !Holds(Run(trace), n) {
        assert Drops(trace, m, n);
      } else {
        var i: nat :| Drops(trace[..m], i, n);
        assert Drops(trace, i, n);
      }
    }
  }

  // -------------------------------------------------------------------------
  // Answers are never misrouted
  // -------------------------------------------------------------------------

  /** Over every interleaving, an ask returns an answer only if one message to its own
      user consumed its own registration, and that message's text is the answer. */
  lemma AnswersAreOwn(trace: seq<Step>, n: nat)
    requires n < |Run(trace).asks| && Run(trace).asks[n].phase.Answered?
    ensures exists i: nat :: Answers(trace, i, n) && Run(trace).asks[n].phase == Answered(trace[i].body)
    ensures forall i: nat, j: nat :: Answers(trace, i, n) && Answers(trace, j, n) ==> i == j
  {
    hide Run, Answers, Drops;
    RunInv(trace);
    ChannelsAreExplained(trace, n);
    assert Answers(trace, Run(trace).asks[n].channel.at, n);
  }

  /** No message answers two asks. */
  lemma NoMessageAnswersTwo(trace: seq<Step>, i: nat, a: nat, b: nat)
    requires Answers(trace, i, a) && Answers(trace, i, b)
    ensures a == b
  {
  }

  /** An ask whose entry is dropped, by a newer ask or by a clear, never gets an answer. */
  lemma DroppedIsNeverAnswered(trace: seq<Step>, i: nat, n: nat)
    requires n < |Run(trace).asks| && Drops(trace, i, n)
    ensures !Run(trace).asks[n].phase.Answered?
  {
    hide Run, Answers, Drops;
    RunInv(trace);
    ChannelsAreExplained(trace, n);
  }

  /** A newer ask for the same user always drops the older one. */
  lemma OverwritingDrops(trace: seq<Step>, i: nat, n: nat)
    requires i < |trace| && Holds(Run(trace[..i]), n) && trace[i] == Register(Run(trace[..i]).asks[n].target)
    ensures Drops(trace, i, n)
  {
    hide State.Dropped, Run, Inv;
    RunStep(trace, i);
    RunInv(trace[..i]);
    DropChannel(Run(trace[..i]), trace[i].target, n);
  }

  /** So it is denied, whatever it does next. */
  lemma OverwrittenIsDenied(trace: seq<Step>, i: nat, n: nat)
    requires i < |trace| && Holds(Run(trace[..i]), n) && trace[i] == Register(Run(trace[..i]).asks[n].target)
    ensures n < |Run(trace).asks| && !Run(trace).asks[n].phase.Answered?
  {
    hide Run, Drops;
    OverwritingDrops(trace, i, n);
    AsksGrow(trace, i);
    DroppedIsNeverAnswered(trace, i, n);
  }

  /** An ask that has returned, timed out or not, has no entry: a later message to its
      user is not taken for its answer. */
  lemma ReturnedHoldsNothing(trace: seq<Step>, n: nat)
    requires n < |Run(trace).asks| && (Run(trace).asks[n].phase.Answered? || Run(trace).asks[n].phase.Denied?)
    ensures !Holds(Run(trace), n) && forall t :: t in Run(trace).entries ==> Run(trace).entries[t] != n
  {
    hide Run;
    RunInv(trace);
  }

  /** Waiting with an empty channel, the next message to the user is the answer. */
  lemma NextMessageAnswers(trace: seq<Step>, n: nat, body: string)
    requires n < |Run(trace).asks| && Run(trace).asks[n].phase.Waiting? && Run(trace).asks[n].channel.Empty?
    ensures var longer := trace + [Message(Run(trace).asks[n].target, body), Wake(n)];
            Run(longer).In(n, Answered(body))
  {
    hide State.Resolved, Run, Inv, State.Apply;
    var s, message := Run(trace), Message(Run(trace).asks[n].target, body);
    RunInv(trace);
    WaitingHolds(s, n);
    var longer := trace + [message, Wake(n)];
    var m := |trace|;
    assert longer[..m] == trace && longer[..m + 2] == longer;
    RunStep(longer, m);
    RunStep(longer, m + 1);
    var r := Run(longer[..m + 1]);
    ResolveChannel(s, m, message.target, body, n);
    ResolvePhase(s, m, message.target, body, n);
    StepGrows(r, m + 1, Wake(n));
    WakesAnswered(r, m + 1, n, body);
  }

  lemma WaitingHolds(s: State, n: nat)
    requires Inv(s) && s.In(n, Waiting) && s.asks[n].channel.Empty?
    ensures Holds(s, n)
  {
  }

  lemma ResolvePhase(s: State, at: nat, target: string, body: string, n: nat)
    requires s.Valid() && n < |s.asks|
    ensures s.Apply(at, Message(target, body)) == s.Resolved(at, target, body)
    ensures var r := s.Resolved(at, target, body); |r.asks| == |s.asks| && r.asks[n].phase == s.asks[n].phase
  {
  }

  lemma WakesAnswered(s: State, at: nat, n: nat, body: string)
    requires s.Valid() && s.In(n, Waiting) && s.asks[n].channel.Full? && s.asks[n].channel.body == body
    ensures s.Apply(at, Wake(n)).asks[n].phase == Answered(body)
  {
  }

  // -------------------------------------------------------------------------
  // What overlapping asks can do to each other
  // -------------------------------------------------------------------------

  /** No ask starts while another one for the same user is under way, and nobody else
      clears entries: the run lock that callers are told to hold. */
  ghost predicate Serial(trace: seq<Step>) {
    forall i: nat :: i < |trace| ==>
      match trace[i]
      case Register(target) =>
        forall n: nat :: n < |Run(trace[..i]).asks| && Run(trace[..i]).asks[n].target == target ==>
          Run(trace[..i]).asks[n].Returned()
      case Clear(_) => false
      case _ => true
  }

  /** At most one ask per user is under way, and its channel was not closed under it. */
  ghost predicate Alone(s: State) {
    && (forall a: nat, b: nat :: a < b < |s.asks| && s.asks[a].target == s.asks[b].target ==>
          s.asks[a].Returned() || s.asks[b].Returned())
    && (forall n: nat :: n < |s.asks| && !s.asks[n].Returned() ==> !s.asks[n].channel.Closed?)
  }

  /** Under that lock a question that was sent is denied only when its own time is up: no
      other ask can take its entry away. */
  lemma {:induction false} SerialAsksKeepTheirEntries(trace: seq<Step>)
    requires Serial(trace)
    ensures Alone(Run(trace))
    ensures forall n: nat :: n < |Run(trace).asks| && Run(trace).asks[n].phase.Waiting? ==>
              Holds(Run(trace), n) || Run(trace).asks[n].channel.Full?
  {
    hide State.Apply, Run, Inv;
    if trace == [] {
      NoAsks();
    } else {
      var m := |trace| - 1;
      forall i: nat | i < m
        ensures trace[..m][i] == trace[i] && trace[..m][..i] == trace[..i]
      {
      }
      SerialAsksKeepTheirEntries(trace[..m]);
      RunInv(trace[..m]);
      RunStep(trace, m);
      assert trace[..m + 1] == trace;
      StepKeepsAlone(Run(trace[..m]), m, trace[m]);
    }
    RunInv(trace);
    forall n: nat | n < |Run(trace).asks| && Run(trace).asks[n].phase.Waiting?
      ensures Holds(Run(trace), n) || Run(trace).asks[n].channel.Full?
    {
      if Run(trace).asks[n].channel.Empty? {
        WaitingHolds(Run(trace), n);
      }
    }
  }

  lemma StepKeepsAlone(s: State, at: nat, step: Step)
    requires Inv(s) && s.Valid() && Alone(s) && !step.Clear?
    requires step.Register? ==>
               forall n: nat :: n < |s.asks| && s.asks[n].target == step.target ==> s.asks[n].Returned()
    ensures Alone(s.Apply(at, step))
  {
    hide State.Dropped, Inv;
    match step
    case Register(target) =>
      DropsNobody(s, target);
    case ClearAfter(n) =>
      if s.In(n, SendFailed) || s.In(n, Expired) {
        DropsItself(s, n);
      }
    case _ =>
  }

  /** When every ask of the user has returned, there is no entry to drop. */
  lemma DropsNobody(s: State, target: string)
    requires Inv(s) && s.Valid()
    requires forall n: nat :: n < |s.asks| && s.asks[n].target == target ==> s.asks[n].Returned()
    ensures s.Dropped(target) == s
  {
  }

  /** When only one ask of the user is under way, its clear drops no other's entry. */
  lemma DropsItself(s: State, n: nat)
    requires Inv(s) && s.Valid() && Alone(s) && n < |s.asks| && !s.asks[n].Returned()
    ensures var d := s.Dropped(s.asks[n].target);
            && |d.asks| == |s.asks| && d.asks[n].(channel := s.asks[n].channel) == s.asks[n]
            && forall k: nat :: k < |s.asks| && k != n ==> d.asks[k] == s.asks[k]
  {
    if s.asks[n].target in s.entries {
      var k := s.entries[s.asks[n].target];
      assert s.asks[k].target == s.asks[n].target && !s.asks[k].Returned();
    }
  }

  /** Without it, an older ask that could not send its question clears the entry of a
      newer one for the same user: the answer is not consumed and the newer ask is denied. */
  lemma OlderAskClearsNewer(user: string, body: string)
    ensures var trace := [Register(user), Register(user), Sent(1, true), Sent(0, false), ClearAfter(0),
                          Message(user, body), Wake(1)];
            && Run(trace[..4]).entries == map[user := 1]
            && user !in Run(trace[..5]).entries
            && Run(trace).In(1, Denied)
  {
    hide Run, State.Apply;
    var trace := [Register(user), Register(user), Sent(1, true), Sent(0, false), ClearAfter(0),
                  Message(user, body), Wake(1)];
    NothingYet(trace);
    FirstHalf(user);
    SecondHalf(user, body);
    Advance(trace, 0, START, Overlap(user, 0));
    Advance(trace, 1, Overlap(user, 0), Overlap(user, 1));
    Advance(trace, 2, Overlap(user, 1), Overlap(user, 2));
    Advance(trace, 3, Overlap(user, 2), Overlap(user, 3));
    Advance(trace, 4, Overlap(user, 3), Overlap(user, 4));
    Advance(trace, 5, Overlap(user, 4), Overlap(user, 4));
    Advance(trace, 6, Overlap(user, 4), Overlap(user, 5));
    assert trace[..7] == trace;
    assert Run(trace[..4]).entries == map[user := 1] && user !in Run(trace[..5]).entries;
    assert Run(trace).In(1, Denied);
  }

  lemma Advance(trace: seq<Step>, i: nat, s: State, r: State)
    requires i < |trace| && s.Valid() && Run(trace[..i]) == s && s.Apply(i, trace[i]) == r
    ensures Run(trace[..i + 1]) == r
  {
    RunStep(trace, i);
  }

  /** The states after one ask, after two, after the newer one sent its question, after
      the older one failed to, after its clear, and after the newer one woke up. */
  function Overlap(user: string, k: nat): (s: State)
    ensures s.Valid()
  {
    var first, second := Ask(user, Sending, Empty), Ask(user, Sending, Empty);
    match k
    case 0 => State(map[user := 0], [first])
    case 1 => State(map[user := 1], [first.(channel := Closed), second])
    case 2 => State(map[user := 1], [first.(channel := Closed), second.(phase := Waiting)])
    case 3 => State(map[user := 1], [first.(channel := Closed, phase := SendFailed), second.(phase := Waiting)])
    case 4 => State(map[], [first.(channel := Closed, phase := Denied), second.(phase := Waiting, channel := Closed)])
    case _ => State(map[], [first.(channel := Closed, phase := Denied), second.(phase := Denied, channel := Closed)])
  }

  lemma FirstHalf(user: string)
    ensures START.Apply(0, Register(user)) == Overlap(user, 0)
    ensures Overlap(user, 0).Apply(1, Register(user)) == Overlap(user, 1)
    ensures Overlap(user, 1).Apply(2, Sent(1, true)) == Overlap(user, 2)
  {
  }

  lemma SecondHalf(user: string, body: string)
    ensures Overlap(user, 2).Apply(3, Sent(0, false)) == Overlap(user, 3)
    ensures Overlap(user, 3).Apply(4, ClearAfter(0)) == Overlap(user, 4)
    ensures Overlap(user, 4).Apply(5, Message(user, body)) == Overlap(user, 4)
    ensures Overlap(user, 4).Apply(6, Wake(1)) == Overlap(user, 5)
  {
  }

  lemma NothingYet(trace: seq<Step>)
    ensures Run(trace[..0]) == START
  {
  }

  // -------------------------------------------------------------------------
  // Why an ask was denied, and what became of a reply
  // -------------------------------------------------------------------------

  /** At some step of the trace the question of ask `n` was sent; or sending it failed. */
  ghost predicate WasSent(trace: seq<Step>, n: nat, ok: bool) {
    trace != [] &&
    var before := trace[..|trace| - 1];
    || (trace[|trace| - 1] == Sent(n, ok) && Run(before).In(n, Sending))
    || WasSent(before, n, ok)
  }

  /** At some step its own time was up. */
  ghost predicate TimedOut(trace: seq<Step>, n: nat) {
    trace != [] &&
    var before := trace[..|trace| - 1];
    || (trace[|trace| - 1] == Elapse(n) && Run(before).In(n, Waiting) && Run(before).asks[n].channel.Empty?)
    || TimedOut(before, n)
  }

  /** One step takes the entry of ask `n` without a message, while it is neither about to
      clear it itself nor returned: somebody else's step. */
  predicate Robs(s: State, step: Step, r: State, n: nat) {
    && n < |s.asks| && (s.asks[n].phase.Sending? || s.asks[n].phase.Waiting?)
    && !step.Message? && Holds(s, n) && !Holds(r, n)
  }

  /** That step is a newer ask, a clear, or the end of another ask, for the same user. */
  lemma RobberIsAnother(s: State, at: nat, step: Step, n: nat)
    requires Inv(s) && s.Valid() && Robs(s, step, s.Apply(at, step), n)
    ensures match step
            case Register(target) => target == s.asks[n].target
            case Clear(target) => target == s.asks[n].target
            case ClearAfter(k) => k != n && k < |s.asks| && s.asks[k].target == s.asks[n].target
            case _ => false
  {
    hide State.Dropped, Inv;
    match step
    case Register(target) => DropChannel(s, target, n);
    case Clear(target) => DropChannel(s, target, n);
    case ClearAfter(k) =>
      if s.In(k, SendFailed) || s.In(k, Expired) {
        DropChannel(s, s.asks[k].target, n);
      }
    case _ =>
  }

  ghost predicate Robbed(trace: seq<Step>, n: nat) {
    trace != [] &&
    var before := trace[..|trace| - 1];
    Robs(Run(before), trace[|trace| - 1], Run(trace), n) || Robbed(before, n)
  }

  /** What has happened to an ask by the time it is in its phase. */
  ghost predicate Told(a: Ask, sent: bool, failed: bool, late: bool, robbed: bool) {
    && (robbed ==> a.channel.Closed? && !late)
    && (late ==> !a.channel.Full?)
    && match a.phase
       case Sending => !sent && !failed && !late && (a.channel.Closed? ==> robbed)
       case Waiting => sent && !failed && !late && (a.channel.Closed? ==> robbed)
       case SendFailed => !sent && failed && !late
       case Expired => sent && !failed && late && !robbed
       case Answered(_) => sent && !failed && !late && a.channel.Full?
       case Denied => (sent && !failed && (late || robbed)) || (!sent && failed && !late)
  }

  /** Who moves an ask from phase to phase. */
  lemma StepPhase(s: State, at: nat, step: Step, n: nat)
    requires Inv(s) && s.Valid() && n < |s.asks|
    ensures var r := s.Apply(at, step);
            n < |r.asks| && r.asks[n].phase ==
              match step
              case Sent(k, ok) =>
                if k == n && s.In(n, Sending) then (if ok then Waiting else SendFailed) else s.asks[n].phase
              case Wake(k) =>
                if k != n || !s.In(n, Waiting) || s.asks[n].channel.Empty? then s.asks[n].phase
                else if s.asks[n].channel.Full? then Answered(s.asks[n].channel.body) else Denied
              case Elapse(k) =>
                if k == n && s.In(n, Waiting) && s.asks[n].channel.Empty? then Expired else s.asks[n].phase
              case ClearAfter(k) =>
                if k == n && (s.In(n, SendFailed) || s.In(n, Expired)) then Denied else s.asks[n].phase
              case _ => s.asks[n].phase
  {
    hide State.Dropped, State.Resolved, Inv;
    match step
    case Register(target) => DropFrame(s, target);
    case Clear(target) => DropFrame(s, target);
    case ClearAfter(k) =>
      if s.In(k, SendFailed) || s.In(k, Expired) {
        DropFrame(s, s.asks[k].target);
      }
    case Message(target, body) => ResolvePhase(s, at, target, body, n);
    case _ =>
  }

  ghost predicate TraceTold(trace: seq<Step>, n: nat)
    requires n < |Run(trace).asks|
  {
    Told(Run(trace).asks[n], WasSent(trace, n, true), WasSent(trace, n, false), TimedOut(trace, n), Robbed(trace, n))
  }

  lemma {:induction false} NothingBefore(trace: seq<Step>, n: nat)
    requires |Run(trace).asks| <= n
    ensures !WasSent(trace, n, true) && !WasSent(trace, n, false) && !TimedOut(trace, n) && !Robbed(trace, n)
  {
    hide Run;
    if trace != [] {
      var m := |trace| - 1;
      AsksGrow(trace, m);
      NothingBefore(trace[..m], n);
    }
  }

  lemma NewAskPhase(s: State, at: nat, step: Step)
    requires s.Valid() && |s.asks| < |s.Apply(at, step).asks|
    ensures s.Apply(at, step).asks[|s.asks|].phase.Sending? && step.Register?
  {
  }

  lemma {:induction false} PhasesAreTold(trace: seq<Step>, n: nat)
    requires n < |Run(trace).asks|
    ensures TraceTold(trace, n)
  {
    hide State.Apply, Inv, Run, Told;
    if trace == [] {
      NoAsks();
    } else {
      var m := |trace| - 1;
      var s, step := Run(trace[..m]), trace[m];
      RunInv(trace[..m]);
      RunStep(trace, m);
      assert trace[..m + 1] == trace;
      if n == |s.asks| {
        NewAsk(s, m, step);
        NewAskPhase(s, m, step);
        NothingBefore(trace[..m], n);
        FirstTold(Run(trace).asks[n]);
      } else {
        LastGrows(s, m, step, n);
        PhasesAreTold(trace[..m], n);
        StepTold(s, m, step, n, WasSent(trace[..m], n, true), WasSent(trace[..m], n, false), TimedOut(trace[..m], n),
                 Robbed(trace[..m], n));
      }
    }
  }

  lemma FirstTold(a: Ask)
    requires a.phase.Sending? && a.channel.Empty?
    ensures Told(a, false, false, false, false)
  {
  }

  lemma StepTold(s: State, at: nat, step: Step, n: nat, sent: bool, failed: bool, late: bool, robbed: bool)
    requires Inv(s) && s.Valid() && n < |s.asks| && Told(s.asks[n], sent, failed, late, robbed)
    ensures var r := s.Apply(at, step);
            n < |r.asks| && Told(r.asks[n],
                                 (step == Sent(n, true) && s.In(n, Sending)) || sent,
                                 (step == Sent(n, false) && s.In(n, Sending)) || failed,
                                 (step == Elapse(n) && s.In(n, Waiting) && s.asks[n].channel.Empty?) || late,
                                 Robs(s, step, r, n) || robbed)
  {
    hide State.Apply, Inv;
    StepPhase(s, at, step, n);
    StepChannel(s, at, step, n);
    HolderIsEmpty(s, n);
    if step.Sent? || step.Wake? || step.Elapse? {
      QuietSteps(s, at, step, n);
    }
  }

  /** Sending, waking and timing out leave the map alone. */
  lemma QuietSteps(s: State, at: nat, step: Step, n: nat)
    requires s.Valid() && (step.Sent? || step.Wake? || step.Elapse?)
    ensures Holds(s.Apply(at, step), n) <==> Holds(s, n)
  {
  }

  /** An ask whose question was sent and that has returned was denied without its own time
      being up exactly when somebody else's step took its entry. */
  lemma DeniedInTimeIff(trace: seq<Step>, n: nat)
    requires n < |Run(trace).asks| && Run(trace).asks[n].Returned() && WasSent(trace, n, true)
    ensures Run(trace).In(n, Denied) && !TimedOut(trace, n) <==> Robbed(trace, n)
  {
    hide Run, WasSent, TimedOut, Robbed;
    PhasesAreTold(trace, n);
  }

  /** Step `i` is a message that consumes the entry of ask `n`. */
  ghost predicate Consumes(trace: seq<Step>, i: nat, n: nat) {
    && i < |trace| && trace[i].Message? && Holds(Run(trace[..i]), n)
    && trace[i].target == Run(trace[..i]).asks[n].target
  }

  lemma {:induction false} EarlierTimeOut(trace: seq<Step>, i: nat, n: nat)
    requires i <= |trace| && TimedOut(trace[..i], n)
    ensures TimedOut(trace, n)
  {
    hide Run;
    if i < |trace| {
      var m := |trace| - 1;
      assert trace[..m][..i] == trace[..i];
      EarlierTimeOut(trace[..m], i, n);
    } else {
      assert trace[..i] == trace;
    }
  }

  /** A consumed message becomes the answer of the ask, once that has returned, exactly
      when the ask neither timed out nor failed to send its question. */
  lemma ConsumedIsAnswerIff(trace: seq<Step>, i: nat, n: nat)
    requires Consumes(trace, i, n) && n < |Run(trace).asks| && Run(trace).asks[n].Returned()
    ensures Run(trace).In(n, Answered(trace[i].body)) <==> !TimedOut(trace, n) && !WasSent(trace, n, false)
  {
    hide Run, WasSent, TimedOut, Robbed, Drops;
    PhasesAreTold(trace, n);
    RunInv(trace);
    ChannelsAreExplained(trace, n);
    if !TimedOut(trace, n) {
      PhasesAreTold(trace[..i], n);
      if Run(trace[..i]).asks[n].phase.Expired? {
        EarlierTimeOut(trace, i, n);
      }
      assert Answers(trace, i, n);
    }
  }

  lemma {:induction false} SerialIsNeverRobbed(trace: seq<Step>, n: nat)
    requires Serial(trace)
    ensures !Robbed(trace, n)
  {
    hide State.Apply, Run, Inv;
    if trace != [] {
      var m := |trace| - 1;
      forall i: nat | i < m
        ensures trace[..m][i] == trace[i] && trace[..m][..i] == trace[..i]
      {
      }
      SerialIsNeverRobbed(trace[..m], n);
      var s := Run(trace[..m]);
      if Robs(s, trace[m], Run(trace), n) {
        RunInv(trace[..m]);
        RunStep(trace, m);
        assert trace[..m + 1] == trace;
        StepChannel(s, m, trace[m], n);
        StepPhase(s, m, trace[m], n);
        SerialAsksKeepTheirEntries(trace);
        assert false;
      }
    }
  }

  /** Under the run lock, a question that was sent is denied only by its own timeout. */
  lemma SerialAsksAreDeniedOnlyByTimeout(trace: seq<Step>, n: nat)
    requires Serial(trace) && n < |Run(trace).asks| && Run(trace).asks[n].Returned() && WasSent(trace, n, true)
    ensures Run(trace).In(n, Denied) <==> TimedOut(trace, n)
  {
    hide Run, WasSent, TimedOut, Robbed, Serial;
    PhasesAreTold(trace, n);
    SerialIsNeverRobbed(trace, n);
  }

  /** Two ways, from the start, for a reply to be consumed and lost: between the timeout
      and the clear, and before the question turns out not to have been sent. Either way
      the map has no entry left, so nobody gets the answer and no new run starts. */
  lemma RepliesAreLost(user: string, body: string)
    ensures var late := [Register(user), Sent(0, true), Elapse(0), Message(user, body), ClearAfter(0)];
            && Run(late[..3]).entries == map[user := 0] && user !in Run(late[..4]).entries
            && Run(late).asks == [Ask(user, Denied, Empty)]
    ensures var early := [Register(user), Message(user, body), Sent(0, false), ClearAfter(0)];
            && Run(early[..1]).entries == map[user := 0] && user !in Run(early[..2]).entries
            && Run(early).asks == [Ask(user, Denied, Full(1, body))]
  {
    hide Run, State.Apply;
    var late := [Register(user), Sent(0, true), Elapse(0), Message(user, body), ClearAfter(0)];
    NothingYet(late);
    LateSteps(user, body);
    Advance(late, 0, START, One(user, Sending, Empty, true));
    Advance(late, 1, One(user, Sending, Empty, true), One(user, Waiting, Empty, true));
    Advance(late, 2, One(user, Waiting, Empty, true), One(user, Expired, Empty, true));
    Advance(late, 3, One(user, Expired, Empty, true), One(user, Expired, Empty, false));
    Advance(late, 4, One(user, Expired, Empty, false), One(user, Denied, Empty, false));
    assert late[..5] == late;
    var early := [Register(user), Message(user, body), Sent(0, false), ClearAfter(0)];
    NothingYet(early);
    EarlySteps(user, body);
    Advance(early, 0, START, One(user, Sending, Empty, true));
    Advance(early, 1, One(user, Sending, Empty, true), One(user, Sending, Full(1, body), false));
    Advance(early, 2, One(user, Sending, Full(1, body), false), One(user, SendFailed, Full(1, body), false));
    Advance(early, 3, One(user, SendFailed, Full(1, body), false), One(user, Denied, Full(1, body), false));
    assert early[..4] == early;
  }

  /** A single ask, with or without its entry. */
  function One(user: string, phase: Phase, channel: Channel, entry: bool): (s: State)
    ensures s.Valid()
  {
    State(if entry then map[user := 0] else map[], [Ask(user, phase, channel)])
  }

  lemma LateSteps(user: string, body: string)
    ensures START.Apply(0, Register(user)) == One(user, Sending, Empty, true)
    ensures One(user, Sending, Empty, true).Apply(1, Sent(0, true)) == One(user, Waiting, Empty, true)
    ensures One(user, Waiting, Empty, true).Apply(2, Elapse(0)) == One(user, Expired, Empty, true)
    ensures One(user, Expired, Empty, true).Apply(3, Message(user, body)) == One(user, Expired, Empty, false)
    ensures One(user, Expired, Empty, false).Apply(4, ClearAfter(0)) == One(user, Denied, Empty, false)
  {
  }

  lemma EarlySteps(user: string, body: string)
    ensures START.Apply(0, Register(user)) == One(user, Sending, Empty, true)
    ensures One(user, Sending, Empty, true).Apply(1, Message(user, body)) == One(user, Sending, Full(1, body), false)
    ensures One(user, Sending, Full(1, body), false).Apply(2, Sent(0, false))
         == One(user, SendFailed, Full(1, body), false)
    ensures One(user, SendFailed, Full(1, body), false).Apply(3, ClearAfter(0))
         == One(user, Denied, Full(1, body), false)
  {
  }
}
