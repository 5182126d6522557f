/**
 Which alerts of the activity watcher are repeated (crates/aqua-activity-watch/src/main.rs).
 Beside a run, a history says which polls sent an alert and which of them each state, in
 memory or saved, descends from.
 */
module ActivityAlerts {
  import opened Basics
  import opened ActivityCount
  import opened ActivityWatch

  // -------------------------------------------------------------------------
  // Sent, and remembered
  // -------------------------------------------------------------------------

  datatype Kind = FirstMessage | Milestones

  /** The setting of a run: what lines parse to, the file, and the milestone interval. */
  datatype Setting = Setting(parse: Line -> Option<Id>, inode: nat, step: nat)

  ghost predicate ValidSetting(c: Setting) { c.inode != 0 && c.step > 0 }

  function After(c: Setting, events: seq<Event>): World { Run(c.parse, c.inode, c.step, events) }

  function Seen(c: Setting, w: World, e: Event): (State, Option<bool>)
    requires e.Poll?
  {
    Ingested(w.state, c.parse, Found(c.inode, |w.log|), w.log, e.reading)
  }

  /** The event is a poll in which an alert of this kind is due and its notifier succeeds. */
  predicate Sends(c: Setting, w: World, e: Event, kind: Kind) {
    e.Poll? && Seen(c, w, e).1.Some? &&
    var s := Seen(c, w, e).0;
    match kind
    case FirstMessage => FirstDue(s) && e.firstOk
    case Milestones => Crossed(s.lastMilestone, s.count, c.step) != [] && e.milestoneOk
  }

  /** The event is a poll whose new state reaches the disk. */
  predicate Saves(c: Setting, w: World, e: Event) {
    e.Poll? && e.saved && Seen(c, w, e).1.Some? &&
    var (s, changed) := Seen(c, w, e);
    changed.value || Delivered(s, c.step, e.firstOk, e.milestoneOk) != s
  }

  /** `sent`: the events that sent an alert of some kind. `told`: those among them that
      the watcher's state descends from. `saved`: those that each saved state does. */
  datatype History = History(sent: set<nat>, told: set<nat>, saved: seq<set<nat>>)

  const NOTHING_SENT := History({}, {}, [{}])

  function Noted(h: History, n: nat, sends: bool, saves: bool): History {
    var told := if sends then h.told + {n} else h.told;
    History(if sends then h.sent + {n} else h.sent, told, if saves then h.saved + [told] else h.saved)
  }

  function Next(c: Setting, w: World, h: History, n: nat, e: Event, kind: Kind): History {
    match e
    case Grow(_) => h
    case Poll(_, _, _, _) => Noted(h, n, Sends(c, w, e, kind), Saves(c, w, e))
    case Restart(k) => if k < |h.saved| then h.(told := h.saved[k]) else h
  }

  function HistoryOf(c: Setting, events: seq<Event>, kind: Kind): History {
    if events == [] then NOTHING_SENT
    else
      var n := |events| - 1;
      Next(c, After(c, events[..n]), HistoryOf(c, events[..n], kind), n, events[n], kind)
  }

  /** Some poll sends an alert from a state that does not descend from an earlier poll
      that sent one: that alert was not saved, or not in the state last loaded. */
  ghost predicate SendsForgetfully(c: Setting, events: seq<Event>, kind: Kind) {
    events != [] &&
    var n := |events| - 1;
    var h := HistoryOf(c, events[..n], kind);
    || (Sends(c, After(c, events[..n]), events[n], kind) && h.told != h.sent)
    || SendsForgetfully(c, events[..n], kind)
  }

  // -------------------------------------------------------------------------
  // Repeated alerts
  // -------------------------------------------------------------------------

  /** A milestone was alerted twice; or the first message was. */
  ghost predicate Repeated(w: World, kind: Kind) {
    match kind
    case FirstMessage => w.firsts > 1
    case Milestones => exists i, j :: 0 <= i < j < |w.alerts| && w.alerts[i] == w.alerts[j]
  }

  lemma {:induction false} MultiplesAt(first: nat, last: int, step: nat)
    ensures |Multiples(first, last, step)| == if last < first then 0 else last - first + 1
    ensures forall i :: 0 <= i < |Multiples(first, last, step)| ==>
              Multiples(first, last, step)[i] == (first + i) * step
  {
    if first <= last {
      MultiplesAt(first, last - 1, step);
    }
  }

  lemma UpToIsOnce(last: nat, step: nat)
    requires step > 0
    ensures forall i, j :: 0 <= i < j < |UpTo(last, step)| ==> UpTo(last, step)[i] != UpTo(last, step)[j]
  {
    MultiplesAt(1, last / step, step);
    forall i, j | 0 <= i < j < |UpTo(last, step)|
      ensures UpTo(last, step)[i] != UpTo(last, step)[j]
    {
      MultipleOrder(1 + i, 1 + j, step);
    }
  }

  /** Milestones that are due from a state that lags behind were alerted before. */
  lemma LaggingRepeats(last: nat, high: nat, count: nat, step: nat)
    requires step > 0 && last % step == 0 && high % step == 0 && last < high
    requires Crossed(last, count, step) != []
    ensures UpTo(high, step) != [] && Crossed(last, count, step)[0] in UpTo(high, step)
  {
    MultiplesAt(last / step + 1, count / step, step);
    MultiplesAt(1, high / step, step);
    assert last == last / step * step && high == high / step * step;
    if high / step <= last / step {
      MultipleOrder(high / step, last / step, step);
    }
    assert UpTo(high, step)[last / step] == (last / step + 1) * step;
  }

  lemma RepeatedNow(before: seq<nat>, more: seq<nat>, w: World)
    requires more != [] && more[0] in before && w.alerts == before + more
    ensures Repeated(w, Milestones)
  {
    var i :| 0 <= i < |before| && before[i] == more[0];
    assert w.alerts[i] == before[i] && w.alerts[|before|] == more[0];
  }

  lemma RepeatedStays(c: Setting, w: World, e: Event, kind: Kind)
    requires Repeated(w, kind)
    ensures Repeated(Apply(w, c.parse, c.inode, c.step, e), kind)
  {
    hide Ingested, Delivered, Crossed;
    var n := Apply(w, c.parse, c.inode, c.step, e);
    if kind.Milestones? {
      var i, j :| 0 <= i < j < |w.alerts| && w.alerts[i] == w.alerts[j];
      assert n.alerts[i] == w.alerts[i] && n.alerts[j] == w.alerts[j];
    }
  }

  // -------------------------------------------------------------------------
  // What a state knows, while nothing is sent forgetfully
  // -------------------------------------------------------------------------

  /** A state knows the highest milestone alerted exactly when it descends from every poll
      that alerted one. */
  predicate KnowsHigh(s: State, told: set<nat>, sent: set<nat>, high: nat) {
    told <= sent && s.lastMilestone <= high && (s.lastMilestone == high <==> told == sent)
  }

  predicate KnowsFirst(s: State, told: set<nat>, sent: set<nat>) {
    (s.firstContact <==> told != {}) && (told == {} || told == sent)
  }

  predicate Knows(s: State, told: set<nat>, sent: set<nat>, high: nat, kind: Kind) {
    match kind
    case FirstMessage => KnowsFirst(s, told, sent)
    case Milestones => KnowsHigh(s, told, sent, high)
  }

  /** The alerts are the milestones up to `high`, or the first message at most once; and
      every state, in memory or saved, knows as much as it descends from. */
  ghost predicate Known(c: Setting, w: World, h: History, n: nat, high: nat, kind: Kind)
    requires c.step > 0
  {
    && (forall i :: i in h.sent ==> i < n)
    && high % c.step == 0
    && (if kind.FirstMessage? then w.firsts == if h.sent == {} then 0 else 1 else w.alerts == UpTo(high, c.step))
    && Knows(w.state, h.told, h.sent, high, kind)
    && |h.saved| == |w.saved|
    && forall k :: 0 <= k < |w.saved| ==> Knows(w.saved[k], h.saved[k], h.sent, high, kind)
  }

  lemma StartIsKnown(c: Setting, kind: Kind)
    requires ValidSetting(c)
    ensures Known(c, After(c, []), HistoryOf(c, [], kind), 0, 0, kind)
  {
    MultipleOf(0, c.step);
  }

  /** Whatever is known stays so when the new alert is remembered by the state that sent it. */
  lemma KnownGrows(s: State, told: set<nat>, sent: set<nat>, high: nat, kind: Kind, n: nat, high': nat)
    requires Knows(s, told, sent, high, kind) && n !in sent && high <= high'
    requires kind.Milestones? ==> high < high'
    requires kind.FirstMessage? ==> sent == {}
    ensures Knows(s, told, sent + {n}, high', kind)
  {
    assert n in sent + {n} && n !in told;
  }

  lemma PollEffect(c: Setting, w: World, e: Event)
    requires ValidSetting(c) && e.Poll? && Good(w, c.parse, c.inode, c.step)
    ensures var s := Seen(c, w, e).0;
            && s.lastMilestone == w.state.lastMilestone && s.firstContact == w.state.firstContact && Sane(s, c.step)
  {
    hide Ingested, Faithful;
    IngestKeepsMilestone(w.state, c.parse, c.inode, w.log, e.reading);
    IngestIsSane(w.state, c.parse, Found(c.inode, |w.log|), w.log, e.reading, c.step);
  }

  /** What a poll that works changes. */
  lemma PollChanges(c: Setting, w: World, e: Event)
    requires ValidSetting(c) && e.Poll? && Good(w, c.parse, c.inode, c.step)
    ensures var n := Polled(w, c.parse, c.inode, c.step, e);
            && n.saved == (if Saves(c, w, e) then w.saved + [n.state] else w.saved)
            && n.firsts == w.firsts + (if Sends(c, w, e, FirstMessage) then 1 else 0)
            && (Sends(c, w, e, FirstMessage) ==> !w.state.firstContact)
            && n.state.firstContact == (w.state.firstContact || Sends(c, w, e, FirstMessage))
            && (if Sends(c, w, e, Milestones) then
                  var s := Seen(c, w, e).0;
                  && n.alerts == w.alerts + Crossed(w.state.lastMilestone, s.count, c.step)
                  && Crossed(w.state.lastMilestone, s.count, c.step) != []
                  && n.state.lastMilestone == s.count / c.step * c.step
                  && w.state.lastMilestone < n.state.lastMilestone
                  && UpTo(w.state.lastMilestone, c.step) + Crossed(w.state.lastMilestone, s.count, c.step)
                     == UpTo(n.state.lastMilestone, c.step)
                else n.alerts == w.alerts && n.state.lastMilestone == w.state.lastMilestone)
            && (Sends(c, w, e, FirstMessage) || Sends(c, w, e, Milestones) ==> Saves(c, w, e) || !e.saved)
  {
    hide Ingested, Good, Multiples;
    PollEffect(c, w, e);
    var s := Seen(c, w, e).0;
    assert w.alerts + [] == w.alerts;
    if Sends(c, w, e, Milestones) {
      DeliveredIsLatest(s, c.step, e.firstOk);
      HighestDue(s.lastMilestone, s.count, c.step);
      MultipleOf(s.count / c.step, c.step);
      assert UpTo(s.count, c.step) == UpTo(s.count / c.step * c.step, c.step);
    }
  }

  /** A poll that sends nothing of this kind. */
  lemma QuietPollKnown(c: Setting, w: World, h: History, n: nat, e: Event, high: nat, kind: Kind)
    requires ValidSetting(c) && e.Poll? && Good(w, c.parse, c.inode, c.step)
    requires Known(c, w, h, n, high, kind) && !Sends(c, w, e, kind)
    ensures Known(c, Polled(w, c.parse, c.inode, c.step, e), Next(c, w, h, n, e, kind), n + 1, high, kind)
  {
    hide Polled, Sends, Saves, Good, UpTo, Crossed;
    PollChanges(c, w, e);
  }

  /** A poll that sends from a state that remembers everything. */
  lemma SendingPollKnown(c: Setting, w: World, h: History, n: nat, e: Event, high: nat, kind: Kind) returns (high': nat)
    requires ValidSetting(c) && e.Poll? && Good(w, c.parse, c.inode, c.step)
    requires Known(c, w, h, n, high, kind) && Sends(c, w, e, kind) && h.told == h.sent
    ensures Known(c, Polled(w, c.parse, c.inode, c.step, e), Next(c, w, h, n, e, kind), n + 1, high', kind)
  {
    hide Polled, Sends, Saves, Good, UpTo, Crossed;
    PollChanges(c, w, e);
    var r := Polled(w, c.parse, c.inode, c.step, e);
    high' := if kind.FirstMessage? then high else r.state.lastMilestone;
    if kind.Milestones? {
      MultipleOf(Seen(c, w, e).0.count / c.step, c.step);
    }
    forall k | 0 <= k < |w.saved|
      ensures Knows(w.saved[k], h.saved[k], h.sent + {n}, high', kind)
    {
      KnownGrows(w.saved[k], h.saved[k], h.sent, high, kind, n, high');
    }
  }

  /** A poll that sends from a state that does not. */
  lemma ForgetfulPollRepeats(c: Setting, w: World, h: History, n: nat, e: Event, high: nat, kind: Kind)
    requires ValidSetting(c) && e.Poll? && Good(w, c.parse, c.inode, c.step)
    requires Known(c, w, h, n, high, kind) && Sends(c, w, e, kind) && h.told != h.sent
    ensures Repeated(Polled(w, c.parse, c.inode, c.step, e), kind)
  {
    hide Polled, Sends, Saves, UpTo, Crossed, AllFaithful;
    PollChanges(c, w, e);
    if kind.Milestones? {
      var count := Seen(c, w, e).0.count;
      LaggingRepeats(w.state.lastMilestone, high, count, c.step);
      RepeatedNow(w.alerts, Crossed(w.state.lastMilestone, count, c.step), Polled(w, c.parse, c.inode, c.step, e));
    }
  }

  lemma OtherEventKnown(c: Setting, w: World, h: History, n: nat, e: Event, high: nat, kind: Kind)
    requires ValidSetting(c) && !e.Poll? && Known(c, w, h, n, high, kind)
    ensures Known(c, Apply(w, c.parse, c.inode, c.step, e), Next(c, w, h, n, e, kind), n + 1, high, kind)
  {
    hide UpTo;
  }

  lemma NotRepeated(c: Setting, w: World, h: History, n: nat, high: nat, kind: Kind)
    requires ValidSetting(c) && Known(c, w, h, n, high, kind)
    ensures !Repeated(w, kind)
  {
    UpToIsOnce(high, c.step);
  }

  /** While nothing was sent forgetfully, everything is known; from then on something is
      repeated. */
  lemma {:induction false} KnownOrRepeated(c: Setting, events: seq<Event>, kind: Kind)
    requires ValidSetting(c)
    ensures if SendsForgetfully(c, events, kind) then Repeated(After(c, events), kind)
            else exists high: nat :: Known(c, After(c, events), HistoryOf(c, events, kind), |events|, high, kind)
  {
    hide Known, Repeated, Good, Sends, Next, Polled;
    if events == [] {
      StartIsKnown(c, kind);
    } else {
      var n := |events| - 1;
      var before, e := events[..n], events[n];
      var w, h := After(c, before), HistoryOf(c, before, kind);
      KnownOrRepeated(c, before, kind);
      RunIsGood(c.parse, c.inode, c.step, before);
      if SendsForgetfully(c, before, kind) {
        RepeatedStays(c, w, e, kind);
      } else {
        var high: nat :| Known(c, w, h, n, high, kind);
        assert HistoryOf(c, events, kind) == Next(c, w, h, n, e, kind) && |events| == n + 1;
        if !e.Poll? {
          OnlyPollsSend(c, w, e, kind);
          OtherEventKnown(c, w, h, n, e, high, kind);
          assert Known(c, After(c, events), HistoryOf(c, events, kind), |events|, high, kind);
        } else if !Sends(c, w, e, kind) {
          QuietPollKnown(c, w, h, n, e, high, kind);
          assert Known(c, After(c, events), HistoryOf(c, events, kind), |events|, high, kind);
        } else if h.told == h.sent {
          var high' := SendingPollKnown(c, w, h, n, e, high, kind);
          assert Known(c, After(c, events), HistoryOf(c, events, kind), |events|, high', kind);
        } else {
          ForgetfulPollRepeats(c, w, h, n, e, high, kind);
        }
      }
    }
  }

  lemma OnlyPollsSend(c: Setting, w: World, e: Event, kind: Kind)
    ensures Sends(c, w, e, kind) ==> e.Poll?
  {
  }

  /** Exactly when an alert is repeated, over any growth, reads, failures and restarts from
      any saved state: when some poll sends an alert from a state that does not descend
      from an earlier poll that sent one. */
  lemma RepeatedIffForgetful(c: Setting, events: seq<Event>, kind: Kind)
    requires ValidSetting(c)
    ensures Repeated(After(c, events), kind) <==> SendsForgetfully(c, events, kind)
  {
    hide Known, Repeated, After;
    KnownOrRepeated(c, events, kind);
    if !SendsForgetfully(c, events, kind) {
      var high: nat :| Known(c, After(c, events), HistoryOf(c, events, kind), |events|, high, kind);
      NotRepeated(c, After(c, events), HistoryOf(c, events, kind), |events|, high, kind);
    }
  }

  // -------------------------------------------------------------------------
  // Runs that repeat nothing
  // -------------------------------------------------------------------------

  /** What was alerted is the milestones up to the last one recorded, in order, without a
      gap or a repeat, and the first message at most once. */
  ghost predicate Exact(w: World, step: nat) {
    w.alerts == UpTo(w.state.lastMilestone, step) && w.firsts == if w.state.firstContact then 1 else 0
  }

  /** The state remembers everything, and nothing was ever sent forgetfully. */
  ghost predicate Mindful(c: Setting, events: seq<Event>, kind: Kind) {
    HistoryOf(c, events, kind).told == HistoryOf(c, events, kind).sent && !SendsForgetfully(c, events, kind)
  }

  lemma MindfulIsExact(c: Setting, events: seq<Event>)
    requires ValidSetting(c) && Mindful(c, events, FirstMessage) && Mindful(c, events, Milestones)
    ensures Exact(After(c, events), c.step)
    ensures !Repeated(After(c, events), FirstMessage) && !Repeated(After(c, events), Milestones)
  {
    hide After, HistoryOf, Repeated;
    KnownOrRepeated(c, events, FirstMessage);
    KnownOrRepeated(c, events, Milestones);
    RepeatedIffForgetful(c, events, FirstMessage);
    RepeatedIffForgetful(c, events, Milestones);
  }

  lemma {:induction false} NoRestartIsMindful(c: Setting, events: seq<Event>, kind: Kind)
    requires forall i :: 0 <= i < |events| ==> !events[i].Restart?
    ensures Mindful(c, events, kind)
  {
    hide After, Sends, Saves;
    if events != [] {
      NoRestartIsMindful(c, events[..|events| - 1], kind);
    }
  }

  /** Without a restart the alerts are the milestones up to the last one recorded, whatever
      the notifier, the reads and the saves do. */
  lemma AlertsAreExact(c: Setting, events: seq<Event>)
    requires ValidSetting(c) && forall i :: 0 <= i < |events| ==> !events[i].Restart?
    ensures Exact(After(c, events), c.step)
    ensures !Repeated(After(c, events), FirstMessage) && !Repeated(After(c, events), Milestones)
  {
    hide After, Mindful, Repeated, Exact;
    NoRestartIsMindful(c, events, FirstMessage);
    NoRestartIsMindful(c, events, Milestones);
    MindfulIsExact(c, events);
  }

  /** Every save succeeds, and every restart loads the state saved last. */
  ghost predicate Careful(c: Setting, events: seq<Event>) {
    events != [] ==>
      var n := |events| - 1;
      && (match events[n]
          case Grow(_) => true
          case Poll(_, _, _, saved) => saved
          case Restart(k) => k == |After(c, events[..n]).saved| - 1)
      && Careful(c, events[..n])
  }

  ghost predicate NewestKnowsAll(c: Setting, events: seq<Event>, kind: Kind) {
    var h := HistoryOf(c, events, kind);
    && Mindful(c, events, kind)
    && |h.saved| == |After(c, events).saved| > 0 && h.saved[|h.saved| - 1] == h.sent
  }

  lemma {:induction false} CarefulIsMindful(c: Setting, events: seq<Event>, kind: Kind)
    requires ValidSetting(c) && Careful(c, events)
    ensures NewestKnowsAll(c, events, kind)
  {
    hide Sends, Saves, Good, Polled;
    if events != [] {
      var n := |events| - 1;
      CarefulIsMindful(c, events[..n], kind);
      if events[n].Poll? {
        RunIsGood(c.parse, c.inode, c.step, events[..n]);
        PollChanges(c, After(c, events[..n]), events[n]);
      }
    }
  }

  /** When every save succeeds and every restart loads the state saved last, which is what
      the program does, no run repeats an alert, and the alerts stay exact. */
  lemma CarefulRunsRepeatNothing(c: Setting, events: seq<Event>)
    requires ValidSetting(c) && Careful(c, events)
    ensures Exact(After(c, events), c.step)
    ensures !Repeated(After(c, events), FirstMessage) && !Repeated(After(c, events), Milestones)
  {
    hide After, Mindful, Repeated, Exact, HistoryOf;
    CarefulIsMindful(c, events, FirstMessage);
    CarefulIsMindful(c, events, Milestones);
    MindfulIsExact(c, events);
  }

  // -------------------------------------------------------------------------
  // The same for restarts from the newest saved state
  // -------------------------------------------------------------------------

  /** Every restart loads the state saved last; saves may fail. */
  ghost predicate LoadsNewest(c: Setting, events: seq<Event>) {
    events != [] ==>
      var n := |events| - 1;
      && (events[n].Restart? ==> events[n].k == |After(c, events[..n]).saved| - 1)
      && LoadsNewest(c, events[..n])
  }

  /** An alert was sent since the last save that succeeded. */
  ghost predicate UnsavedAlert(c: Setting, events: seq<Event>, kind: Kind) {
    events != [] &&
    var n := |events| - 1;
    var w := After(c, events[..n]);
    !Saves(c, w, events[n]) && (Sends(c, w, events[n], kind) || UnsavedAlert(c, events[..n], kind))
  }

  /** At some point a restart came while there was such an alert. */
  ghost predicate LostAlert(c: Setting, events: seq<Event>, kind: Kind) {
    events != [] &&
    var n := |events| - 1;
    (events[n].Restart? && UnsavedAlert(c, events[..n], kind)) || LostAlert(c, events[..n], kind)
  }

  /** And a later poll sent an alert again. */
  ghost predicate SendsAfterLoss(c: Setting, events: seq<Event>, kind: Kind) {
    events != [] &&
    var n := |events| - 1;
    || (Sends(c, After(c, events[..n]), events[n], kind) && LostAlert(c, events[..n], kind))
    || SendsAfterLoss(c, events[..n], kind)
  }

  /** What the three say about the history, while nothing was sent after a loss. */
  ghost predicate Tracked(w: World, h: History, n: nat, lost: bool, unsaved: bool) {
    && |h.saved| == |w.saved| > 0
    && (forall i :: i in h.sent ==> i < n)
    && h.told <= h.sent && h.saved[|h.saved| - 1] <= h.sent
    && (h.told != h.sent <==> lost)
    && (h.saved[|h.saved| - 1] != h.sent <==> lost || unsaved)
  }

  lemma NotedIsTracked(w: World, h: History, n: nat, lost: bool, unsaved: bool, sends: bool, saves: bool, r: World)
    requires Tracked(w, h, n, lost, unsaved) && (sends ==> !lost)
    requires |r.saved| == |w.saved| + if saves then 1 else 0
    ensures Tracked(r, Noted(h, n, sends, saves), n + 1, lost, !saves && (sends || unsaved))
  {
    assert n !in h.sent && n !in h.saved[|h.saved| - 1];
    assert n in h.sent + {n};
    var h' := Noted(h, n, sends, saves);
    assert h'.saved[|h'.saved| - 1] == if saves then h'.told else h.saved[|h.saved| - 1];
  }

  lemma {:induction false} LossIsForgetful(c: Setting, events: seq<Event>, kind: Kind)
    requires ValidSetting(c) && LoadsNewest(c, events)
    ensures SendsForgetfully(c, events, kind) <==> SendsAfterLoss(c, events, kind)
    ensures !SendsAfterLoss(c, events, kind) ==>
              Tracked(After(c, events), HistoryOf(c, events, kind), |events|, LostAlert(c, events, kind),
                      UnsavedAlert(c, events, kind))
  {
    hide Sends, Saves, Good, Polled, Tracked;
    if events == [] {
      StartIsTracked(c, kind);
    } else {
      var n := |events| - 1;
      var before, e := events[..n], events[n];
      var w, h := After(c, before), HistoryOf(c, before, kind);
      LossIsForgetful(c, before, kind);
      OnlyPollsSend(c, w, e, kind);
      OnlyPollsSave(c, w, e);
      if !SendsAfterLoss(c, before, kind) {
        var lost, unsaved := LostAlert(c, before, kind), UnsavedAlert(c, before, kind);
        TrackedLost(w, h, n, lost, unsaved);
        match e
        case Poll(_, _, _, _) =>
          RunIsGood(c.parse, c.inode, c.step, before);
          PollChanges(c, w, e);
          if !SendsAfterLoss(c, events, kind) {
            NotedIsTracked(w, h, n, lost, unsaved, Sends(c, w, e, kind), Saves(c, w, e), After(c, events));
          }
        case Restart(_) => RestartIsTracked(w, h, n, lost, unsaved, After(c, events));
        case Grow(_) => GrowIsTracked(w, h, n, lost, unsaved, After(c, events));
      }
    }
  }

  lemma TrackedLost(w: World, h: History, n: nat, lost: bool, unsaved: bool)
    requires Tracked(w, h, n, lost, unsaved)
    ensures (h.told != h.sent <==> lost) && |h.saved| == |w.saved| > 0
  {
  }

  lemma StartIsTracked(c: Setting, kind: Kind)
    ensures Tracked(After(c, []), HistoryOf(c, [], kind), 0, false, false)
  {
  }

  lemma RestartIsTracked(w: World, h: History, n: nat, lost: bool, unsaved: bool, r: World)
    requires Tracked(w, h, n, lost, unsaved) && r.saved == w.saved
    ensures Tracked(r, h.(told := h.saved[|h.saved| - 1]), n + 1, unsaved || lost, unsaved)
  {
  }

  lemma GrowIsTracked(w: World, h: History, n: nat, lost: bool, unsaved: bool, r: World)
    requires Tracked(w, h, n, lost, unsaved) && r.saved == w.saved
    ensures Tracked(r, h, n + 1, lost, unsaved)
  {
  }

  lemma OnlyPollsSave(c: Setting, w: World, e: Event)
    ensures Saves(c, w, e) ==> e.Poll?
  {
  }

  /** When restarts load the state saved last, as the program does, an alert is repeated
      exactly when one was sent after the last successful save, a restart followed before
      the next one, and a later poll sent an alert again. */
  lemma RepeatedIffLost(c: Setting, events: seq<Event>, kind: Kind)
    requires ValidSetting(c) && LoadsNewest(c, events)
    ensures Repeated(After(c, events), kind) <==> SendsAfterLoss(c, events, kind)
  {
    hide After, Repeated, LoadsNewest;
    RepeatedIffForgetful(c, events, kind);
    LossIsForgetful(c, events, kind);
  }

  // -------------------------------------------------------------------------
  // A repeated alert
  // -------------------------------------------------------------------------

  lemma RunSnoc(parse: Line -> Option<Id>, inode: nat, step: nat, events: seq<Event>, e: Event)
    ensures Run(parse, inode, step, events + [e]) == Apply(Run(parse, inode, step, events), parse, inode, step, e)
  {
    assert (events + [e])[..|events|] == events;
  }

  /** A first line read, counted and alerted. */
  lemma FirstLine(parse: Line -> Option<Id>, log: seq<Byte>, id: Id)
    requires log == [97, NEWLINE] && parse([97]) == Some(id)
    ensures Ingested(Fresh(0), parse, Found(1, 2), log, AtMost(2)) == (State(1, 2, 1, false, 0, [id]), Some(true))
    ensures Delivered(State(1, 2, 1, false, 0, [id]), 1, true, true) == State(1, 2, 1, true, 1, [id])
    ensures Crossed(0, 1, 1) == [1]
  {
    assert log[1..] == [NEWLINE] && FirstNewline(log) == 1 && log[..1] == [97] && log[2..] == [];
    assert Chunk(log, 0, 2, 2) == log;
    assert Ids(parse, log) == [id] + Ids(parse, []);
    assert CountAll(ZERO, [id]) == CountAll(Tally(1, [id]), [id][1..]);
    assert Multiples(1, 0, 1) == [];
  }

  /** An alert that was sent but not saved is sent again after a restart. */
  lemma UnsavedAlertIsRepeated(parse: Line -> Option<Id>, id: Id)
    requires parse([97]) == Some(id)
    ensures var poll := Poll(AtMost(2), true, true, false);
            var w := Run(parse, 1, 1, [Grow([97, NEWLINE]), poll, Restart(0), poll]);
            w.alerts == [1, 1] && w.firsts == 2
  {
    hide Run, Ingested, Delivered, Crossed;
    var log: seq<Byte> := [97, NEWLINE];
    var grow, poll := Grow(log), Poll(AtMost(2), true, true, false);
    RunSnoc(parse, 1, 1, [], grow);
    RunSnoc(parse, 1, 1, [grow], poll);
    RunSnoc(parse, 1, 1, [grow, poll], Restart(0));
    RunSnoc(parse, 1, 1, [grow, poll, Restart(0)], poll);
    FirstLine(parse, log, id);
    RunNothing(parse);
    assert [] + [grow] == [grow] && [grow] + [poll] == [grow, poll] && [] + log == log;
    assert Run(parse, 1, 1, [grow]) == World(log, Fresh(0), [Fresh(0)], [], 0);
    assert Run(parse, 1, 1, [grow, poll]) == World(log, State(1, 2, 1, true, 1, [id]), [Fresh(0)], [1], 1);
    assert [grow, poll] + [Restart(0)] == [grow, poll, Restart(0)];
    assert Run(parse, 1, 1, [grow, poll, Restart(0)]) == World(log, Fresh(0), [Fresh(0)], [1], 1);
    assert [grow, poll, Restart(0)] + [poll] == [grow, poll, Restart(0), poll];
  }

  lemma RunNothing(parse: Line -> Option<Id>)
    ensures Run(parse, 1, 1, []) == Start()
  {
  }
}
