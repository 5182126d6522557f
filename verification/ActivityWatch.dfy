/**
 The activity watcher (crates/aqua-activity-watch/src/main.rs): polls of an append-only
 log, and the alerts on the first message and on every `step`-th one. What a line parses
 to, what the file system answers and whether the notifier succeeds are parameters.
 */
module ActivityWatch {
  import opened Basics
  import opened ActivityCount

  // -------------------------------------------------------------------------
  // Milestones
  // -------------------------------------------------------------------------

  /** `first`, `first + 1`, ... `last`, each times `step`. */
  function Multiples(first: nat, last: int, step: nat): seq<nat> {
    if last < first then [] else Multiples(first, last - 1, step) + [last * step]
  }

  /** The multiples of `step` above `after` and not above `count`. */
  function Crossed(after: nat, count: nat, step: nat): seq<nat> {
    if step == 0 then [] else Multiples(after / step + 1, count / step, step)
  }

  method CrossedMilestones(after: nat, count: nat, step: nat) returns (out: seq<nat>)
    ensures out == Crossed(after, count, step)
  {
    hide Crossed;
    if step == 0 {
      NoStep(after, count);
      return [];
    }
    out := [];
    var m := (after / step + 1) * step;
    ghost var first := after / step + 1;
    ghost var k := first;
    while m <= count
      invariant k >= first && m == k * step && out == Multiples(first, k - 1, step)
      invariant k == first || (k - 1) * step <= count
      decreases count - m
    {
      out := out + [m];
      OneMore(k, step);
      m := m + step;
      k := k + 1;
    }
    CountUpTo(count, step, k);
    CrossedIs(after, count, step, k);
  }

  lemma NoStep(after: nat, count: nat)
    ensures Crossed(after, count, 0) == []
  {
  }

  /** The loop stops at the first multiple above the count. */
  lemma CountUpTo(count: nat, step: nat, k: nat)
    requires step > 0 && count < k * step
    ensures count / step < k
  {
    if count / step >= k {
      MultipleOrder(k, count / step, step);
    }
  }

  lemma {:induction false} MultipleOrder(a: nat, b: nat, step: nat)
    requires a <= b
    ensures a * step <= b * step && (a < b ==> a * step + step <= b * step)
  {
    if a < b {
      MultipleOrder(a, b - 1, step);
      OneMore(b - 1, step);
    }
  }

  lemma CrossedIs(after: nat, count: nat, step: nat, k: nat)
    requires step > 0 && after / step + 1 <= k && count / step < k
    requires k == after / step + 1 || (k - 1) * step <= count
    ensures Crossed(after, count, step) == Multiples(after / step + 1, k - 1, step)
  {
    if k > after / step + 1 {
      QuotientBound(k - 1, count, step);
    }
  }

  lemma QuotientBound(k: nat, count: nat, step: nat)
    requires step > 0
    ensures k * step <= count <==> k <= count / step
  {
    assert count / step * step <= count < (count / step + 1) * step by {
      OneMore(count / step, step);
    }
    if k <= count / step {
      MultipleOrder(k, count / step, step);
    } else {
      MultipleOrder(count / step + 1, k, step);
    }
  }

  lemma {:induction false} MultiplesAre(first: nat, last: int, step: nat, m: nat)
    requires step > 0
    ensures m in Multiples(first, last, step) <==> exists k: nat :: first <= k <= last && m == k * step
  {
    if first <= last {
      MultiplesAre(first, last - 1, step, m);
      assert m == last * step ==> exists k: nat :: first <= k <= last && m == k * step;
    }
  }

  lemma CrossedSound(after: nat, count: nat, step: nat, m: nat)
    requires step > 0 && m in Crossed(after, count, step)
    ensures after < m <= count && m % step == 0
  {
    hide Multiples;
    MultiplesAre(after / step + 1, count / step, step, m);
    var q: nat :| after / step + 1 <= q <= count / step && m == q * step;
    QuotientBound(q, count, step);
    QuotientBound(q, after, step);
    MultipleOf(q, step);
  }

  lemma CrossedComplete(after: nat, count: nat, step: nat, m: nat)
    requires step > 0 && after < m <= count && m % step == 0
    ensures m in Crossed(after, count, step)
  {
    hide Multiples;
    MultiplesAre(after / step + 1, count / step, step, m);
    var k := m / step;
    assert m == k * step + m % step;
    QuotientBound(k, count, step);
    QuotientBound(k, after, step);
    assert after / step + 1 <= k <= count / step && m == k * step;
  }

  /** `Crossed` is exactly the multiples of the step in the half-open interval. */
  lemma CrossedExactly(after: nat, count: nat, step: nat, m: nat)
    requires step > 0
    ensures m in Crossed(after, count, step) <==> after < m <= count && m % step == 0
  {
    hide Crossed;
    if m in Crossed(after, count, step) {
      CrossedSound(after, count, step, m);
    } else if after < m <= count && m % step == 0 {
      CrossedComplete(after, count, step, m);
    }
  }

  lemma MultipleOf(k: nat, step: nat)
    requires step > 0
    ensures k * step % step == 0 && k * step / step == k
  {
    var n := k * step;
    QuotientBound(k, n, step);
    OneMore(k, step);
    QuotientBound(k + 1, n, step);
    assert n == n / step * step + n % step;
  }

  lemma {:induction false} MultiplesConcat(first: nat, middle: nat, last: nat, step: nat)
    requires first <= middle + 1 && middle <= last
    ensures Multiples(first, middle, step) + Multiples(middle + 1, last, step) == Multiples(first, last, step)
  {
    if middle < last {
      MultiplesConcat(first, middle, last - 1, step);
    }
  }

  // -------------------------------------------------------------------------
  // The watcher
  // -------------------------------------------------------------------------

  datatype State = State(inode: nat, offset: nat, count: nat, firstContact: bool, lastMilestone: nat, ring: seq<Id>)

  /** The state of a fresh start, and of a new file. */
  function Fresh(inode: nat): State { State(inode, 0, 0, false, 0, []) }

  /** What `stat` says about the log, and what reading it does: it fails, or gives at
      most so many of the bytes asked for. */
  datatype Stat = Missing | Found(inode: nat, size: nat)
  datatype Reading = Fails | AtMost(most: nat)

  /** The bytes from the offset to the size that was seen, or fewer. */
  function Chunk(log: seq<Byte>, offset: nat, size: nat, most: nat): seq<Byte>
    requires offset <= size
  {
    var from := Min(offset, |log|);
    log[from..from + Min(Min(most, size - offset), |log| - from)]
  }

  /** Up to and with the last newline. */
  function Complete(bytes: seq<Byte>): (r: seq<Byte>)
    ensures |r| <= |bytes| && r == bytes[..|r|] && (r == [] || r[|r| - 1] == NEWLINE)
    ensures forall i :: |r| <= i < |bytes| ==> bytes[i] != NEWLINE
  {
    if bytes == [] || bytes[|bytes| - 1] == NEWLINE then bytes else Complete(bytes[..|bytes| - 1])
  }

  /** The state after consuming whole lines. */
  function Consumed(s: State, parse: Line -> Option<Id>, lines: seq<Byte>): State {
    var t := CountAll(Tally(s.count, s.ring), Ids(parse, lines));
    s.(offset := s.offset + |lines|, count := t.count, ring := t.ring)
  }

  predicate Restarted(s: State, inode: nat, size: nat) { inode != s.inode || size < s.offset }

  /** One `ingest`: the new state, and whether it changed, or `None` for an error. */
  function Ingested(s: State, parse: Line -> Option<Id>, stat: Stat, log: seq<Byte>, reading: Reading)
    : (State, Option<bool>)
  {
    if stat.Missing? then (s, Some(false))
    else
      var restarted := Restarted(s, stat.inode, stat.size);
      var s' := if restarted then Fresh(stat.inode) else s;
      if stat.size <= s'.offset then (s', Some(restarted))
      else if reading.Fails? then (s', None)
      else
        var lines := Complete(Chunk(log, s'.offset, stat.size, reading.most));
        if lines == [] then (s', Some(restarted)) else (Consumed(s', parse, lines), Some(true))
  }

  predicate FirstDue(s: State) { !s.firstContact && s.count >= 1 }

  /** The alerts of one `deliver`: on the first message, and on the milestones that are
      due, each recorded only if its notifier succeeded. */
  function Delivered(s: State, step: nat, firstOk: bool, milestoneOk: bool): State {
    var s' := if FirstDue(s) && firstOk then s.(firstContact := true) else s;
    var due := Crossed(s.lastMilestone, s.count, step);
    if due != [] && milestoneOk then s'.(lastMilestone := due[|due| - 1]) else s'
  }

  /** One poll: the new state, the state to save if any, and the milestones alerted. An
      error of `ingest` ends it at once. */
  datatype PollResult = PollResult(state: State, save: Option<State>, alerts: seq<nat>)

  function PollOf(s: State, parse: Line -> Option<Id>, step: nat, stat: Stat, log: seq<Byte>, reading: Reading,
                  firstOk: bool, milestoneOk: bool): PollResult
  {
    var (seen, changed) := Ingested(s, parse, stat, log, reading);
    if changed.None? then PollResult(seen, None, [])
    else
      var d := Delivered(seen, step, firstOk, milestoneOk);
      PollResult(d, if changed.value || d != seen then Some(d) else None,
                 if milestoneOk then Crossed(seen.lastMilestone, seen.count, step) else [])
  }

  class Watcher {
    const parse: Line -> Option<Id>
    const step: nat
    /** The notifier: whether each of its runs succeeds, and the milestones of the
        successful ones. */
    const notifier: nat -> bool
    var runs: nat
    ghost var alerts: seq<nat>
    var inode: nat
    var offset: nat
    var count: nat
    var firstContact: bool
    var lastMilestone: nat
    var ring: seq<Id>

    function View(): State
      reads this
    {
      State(inode, offset, count, firstContact, lastMilestone, ring)
    }

    constructor (parse: Line -> Option<Id>, step: nat, notifier: nat -> bool, loaded: State)
      ensures this.parse == parse && this.step == step && this.notifier == notifier
      ensures View() == loaded && alerts == [] && runs == 0
    {
      this.parse, this.step, this.notifier, runs, alerts := parse, step, notifier, 0, [];
      inode, offset, count := loaded.inode, loaded.offset, loaded.count;
      firstContact, lastMilestone, ring := loaded.firstContact, loaded.lastMilestone, loaded.ring;
    }

    /** Count the complete lines of a chunk, one by one. */
    method Eat(complete: seq<Byte>)
      requires complete == [] || complete[|complete| - 1] == NEWLINE
      modifies this`count, this`ring
      ensures Tally(count, ring) == CountAll(Tally(old(count), old(ring)), Ids(parse, complete))
    {
      hide CountAll, Ids, FirstNewline;
      ghost var whole := CountAll(Tally(count, ring), Ids(parse, complete));
      var start := 0;
      assert complete[0..] == complete;
      while start < |complete|
        invariant start <= |complete|
        invariant CountAll(Tally(count, ring), Ids(parse, complete[start..])) == whole
      {
        var k := start + FirstNewline(complete[start..]);
        assert complete[start..][|complete| - 1 - start] == NEWLINE;
        var raw := complete[start..k];
        assert complete[start..][..k - start] == raw && complete[start..][k - start + 1..] == complete[k + 1..];
        OneLine(parse, complete[start..], Tally(count, ring));
        if raw != [] {
          match parse(raw) {
            case None =>
            case Some(id) =>
              if id !in ring {
                count := count + 1;
                ring := ring + [id];
                if |ring| > RECENT_IDS_CAP {
                  ring := ring[1..];
                }
              }
          }
        }
        start := k + 1;
      }
      NoMore(parse, Tally(count, ring));
      assert complete[|complete|..] == [];
    }

    method Ingest(stat: Stat, log: seq<Byte>, reading: Reading) returns (changed: Option<bool>)
      modifies this`inode, this`offset, this`count, this`firstContact, this`lastMilestone, this`ring
      ensures (View(), changed) == Ingested(old(View()), parse, stat, log, reading)
    {
      hide CountAll, Ids, Complete, Chunk;
      if stat.Missing? {
        return Some(false);
      }
      var dirty := false;
      if stat.inode != inode || stat.size < offset {
        inode, offset, count := stat.inode, 0, 0;
        firstContact, lastMilestone, ring := false, 0, [];
        dirty := true;
      }
      if stat.size <= offset {
        return Some(dirty);
      }
      if reading.Fails? {
        return None;
      }
      var lines := Complete(Chunk(log, offset, stat.size, reading.most));
      if lines == [] {
        return Some(dirty);
      }
      Eat(lines);
      offset := offset + |lines|;
      changed := Some(true);
    }

    /** Whether the notifier succeeds in its next runs: on the first message if that is
        due, then on the milestones if any are. */
    function NextResults(s: State): (bool, bool)
      reads this`runs
    {
      (notifier(runs), notifier(runs + if FirstDue(s) then 1 else 0))
    }

    method Deliver() returns (advanced: bool)
      modifies this`firstContact, this`lastMilestone, this`runs, this`alerts
      ensures var (firstOk, milestoneOk) := old(NextResults(View()));
              && View() == Delivered(old(View()), step, firstOk, milestoneOk)
              && alerts == old(alerts) + if milestoneOk then Crossed(old(lastMilestone), count, step) else []
      ensures advanced == (View() != old(View()))
      ensures runs == old(runs) + (if FirstDue(old(View())) then 1 else 0)
                                + (if Crossed(old(lastMilestone), count, step) != [] then 1 else 0)
    {
      hide Crossed;
      ghost var results := NextResults(View());
      advanced := false;
      if !firstContact && count >= 1 {
        var firstOk := notifier(runs);
        runs := runs + 1;
        if firstOk {
          firstContact := true;
          advanced := true;
        }
      }
      var due := CrossedMilestones(lastMilestone, count, step);
      if due != [] {
        var milestoneOk := notifier(runs);
        runs := runs + 1;
        if milestoneOk {
          HighestDue(lastMilestone, count, step);
          lastMilestone := due[|due| - 1];
          alerts := alerts + due;
          advanced := true;
        }
      }
      assert View() == Delivered(old(View()), step, results.0, results.1);
    }

    /** One poll. An error ends it before anything is alerted; otherwise the state is to
        be saved if it changed. */
    method Poll(stat: Stat, log: seq<Byte>, reading: Reading) returns (save: Option<State>)
      modifies this
      ensures var seen := Ingested(old(View()), parse, stat, log, reading).0;
              var (firstOk, milestoneOk) := old(NextResults(seen));
              var r := PollOf(old(View()), parse, step, stat, log, reading, firstOk, milestoneOk);
              View() == r.state && save == r.save && alerts == old(alerts) + r.alerts
    {
      hide Ingested, Delivered, Crossed;
      var changed := Ingest(stat, log, reading);
      if changed.None? {
        return None;
      }
      var advanced := Deliver();
      save := if changed.value || advanced then Some(View()) else None;
    }
  }

  lemma HighestDue(after: nat, count: nat, step: nat)
    requires Crossed(after, count, step) != []
    ensures var due := Crossed(after, count, step); after < due[|due| - 1] <= count
  {
    hide Crossed;
    var due := Crossed(after, count, step);
    if step == 0 {
      NoStep(after, count);
    } else {
      CrossedExactly(after, count, step, due[|due| - 1]);
    }
  }

  lemma OneLine(parse: Line -> Option<Id>, bytes: seq<Byte>, t: Tally)
    requires FirstNewline(bytes) < |bytes|
    ensures var k := FirstNewline(bytes);
            CountAll(t, Ids(parse, bytes)) == CountAll(CountAll(t, IdOf(parse, bytes[..k])), Ids(parse, bytes[k + 1..]))
    ensures forall id :: CountAll(t, [id]) == Count(t, id)
    ensures CountAll(t, []) == t
  {
    var k := FirstNewline(bytes);
    CountConcat(t, IdOf(parse, bytes[..k]), Ids(parse, bytes[k + 1..]));
    forall id
      ensures CountAll(t, [id]) == Count(t, id)
    {
      assert [id][1..] == [];
    }
  }

  lemma NoMore(parse: Line -> Option<Id>, t: Tally)
    ensures CountAll(t, Ids(parse, [])) == t
  {
  }

  // -------------------------------------------------------------------------
  // Incremental reading is batch reading
  // -------------------------------------------------------------------------

  /** The state is what one fold over the log up to its offset gives, and the offset is
      where a line starts. */
  ghost predicate Faithful(s: State, parse: Line -> Option<Id>, log: seq<Byte>) {
    && Aligned(log, s.offset)
    && Tally(s.count, s.ring) == Batch(parse, log[..s.offset])
  }

  lemma FreshIsFaithful(inode: nat, parse: Line -> Option<Id>, log: seq<Byte>)
    ensures Faithful(Fresh(inode), parse, log)
  {
    assert log[..0] == [];
  }

  lemma StaysFaithful(s: State, parse: Line -> Option<Id>, log: seq<Byte>, more: seq<Byte>)
    requires Faithful(s, parse, log)
    ensures Faithful(s, parse, log + more)
  {
    assert (log + more)[..s.offset] == log[..s.offset];
  }

  lemma ConsumingIsFaithful(s: State, parse: Line -> Option<Id>, log: seq<Byte>, lines: seq<Byte>)
    requires Faithful(s, parse, log) && s.offset + |lines| <= |log| && lines == log[s.offset..s.offset + |lines|]
    requires lines != [] && lines[|lines| - 1] == NEWLINE
    ensures Faithful(Consumed(s, parse, lines), parse, log)
  {
    hide Batch, CountAll, Ids;
    var before := log[..s.offset];
    assert log[..s.offset + |lines|] == before + lines;
    assert log[s.offset + |lines| - 1] == lines[|lines| - 1];
    assert s.offset > 0 ==> before[|before| - 1] == log[s.offset - 1];
    BatchExtends(parse, before, lines);
  }

  /** However little a read returns, a poll of the same file keeps the state faithful. */
  lemma IngestIsFaithful(s: State, parse: Line -> Option<Id>, inode: nat, log: seq<Byte>, reading: Reading)
    requires s.inode == inode ==> Faithful(s, parse, log)
    ensures Faithful(Ingested(s, parse, Found(inode, |log|), log, reading).0, parse, log)
  {
    hide Batch, CountAll, Ids, Consumed, Faithful;
    var s' := if Restarted(s, inode, |log|) then Fresh(inode) else s;
    FreshIsFaithful(inode, parse, log);
    FaithfulOffset(s', parse, log);
    if |log| > s'.offset && reading.AtMost? {
      var chunk := Chunk(log, s'.offset, |log|, reading.most);
      var lines := Complete(chunk);
      assert lines == log[s'.offset..s'.offset + |lines|];
      if lines != [] {
        ConsumingIsFaithful(s', parse, log, lines);
      }
    }
  }

  lemma FaithfulOffset(s: State, parse: Line -> Option<Id>, log: seq<Byte>)
    requires Faithful(s, parse, log)
    ensures s.offset <= |log|
  {
  }

  /** A poll that reads everything it asked for leaves no complete line behind: its tally
      is that of the whole log. */
  lemma FullPollCatchesUp(s: State, parse: Line -> Option<Id>, inode: nat, log: seq<Byte>, most: nat)
    requires s.inode == inode ==> Faithful(s, parse, log)
    requires |log| <= most
    ensures var r := Ingested(s, parse, Found(inode, |log|), log, AtMost(most)).0;
            && r.offset <= |log| && (forall i :: r.offset <= i < |log| ==> log[i] != NEWLINE)
            && Tally(r.count, r.ring) == Batch(parse, log)
  {
    hide Batch, CountAll, Ids;
    var r := Ingested(s, parse, Found(inode, |log|), log, AtMost(most)).0;
    IngestIsFaithful(s, parse, inode, log, AtMost(most));
    var s' := if Restarted(s, inode, |log|) then Fresh(inode) else s;
    FreshIsFaithful(inode, parse, log);
    var chunk := Chunk(log, s'.offset, |log|, most);
    assert chunk == log[s'.offset..];
    var lines := Complete(chunk);
    forall i | r.offset <= i < |log|
      ensures log[i] != NEWLINE
    {
      assert log[i] == chunk[i - s'.offset];
    }
    TailDoesNotCount(parse, log, r.offset);
  }

  lemma TailDoesNotCount(parse: Line -> Option<Id>, log: seq<Byte>, offset: nat)
    requires Aligned(log, offset) && forall i :: offset <= i < |log| ==> log[i] != NEWLINE
    ensures Batch(parse, log[..offset]) == Batch(parse, log)
  {
    hide Ids, CountAll;
    var head, tail := log[..offset], log[offset..];
    assert log == head + tail;
    assert offset > 0 ==> head[offset - 1] == log[offset - 1];
    NoLines(parse, tail);
    BatchExtends(parse, head, tail);
    CountNothing(Batch(parse, head));
  }

  lemma CountNothing(t: Tally)
    ensures CountAll(t, []) == t
  {
  }

  // -------------------------------------------------------------------------
  // Whole runs on one file
  // -------------------------------------------------------------------------

  /** The log grows; a poll reads, alerts and saves, each of which may fail; the process
      restarts from the `k`-th state it ever saved. */
  datatype Event =
    | Grow(bytes: seq<Byte>)
    | Poll(reading: Reading, firstOk: bool, milestoneOk: bool, saved: bool)
    | Restart(k: nat)

  /** The log, the watcher's state, the states that were ever on disk (at first none, so
      the default), the milestones that were successfully alerted, and how often the first
      message was. */
  datatype World = World(log: seq<Byte>, state: State, saved: seq<State>, alerts: seq<nat>, firsts: nat)

  function Start(): World { World([], Fresh(0), [Fresh(0)], [], 0) }

  function Polled(w: World, parse: Line -> Option<Id>, inode: nat, step: nat, e: Event): World
    requires e.Poll?
  {
    var r := PollOf(w.state, parse, step, Found(inode, |w.log|), w.log, e.reading, e.firstOk, e.milestoneOk);
    var before := Ingested(w.state, parse, Found(inode, |w.log|), w.log, e.reading).0;
    w.(state := r.state,
       saved := if r.save.Some? && e.saved then w.saved + [r.save.value] else w.saved,
       alerts := w.alerts + r.alerts,
       firsts := w.firsts + if r.state.firstContact && !before.firstContact then 1 else 0)
  }

  function Apply(w: World, parse: Line -> Option<Id>, inode: nat, step: nat, e: Event): World {
    match e
    case Grow(bytes) => w.(log := w.log + bytes)
    case Poll(_, _, _, _) => Polled(w, parse, inode, step, e)
    case Restart(k) => if k < |w.saved| then w.(state := w.saved[k]) else w
  }

  function RunFrom(w: World, parse: Line -> Option<Id>, inode: nat, step: nat, events: seq<Event>): World {
    if events == [] then w
    else Apply(RunFrom(w, parse, inode, step, events[..|events| - 1]), parse, inode, step, events[|events| - 1])
  }

  function Run(parse: Line -> Option<Id>, inode: nat, step: nat, events: seq<Event>): World {
    RunFrom(Start(), parse, inode, step, events)
  }

  ghost predicate AllFaithful(w: World, parse: Line -> Option<Id>, inode: nat) {
    && (w.state.inode == inode ==> Faithful(w.state, parse, w.log))
    && forall s :: s in w.saved && s.inode == inode ==> Faithful(s, parse, w.log)
  }

  lemma DeliveringCounts(s: State, step: nat, firstOk: bool, milestoneOk: bool)
    ensures var d := Delivered(s, step, firstOk, milestoneOk);
            d.(firstContact := s.firstContact, lastMilestone := s.lastMilestone) == s
  {
  }

  lemma StepIsFaithful(w: World, parse: Line -> Option<Id>, inode: nat, step: nat, e: Event)
    requires AllFaithful(w, parse, inode)
    ensures AllFaithful(Apply(w, parse, inode, step, e), parse, inode)
  {
    hide Ingested, Delivered, Crossed, Batch;
    match e
    case Grow(bytes) =>
      forall s | s in w.saved + [w.state] && s.inode == inode
        ensures Faithful(s, parse, w.log + bytes)
      {
        StaysFaithful(s, parse, w.log, bytes);
      }
      assert w.state in w.saved + [w.state] && forall s :: s in w.saved ==> s in w.saved + [w.state];
    case Poll(reading, firstOk, milestoneOk, _) =>
      IngestIsFaithful(w.state, parse, inode, w.log, reading);
      DeliveringCounts(Ingested(w.state, parse, Found(inode, |w.log|), w.log, reading).0, step, firstOk, milestoneOk);
    case Restart(k) =>
  }

  /** Over any growth of the log, short reads, failures and restarts from any earlier saved
      state, the watcher's count and ring are those of one fold over the lines up to its
      offset. */
  lemma {:induction false} IncrementalIsBatch(parse: Line -> Option<Id>, inode: nat, step: nat, events: seq<Event>)
    requires inode != 0
    ensures var w := Run(parse, inode, step, events);
            AllFaithful(w, parse, inode) && (w.state.inode == inode ==> Faithful(w.state, parse, w.log))
  {
    hide Apply, Faithful;
    if events != [] {
      IncrementalIsBatch(parse, inode, step, events[..|events| - 1]);
      StepIsFaithful(Run(parse, inode, step, events[..|events| - 1]), parse, inode, step, events[|events| - 1]);
    }
  }

  // -------------------------------------------------------------------------
  // A new file, and one that shrank
  // -------------------------------------------------------------------------

  /** A file with another inode, or one smaller than what was read of it, is read like the
      first one, from its beginning: nothing is carried over, and the state has changed. */
  lemma ResetForgets(s: State, parse: Line -> Option<Id>, inode: nat, size: nat, log: seq<Byte>, reading: Reading)
    requires inode != s.inode || size < s.offset
    ensures var r := Ingested(s, parse, Found(inode, size), log, reading);
            var f := Ingested(State(inode, 0, 0, false, 0, []), parse, Found(inode, size), log, reading);
            r.0 == f.0 && (r.1.Some? <==> f.1.Some?) && (r.1.Some? ==> r.1.value)
  {
    hide Complete, Consumed, Chunk;
  }

  /** The same file, not smaller than what was read of it, is read on from there: no further
      than its size and no more than the read gave, and nothing that was counted or alerted
      is forgotten. */
  lemma GrowthIsReadOn(s: State, parse: Line -> Option<Id>, size: nat, log: seq<Byte>, reading: Reading)
    requires s.offset <= size
    ensures var r := Ingested(s, parse, Found(s.inode, size), log, reading).0;
            && r.inode == s.inode && r.firstContact == s.firstContact && r.lastMilestone == s.lastMilestone
            && s.offset <= r.offset <= size && s.count <= r.count
            && (reading.AtMost? ==> r.offset <= s.offset + reading.most)
            && (r.offset > s.offset ==> r.offset <= |log| && log[r.offset - 1] == NEWLINE)
  {
    hide CountAll, Ids, Complete;
    if reading.AtMost? && s.offset < size {
      var lines := Complete(Chunk(log, s.offset, size, reading.most));
      CountsGrow(Tally(s.count, s.ring), Ids(parse, lines));
    }
  }

  /** An ingestion fails exactly when there is something to read and reading fails;
      otherwise it says whether it changed the state. A missing file changes nothing. */
  lemma IngestReports(s: State, parse: Line -> Option<Id>, stat: Stat, log: seq<Byte>, reading: Reading)
    ensures var (r, changed) := Ingested(s, parse, stat, log, reading);
            var from := if stat.Found? && stat.inode == s.inode && s.offset <= stat.size then s.offset else 0;
            && (changed.None? <==> stat.Found? && from < stat.size && reading.Fails?)
            && (changed.Some? ==> (changed.value <==> r != s))
            && (stat.Missing? ==> r == s)
  {
    hide CountAll, Ids, Complete;
  }

  /** Everything known is about this file and true of it. */
  ghost predicate Settled(w: World, parse: Line -> Option<Id>, inode: nat) {
    && w.state.inode == inode && (forall s :: s in w.saved ==> s.inode == inode)
    && AllFaithful(w, parse, inode)
  }

  lemma StepStaysSettled(w: World, parse: Line -> Option<Id>, inode: nat, step: nat, e: Event)
    requires Settled(w, parse, inode)
    ensures Settled(Apply(w, parse, inode, step, e), parse, inode)
  {
    hide Ingested, Delivered, Crossed, Faithful;
    StepIsFaithful(w, parse, inode, step, e);
    if e.Poll? {
      var s := Ingested(w.state, parse, Found(inode, |w.log|), w.log, e.reading).0;
      IngestKeepsMilestone(w.state, parse, inode, w.log, e.reading);
      DeliveringCounts(s, step, e.firstOk, e.milestoneOk);
    }
  }

  lemma {:induction false} RunStaysSettled(w: World, parse: Line -> Option<Id>, inode: nat, step: nat,
                                           events: seq<Event>)
    requires Settled(w, parse, inode)
    ensures Settled(RunFrom(w, parse, inode, step, events), parse, inode)
  {
    hide Apply, Settled;
    if events != [] {
      RunStaysSettled(w, parse, inode, step, events[..|events| - 1]);
      StepStaysSettled(RunFrom(w, parse, inode, step, events[..|events| - 1]), parse, inode, step,
                       events[|events| - 1]);
    }
  }

  /** What happens after a file was truncated in place and filled with other content, if a
      poll finds it smaller than what was read of it: a poll that reads all of it starts
      over, and the tally is that of the new content alone; it stays so over any further
      growth, short reads, failures and restarts from a state saved since. */
  lemma TruncationStartsOver(w: World, parse: Line -> Option<Id>, inode: nat, step: nat, content: seq<Byte>,
                             e: Event, events: seq<Event>)
    requires w.state.inode == inode && |content| < w.state.offset
    requires e.Poll? && e.reading.AtMost? && |content| <= e.reading.most
    ensures var p := Polled(w.(log := content, saved := []), parse, inode, step, e);
            && Tally(p.state.count, p.state.ring) == Batch(parse, content)
            && var r := RunFrom(p, parse, inode, step, events);
               r.state.inode == inode && Faithful(r.state, parse, r.log)
  {
    hide Batch, Ingested, Delivered, Crossed, Faithful, Apply;
    var t := w.(log := content, saved := []);
    var p := Polled(t, parse, inode, step, e);
    var stat := Found(inode, |content|);
    var first := Ingested(Fresh(inode), parse, stat, content, e.reading);
    var seen := Ingested(w.state, parse, stat, content, e.reading);
    ResetForgets(w.state, parse, inode, |content|, content, e.reading);
    FreshIsFaithful(inode, parse, content);
    FullPollCatchesUp(Fresh(inode), parse, inode, content, e.reading.most);
    IngestIsFaithful(Fresh(inode), parse, inode, content, e.reading);
    GrowthIsReadOn(Fresh(inode), parse, |content|, content, e.reading);
    IngestReports(w.state, parse, stat, content, e.reading);
    DeliveringCounts(seen.0, step, e.firstOk, e.milestoneOk);
    SameTally(first.0, p.state, parse, content);
    RunStaysSettled(p, parse, inode, step, events);
  }

  lemma SameTally(s: State, d: State, parse: Line -> Option<Id>, log: seq<Byte>)
    requires d.offset == s.offset && d.count == s.count && d.ring == s.ring
    ensures Faithful(d, parse, log) <==> Faithful(s, parse, log)
  {
  }

  /** A file that was truncated and has grown past what was read of it is not noticed: it is
      read on from the old offset, here in the middle of a line. */
  lemma RegrownFileIsMisread(parse: Line -> Option<Id>)
    requires parse([65]) == Some("a") && parse([66, 66]) == Some("b")
    ensures var s := State(1, 2, 1, true, 0, ["a"]); var content := [66, 66, NEWLINE];
            && Faithful(s, parse, [65, NEWLINE])
            && Ingested(s, parse, Found(1, 3), content, AtMost(3)) == (State(1, 3, 1, true, 0, ["a"]), Some(true))
            && Batch(parse, content) == Tally(1, ["b"])
  {
    hide Ids;
    NoLines(parse, []);
    OneLineLog(parse, [65], "a");
    OneLineLog(parse, [66, 66], "b");
    var log: seq<Byte> := [65, NEWLINE];
    assert log == [65] + [NEWLINE] && log[..2] == log;
    var content: seq<Byte> := [66, 66, NEWLINE];
    assert content == [66, 66] + [NEWLINE];
    EmptyLinesCountNothing(parse, []);
    assert content[2..3] == [NEWLINE] && [NEWLINE] + [] == [NEWLINE];
  }

  lemma OneLineLog(parse: Line -> Option<Id>, line: Line, id: Id)
    requires line != [] && parse(line) == Some(id) && forall i :: 0 <= i < |line| ==> line[i] != NEWLINE
    ensures Batch(parse, line + [NEWLINE]) == Tally(1, [id])
  {
    hide Ids;
    IdsStep(parse, line, []);
    NoLines(parse, []);
    assert line + [NEWLINE] + [] == line + [NEWLINE] && [id] + [] == [id] && [id][1..] == [];
    assert Ids(parse, line + [NEWLINE]) == [id];
    assert CountAll(ZERO, [id]) == CountAll(Count(ZERO, id), []);
    assert [] + [id] == [id];
  }

  // -------------------------------------------------------------------------
  // Alerts
  // -------------------------------------------------------------------------

  /** All milestones up to `last`. */
  function UpTo(last: nat, step: nat): seq<nat> { if step == 0 then [] else Multiples(1, last / step, step) }

  /** After a successful delivery the last milestone is the largest multiple of the step
      that is not above the count. */
  lemma DeliveredIsLatest(s: State, step: nat, firstOk: bool)
    requires step > 0 && s.lastMilestone % step == 0 && s.lastMilestone <= s.count
    ensures Delivered(s, step, firstOk, true).lastMilestone == s.count / step * step
    ensures UpTo(s.lastMilestone, step) + Crossed(s.lastMilestone, s.count, step) == UpTo(s.count, step)
  {
    QuotientBound(s.lastMilestone / step, s.count, step);
    assert s.lastMilestone / step * step == s.lastMilestone;
    MultiplesConcat(1, s.lastMilestone / step, s.count / step, step);
  }

  /** The first message is reported once there is one, if the notifier works, and stays so. */
  lemma FirstMessageIsReported(s: State, step: nat, firstOk: bool, milestoneOk: bool)
    ensures Delivered(s, step, firstOk, milestoneOk).firstContact <==> s.firstContact || (0 < s.count && firstOk)
  {
  }

  /** The last milestone is one and not above the count; the first message was there when
      it was reported. */
  predicate Sane(s: State, step: nat)
    requires step > 0
  {
    s.lastMilestone % step == 0 && s.lastMilestone <= s.count && (s.firstContact ==> 0 < s.count)
  }

  lemma {:induction false} CountsGrow(t: Tally, ids: seq<Id>)
    ensures t.count <= CountAll(t, ids).count
    decreases |ids|
  {
    if ids != [] {
      CountsGrow(Count(t, ids[0]), ids[1..]);
    }
  }

  lemma IngestIsSane(s: State, parse: Line -> Option<Id>, stat: Stat, log: seq<Byte>, reading: Reading, step: nat)
    requires step > 0 && Sane(s, step)
    ensures Sane(Ingested(s, parse, stat, log, reading).0, step)
  {
    hide Complete, Chunk, CountAll, Ids;
    if stat.Found? && reading.AtMost? {
      var s' := if Restarted(s, stat.inode, stat.size) then Fresh(stat.inode) else s;
      if stat.size > s'.offset {
        CountsGrow(Tally(s'.count, s'.ring), Ids(parse, Complete(Chunk(log, s'.offset, stat.size, reading.most))));
      }
    }
  }

  /** Every state belongs to this file, or is the default. */
  ghost predicate Good(w: World, parse: Line -> Option<Id>, inode: nat, step: nat)
    requires step > 0
  {
    && AllFaithful(w, parse, inode)
    && Sane(w.state, step) && (w.state.inode == inode || w.state == Fresh(0))
    && forall s :: s in w.saved ==> Sane(s, step) && (s.inode == inode || s == Fresh(0))
  }

  lemma IngestKeepsMilestone(s: State, parse: Line -> Option<Id>, inode: nat, log: seq<Byte>, reading: Reading)
    requires s.inode == inode ==> Faithful(s, parse, log)
    requires s.inode == inode || s == Fresh(0)
    ensures var r := Ingested(s, parse, Found(inode, |log|), log, reading).0;
            r.lastMilestone == s.lastMilestone && r.firstContact == s.firstContact && r.inode == inode
  {
    hide Complete, Chunk, CountAll, Ids, Batch;
  }

  lemma DeliverIsSane(s: State, step: nat, firstOk: bool, milestoneOk: bool)
    requires step > 0 && Sane(s, step)
    ensures Sane(Delivered(s, step, firstOk, milestoneOk), step)
  {
    hide Crossed;
    DeliveredIsLatest(s, step, firstOk);
    MultipleOf(s.count / step, step);
    if Crossed(s.lastMilestone, s.count, step) != [] {
      HighestDue(s.lastMilestone, s.count, step);
    }
  }

  lemma StepIsGood(w: World, parse: Line -> Option<Id>, inode: nat, step: nat, e: Event)
    requires step > 0 && inode != 0 && Good(w, parse, inode, step)
    ensures Good(Apply(w, parse, inode, step, e), parse, inode, step)
  {
    hide Ingested, Delivered, Crossed, Faithful, Sane;
    StepIsFaithful(w, parse, inode, step, e);
    if e.Poll? {
      var s := Ingested(w.state, parse, Found(inode, |w.log|), w.log, e.reading).0;
      IngestKeepsMilestone(w.state, parse, inode, w.log, e.reading);
      IngestIsSane(w.state, parse, Found(inode, |w.log|), w.log, e.reading, step);
      DeliverIsSane(s, step, e.firstOk, e.milestoneOk);
      DeliveringCounts(s, step, e.firstOk, e.milestoneOk);
    }
  }

  lemma {:induction false} RunIsGood(parse: Line -> Option<Id>, inode: nat, step: nat, events: seq<Event>)
    requires step > 0 && inode != 0
    ensures Good(Run(parse, inode, step, events), parse, inode, step)
  {
    hide Apply;
    if events == [] {
      MultipleOf(0, step);
    } else {
      RunIsGood(parse, inode, step, events[..|events| - 1]);
      StepIsGood(Run(parse, inode, step, events[..|events| - 1]), parse, inode, step, events[|events| - 1]);
    }
  }

  /** Over every run, nothing is recorded as reported that was not there to report. */
  lemma ReportsAreEarned(parse: Line -> Option<Id>, inode: nat, step: nat, events: seq<Event>)
    requires step > 0 && inode != 0
    ensures var s := Run(parse, inode, step, events).state;
            (s.firstContact ==> 0 < s.count) && s.lastMilestone <= s.count && s.lastMilestone % step == 0
  {
    hide Run;
    RunIsGood(parse, inode, step, events);
  }
}
