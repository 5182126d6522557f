/**
 The durable work journal of one target (crates/aqua-matrix-agent/src/durable.rs): a list
 of accepted messages in memory and its image on disk, rewritten whole on every change.
 A rewrite goes through a temporary file and a rename, so it takes effect entirely or, when
 it fails, not at all; a failure is only logged.
 */
module WorkJournal {
  import opened Basics

  datatype WorkState = Pending | ToDeliver(text: string)

  datatype WorkItem = WorkItem(eventId: string, roomId: string, tsMs: nat, msgtype: string, body: string,
                               state: WorkState, sender: Option<string>)

  // -------------------------------------------------------------------------
  // Lists of items
  // -------------------------------------------------------------------------

  predicate Has(items: seq<WorkItem>, id: string) { exists i :: 0 <= i < |items| && items[i].eventId == id }

  /** The position of the first item with this id, or the length. */
  function Position(items: seq<WorkItem>, id: string): (k: nat)
    ensures k <= |items|
  {
    if items == [] || items[0].eventId == id then 0 else 1 + Position(items[1..], id)
  }

  function Without(items: seq<WorkItem>, id: string): seq<WorkItem> {
    if items == [] then []
    else (if items[0].eventId == id then [] else [items[0]]) + Without(items[1..], id)
  }

  function Select(items: seq<WorkItem>, pending: bool): seq<WorkItem> {
    if items == [] then []
    else (if items[0].state.Pending? == pending then [items[0]] else []) + Select(items[1..], pending)
  }

  // -------------------------------------------------------------------------
  // The journal and its operations
  // -------------------------------------------------------------------------

  datatype Op =
    | Enqueue(item: WorkItem)
    | SetToDeliver(id: string, text: string)
    | MarkDone(id: string)
    | Restart

  /** The list in memory, and the parsed image on disk: `None` if absent or unreadable. */
  datatype State = State(items: seq<WorkItem>, disk: Option<seq<WorkItem>>)
  {
    function Load(): seq<WorkItem> { if disk.Some? then disk.value else [] }

    /** The list after the operation. */
    function Items(op: Op): seq<WorkItem> {
      match op
      case Enqueue(item) => if Has(items, item.eventId) then items else items + [item]
      case SetToDeliver(id, text) =>
        var k := Position(items, id);
        if k < |items| then items[k := items[k].(state := ToDeliver(text))] else items
      case MarkDone(id) => Without(items, id)
      case Restart => Load()
    }

    /** Whether the operation rewrites the file. */
    predicate Writes(op: Op) {
      match op
      case Enqueue(item) => !Has(items, item.eventId)
      case SetToDeliver(id, _) => Position(items, id) < |items|
      case MarkDone(id) => |Without(items, id)| != |items|
      case Restart => false
    }

    function Apply(op: Op, written: bool): State {
      State(Items(op), if Writes(op) && written then Some(Items(op)) else disk)
    }
  }

  class Disk {
    var image: Option<seq<WorkItem>>
    /** Whether each attempt to rewrite the file succeeds. */
    const succeeds: nat -> bool
    var attempts: nat

    constructor (image: Option<seq<WorkItem>>, succeeds: nat -> bool)
      ensures this.image == image && this.succeeds == succeeds && attempts == 0
    {
      this.image, this.succeeds, attempts := image, succeeds, 0;
    }

    method Persist(items: seq<WorkItem>)
      modifies this
      ensures image == if succeeds(old(attempts)) then Some(items) else old(image)
    {
      if succeeds(attempts) {
        image := Some(items);
      }
      attempts := attempts + 1;
    }
  }

  class Journal {
    const disk: Disk
    var items: seq<WorkItem>

    function View(): State
      reads this, disk
    {
      State(items, disk.image)
    }

    /** Whatever is on disk, and nothing if there is no readable file. Writes nothing. */
    constructor LoadOrEmpty(disk: Disk)
      ensures this.disk == disk && View() == State(State([], disk.image).Load(), disk.image)
    {
      this.disk := disk;
      items := if disk.image.Some? then disk.image.value else [];
    }

    method Enqueue(item: WorkItem) returns (added: bool)
      modifies this, disk
      ensures View() == old(View()).Apply(Op.Enqueue(item), old(disk.succeeds(disk.attempts)))
      ensures added == !Has(old(items), item.eventId)
    {
      var k := Find(items, item.eventId);
      if k < |items| {
        return false;
      }
      items := items + [item];
      disk.Persist(items);
      added := true;
    }

    method SetToDeliver(id: string, text: string)
      modifies this, disk
      ensures View() == old(View()).Apply(Op.SetToDeliver(id, text), old(disk.succeeds(disk.attempts)))
    {
      var k := Find(items, id);
      if k < |items| {
        items := items[k := items[k].(state := ToDeliver(text))];
        disk.Persist(items);
      }
    }

    method MarkDone(id: string)
      modifies this, disk
      ensures View() == old(View()).Apply(Op.MarkDone(id), old(disk.succeeds(disk.attempts)))
    {
      var before := |items|;
      var kept := Retain(items, id);
      items := kept;
      if |items| != before {
        disk.Persist(items);
      } else {
        WithoutNothing(old(items), id);
      }
    }

    method PendingWork() returns (r: seq<WorkItem>)
      ensures r == Select(items, true)
    {
      r := Filter(items, true);
    }

    method PendingDeliveries() returns (r: seq<WorkItem>)
      ensures r == Select(items, false)
    {
      r := Filter(items, false);
    }
  }

  method Find(items: seq<WorkItem>, id: string) returns (k: nat)
    ensures k == Position(items, id) && (k < |items| <==> Has(items, id))
  {
    k := 0;
    while k < |items| && items[k].eventId != id
      invariant k <= |items| && Position(items, id) == k + Position(items[k..], id)
      invariant forall i :: 0 <= i < k ==> items[i].eventId != id
    {
      assert items[k..][1..] == items[k + 1..];
      k := k + 1;
    }
  }

  method Retain(items: seq<WorkItem>, id: string) returns (kept: seq<WorkItem>)
    ensures kept == Without(items, id)
  {
    kept := [];
    assert items[0..] == items;
    for i := 0 to |items|
      invariant kept + Without(items[i..], id) == Without(items, id)
    {
      assert items[i..][0] == items[i] && items[i..][1..] == items[i + 1..];
      Regroup(kept, if items[i].eventId == id then [] else [items[i]], Without(items[i + 1..], id));
      if items[i].eventId != id {
        kept := kept + [items[i]];
      }
    }
    assert items[|items|..] == [] && kept + [] == kept;
  }

  method Filter(items: seq<WorkItem>, pending: bool) returns (kept: seq<WorkItem>)
    ensures kept == Select(items, pending)
  {
    kept := [];
    assert items[0..] == items;
    for i := 0 to |items|
      invariant kept + Select(items[i..], pending) == Select(items, pending)
    {
      assert items[i..][0] == items[i] && items[i..][1..] == items[i + 1..];
      Regroup(kept, if items[i].state.Pending? == pending then [items[i]] else [], Select(items[i + 1..], pending));
      if items[i].state.Pending? == pending {
        kept := kept + [items[i]];
      }
    }
    assert items[|items|..] == [] && kept + [] == kept;
  }

  lemma {:induction false} WithoutNothing(items: seq<WorkItem>, id: string)
    ensures |Without(items, id)| <= |items|
    ensures |Without(items, id)| == |items| ==> Without(items, id) == items
  {
    if items != [] {
      WithoutNothing(items[1..], id);
    }
  }

  /** The file is rewritten exactly when a new message is accepted, or when the message that
      was answered or is done is in the list; a restart writes nothing. */
  lemma WritesIff(s: State, op: Op)
    ensures s.Writes(op) <==>
            match op
            case Enqueue(item) => !Has(s.items, item.eventId)
            case SetToDeliver(id, _) => Has(s.items, id)
            case MarkDone(id) => Has(s.items, id)
            case Restart => false
    ensures !s.Writes(op) ==> s.Apply(op, true).disk == s.disk
  {
    match op {
      case SetToDeliver(id, _) => PositionFinds(s.items, id);
      case MarkDone(id) => DropsIff(s.items, id);
      case _ =>
    }
  }

  lemma {:induction false} DropsIff(items: seq<WorkItem>, id: string)
    ensures |Without(items, id)| <= |items|
    ensures |Without(items, id)| == |items| <==> !Has(items, id)
  {
    if items != [] {
      DropsIff(items[1..], id);
      assert forall i :: 0 < i < |items| ==> items[i] == items[1..][i - 1];
      assert forall i :: 0 <= i < |items[1..]| ==> items[1..][i] == items[i + 1];
    }
  }

  // -------------------------------------------------------------------------
  // Runs
  // -------------------------------------------------------------------------

  /** One operation, and whether a rewrite would succeed at that moment. */
  datatype Step = Step(op: Op, written: bool)

  function Run(s: State, steps: seq<Step>): State
    decreases |steps|
  {
    if steps == [] then s else Run(s.Apply(steps[0].op, steps[0].written), steps[1..])
  }

  function Lookup(items: seq<WorkItem>, id: string): Option<WorkItem> {
    var k := Position(items, id);
    if k < |items| then Some(items[k]) else None
  }

  function Ids(items: seq<WorkItem>): seq<string> { seq(|items|, i requires 0 <= i < |items| => items[i].eventId) }

  ghost predicate Unique<T>(xs: seq<T>) { forall i, j :: 0 <= i < j < |xs| ==> xs[i] != xs[j] }

  /** What a restart would load is what is in memory. */
  ghost predicate InSync(s: State) { s.Load() == s.items }

  ghost predicate AllWritten(steps: seq<Step>) { forall i :: 0 <= i < |steps| ==> steps[i].written }

  // -------------------------------------------------------------------------
  // The life of one message
  // -------------------------------------------------------------------------

  /** What an operation does to the message `id` alone: accepted, answered, done. */
  function Life(was: Option<WorkItem>, id: string, op: Op): Option<WorkItem> {
    match op
    case Enqueue(item) => if item.eventId == id && was.None? then Some(item) else was
    case SetToDeliver(i, text) => if i == id && was.Some? then Some(was.value.(state := ToDeliver(text))) else was
    case MarkDone(i) => if i == id then None else was
    case Restart => was
  }

  function LifeRun(was: Option<WorkItem>, id: string, steps: seq<Step>): Option<WorkItem>
    decreases |steps|
  {
    if steps == [] then was else LifeRun(Life(was, id, steps[0].op), id, steps[1..])
  }

  /** What an operation does to the ids, in order of arrival. */
  function Arrivals(ids: seq<string>, op: Op): seq<string> {
    match op
    case Enqueue(item) => if item.eventId in ids then ids else ids + [item.eventId]
    case SetToDeliver(_, _) => ids
    case MarkDone(id) => Dropped(ids, id)
    case Restart => ids
  }

  function ArrivalsRun(ids: seq<string>, steps: seq<Step>): seq<string>
    decreases |steps|
  {
    if steps == [] then ids else ArrivalsRun(Arrivals(ids, steps[0].op), steps[1..])
  }

  function Dropped(ids: seq<string>, id: string): seq<string> {
    if ids == [] then [] else (if ids[0] == id then [] else [ids[0]]) + Dropped(ids[1..], id)
  }

  lemma {:induction false} PositionFinds(items: seq<WorkItem>, id: string)
    ensures var k := Position(items, id);
            && (k < |items| <==> Has(items, id)) && (k < |items| ==> items[k].eventId == id)
            && forall i :: 0 <= i < k ==> items[i].eventId != id
  {
    if items != [] && items[0].eventId != id {
      PositionFinds(items[1..], id);
      if Has(items, id) {
        var i :| 0 <= i < |items| && items[i].eventId == id;
        assert items[1..][i - 1].eventId == id;
      }
      forall i | 0 <= i < Position(items, id)
        ensures items[i].eventId != id
      {
        if i > 0 {
          assert items[1..][i - 1] == items[i];
        }
      }
    }
  }

  lemma HasIds(items: seq<WorkItem>, id: string)
    ensures Has(items, id) <==> id in Ids(items)
  {
    forall i | 0 <= i < |items|
      ensures Ids(items)[i] == items[i].eventId
    {
    }
    if id in Ids(items) {
      var i :| 0 <= i < |items| && Ids(items)[i] == id;
      assert items[i].eventId == id;
    }
  }

  /** With distinct ids, looking up means being in the list. */
  lemma LookupIs(items: seq<WorkItem>, id: string, k: nat)
    requires Unique(Ids(items)) && k < |items| && items[k].eventId == id
    ensures Lookup(items, id) == Some(items[k])
  {
    PositionFinds(items, id);
    var p := Position(items, id);
    assert Ids(items)[p] == id && Ids(items)[k] == id;
  }

  lemma LookupNone(items: seq<WorkItem>, id: string)
    ensures Lookup(items, id).None? <==> id !in Ids(items)
    ensures Lookup(items, id).Some? ==> Lookup(items, id).value in items && Lookup(items, id).value.eventId == id
  {
    PositionFinds(items, id);
    HasIds(items, id);
  }

  lemma LookupCons(item: WorkItem, items: seq<WorkItem>, id: string)
    ensures Lookup([item] + items, id) == if item.eventId == id then Some(item) else Lookup(items, id)
    ensures Ids([item] + items) == [item.eventId] + Ids(items)
  {
    assert ([item] + items)[1..] == items;
  }

  lemma {:induction false} WithoutFacts(items: seq<WorkItem>, id: string, other: string)
    ensures Ids(Without(items, id)) == Dropped(Ids(items), id)
    ensures Lookup(Without(items, id), other) == if other == id then None else Lookup(items, other)
  {
    hide Lookup, Ids;
    if items == [] {
      NothingFound(other);
    } else {
      var rest := items[1..];
      WithoutFacts(rest, id, other);
      assert items == [items[0]] + rest;
      LookupCons(items[0], rest, other);
      LookupCons(items[0], Without(rest, id), other);
      DroppedCons(items[0].eventId, Ids(rest), id);
      assert [] + Without(rest, id) == Without(rest, id);
    }
  }

  lemma NothingFound(id: string)
    ensures Lookup([], id) == None && Ids([]) == []
  {
  }

  lemma DroppedCons(first: string, rest: seq<string>, id: string)
    ensures Dropped([first] + rest, id) == if first == id then Dropped(rest, id) else [first] + Dropped(rest, id)
  {
    assert ([first] + rest)[1..] == rest;
  }

  lemma {:induction false} DroppedFrom(ids: seq<string>, id: string)
    ensures forall x :: x in Dropped(ids, id) ==> x in ids && x != id
  {
    if ids != [] {
      DroppedFrom(ids[1..], id);
    }
  }

  lemma {:induction false} DroppedUnique(ids: seq<string>, id: string)
    requires Unique(ids)
    ensures Unique(Dropped(ids, id))
  {
    if ids != [] {
      var rest, kept := ids[1..], Dropped(ids[1..], id);
      forall i, j | 0 <= i < j < |rest|
        ensures rest[i] != rest[j]
      {
        assert ids[i + 1] != ids[j + 1];
      }
      DroppedUnique(rest, id);
      DroppedFrom(rest, id);
      if ids[0] != id {
        forall k | 0 <= k < |kept|
          ensures kept[k] != ids[0]
        {
          assert kept[k] in Dropped(rest, id);
          var i :| 0 <= i < |rest| && rest[i] == kept[k];
          assert ids[0] != ids[i + 1];
        }
      }
    }
  }

  lemma {:induction false} LookupSnoc(items: seq<WorkItem>, item: WorkItem, id: string)
    requires !Has(items, item.eventId)
    ensures Lookup(items + [item], id) == if item.eventId == id then Some(item) else Lookup(items, id)
  {
    if items == [] {
      assert [] + [item] == [item] && [item][1..] == [];
    } else {
      assert (items + [item])[1..] == items[1..] + [item];
      forall i | 0 <= i < |items[1..]| ensures items[1..][i].eventId != item.eventId {
        assert items[i + 1].eventId != item.eventId;
      }
      LookupSnoc(items[1..], item, id);
      assert items[0].eventId != item.eventId;
    }
  }

  lemma {:induction false} LookupUpdate(items: seq<WorkItem>, id: string, item: WorkItem, other: string)
    requires Position(items, id) < |items| && item.eventId == id
    ensures Lookup(items[Position(items, id) := item], other)
         == if other == id then Some(item) else Lookup(items, other)
  {
    if items[0].eventId == id {
      assert items[0 := item][1..] == items[1..];
    } else {
      LookupUpdate(items[1..], id, item, other);
      var k := Position(items[1..], id);
      assert items[k + 1 := item][1..] == items[1..][k := item];
    }
  }

  /** One operation, as one message sees it. */
  lemma OneStep(s: State, op: Op, id: string)
    requires InSync(s)
    ensures Lookup(s.Items(op), id) == Life(Lookup(s.items, id), id, op)
    ensures Ids(s.Items(op)) == Arrivals(Ids(s.items), op)
  {
    hide Lookup;
    match op
    case Enqueue(item) =>
      PositionFinds(s.items, item.eventId);
      LookupNone(s.items, item.eventId);
      HasIds(s.items, item.eventId);
      if !Has(s.items, item.eventId) {
        LookupSnoc(s.items, item, id);
        assert Ids(s.items + [item]) == Ids(s.items) + [item.eventId];
      }
    case SetToDeliver(i, text) =>
      PositionFinds(s.items, i);
      LookupNone(s.items, i);
      HasIds(s.items, i);
      var k := Position(s.items, i);
      if k < |s.items| {
        LookupUpdate(s.items, i, s.items[k].(state := ToDeliver(text)), id);
        LookupFirst(s.items, i);
        assert Ids(s.Items(op)) == Ids(s.items);
      }
    case MarkDone(i) =>
      WithoutFacts(s.items, i, id);
    case Restart =>
  }

  lemma LookupFirst(items: seq<WorkItem>, id: string)
    requires Position(items, id) < |items|
    ensures Lookup(items, id) == Some(items[Position(items, id)])
  {
  }

  lemma ArrivalsUnique(ids: seq<string>, op: Op)
    requires Unique(ids)
    ensures Unique(Arrivals(ids, op))
  {
    if op.MarkDone? {
      DroppedUnique(ids, op.id);
    }
  }

  lemma StepInSync(s: State, op: Op)
    requires InSync(s)
    ensures InSync(s.Apply(op, true))
  {
    if op.MarkDone? {
      WithoutNothing(s.items, op.id);
    }
  }

  /** Over any run of operations and restarts whose rewrites succeed, every message has
      the life its own operations give it, whatever happens to the others and however
      often the process restarts; ids stay distinct and in order of arrival. */
  lemma {:induction false} LivesAreIndependent(s: State, steps: seq<Step>, id: string)
    requires InSync(s) && Unique(Ids(s.items)) && AllWritten(steps)
    ensures var after := Run(s, steps);
            && InSync(after) && Unique(Ids(after.items))
            && Lookup(after.items, id) == LifeRun(Lookup(s.items, id), id, steps)
            && Ids(after.items) == ArrivalsRun(Ids(s.items), steps)
    decreases |steps|
  {
    hide Lookup, Life, Arrivals, Ids, State.Apply, InSync, Unique;
    if steps != [] {
      var s' := s.Apply(steps[0].op, true);
      OneStep(s, steps[0].op, id);
      AppliedItems(s, steps[0].op);
      StepInSync(s, steps[0].op);
      ArrivalsUnique(Ids(s.items), steps[0].op);
      LivesAreIndependent(s', steps[1..], id);
    }
  }

  lemma AppliedItems(s: State, op: Op)
    ensures s.Apply(op, true).items == s.Items(op)
  {
  }

  ghost predicate Mentions(steps: seq<Step>, id: string, done: bool) {
    exists i :: 0 <= i < |steps| && if done then steps[i].op == MarkDone(id)
                                    else steps[i].op.Enqueue? && steps[i].op.item.eventId == id
  }

  lemma {:induction false} LifeFacts(was: Option<WorkItem>, id: string, steps: seq<Step>)
    ensures was.Some? && !Mentions(steps, id, true) ==>
              && LifeRun(was, id, steps).Some?
              && LifeRun(was, id, steps).value.(state := was.value.state) == was.value
              && (was.value.state.ToDeliver? ==> LifeRun(was, id, steps).value.state.ToDeliver?)
    ensures was.None? && !Mentions(steps, id, false) ==> LifeRun(was, id, steps).None?
    decreases |steps|
  {
    if steps != [] {
      LifeFacts(Life(was, id, steps[0].op), id, steps[1..]);
      if Mentions(steps[1..], id, true) {
        var i :| 0 <= i < |steps[1..]| && steps[1..][i].op == MarkDone(id);
        assert steps[i + 1].op == MarkDone(id);
      }
      if Mentions(steps[1..], id, false) {
        var i :| 0 <= i < |steps[1..]| && steps[1..][i].op.Enqueue? && steps[1..][i].op.item.eventId == id;
        assert steps[i + 1].op.Enqueue?;
      }
    }
  }

  lemma {:induction false} SelectIs(items: seq<WorkItem>, pending: bool, item: WorkItem)
    ensures item in Select(items, pending) <==> item in items && item.state.Pending? == pending
    ensures |Select(items, true)| + |Select(items, false)| == |items|
  {
    if items != [] {
      SelectIs(items[1..], pending, item);
      assert items == [items[0]] + items[1..];
    }
  }

  /** The journal's promise: an accepted message, unchanged but for its state, is owed
      either an answer or a delivery until it is done; once answered it is only ever
      delivered, never run again; once done it does not come back unless accepted again. */
  lemma JournalPromise(s: State, steps: seq<Step>, id: string)
    requires InSync(s) && Unique(Ids(s.items)) && AllWritten(steps)
    ensures var was, items := Lookup(s.items, id), Run(s, steps).items;
            && (was.Some? && !Mentions(steps, id, true) ==>
                  && Lookup(items, id).Some? && Lookup(items, id).value.(state := was.value.state) == was.value
                  && (|| Lookup(items, id).value in Select(items, true)
                      || Lookup(items, id).value in Select(items, false)))
            && (was.Some? && was.value.state.ToDeliver? && !Mentions(steps, id, true) ==>
                  && Lookup(items, id).value in Select(items, false)
                  && forall item :: item in Select(items, true) ==> item.eventId != id)
            && (was.None? && !Mentions(steps, id, false) ==> id !in Ids(items))
  {
    hide Lookup, Ids, Run, InSync, Select, Mentions, LifeRun;
    LivesAreIndependent(s, steps, id);
    LifeFacts(Lookup(s.items, id), id, steps);
    var items := Run(s, steps).items;
    LookupNone(items, id);
    if Lookup(items, id).Some? {
      var it := Lookup(items, id).value;
      SelectIs(items, true, it);
      SelectIs(items, false, it);
      forall item | item in Select(items, true) && item.eventId == id
        ensures item == it
      {
        SelectIs(items, true, item);
        var k :| 0 <= k < |items| && items[k] == item;
        LookupIs(items, id, k);
      }
    }
  }

  // -------------------------------------------------------------------------
  // When rewrites may fail
  // -------------------------------------------------------------------------

  /** Step `i` of the run changed the file. */
  ghost predicate WroteAt(s: State, steps: seq<Step>, i: nat)
    requires i < |steps|
  {
    steps[i].written && Run(s, steps[..i]).Writes(steps[i].op)
  }

  /** The file holds the list as it was after the first `k` steps, the last of which
      wrote it, and nothing wrote it since. */
  ghost predicate DiskFrom(s: State, steps: seq<Step>, k: nat) {
    && k <= |steps| && (k > 0 ==> WroteAt(s, steps, k - 1))
    && (forall i :: k <= i < |steps| ==> !WroteAt(s, steps, i))
    && Run(s, steps).disk == if k == 0 then s.disk else Some(Run(s, steps[..k]).items)
  }

  lemma {:induction false} RunSnoc(s: State, steps: seq<Step>, step: Step)
    ensures Run(s, steps + [step]) == Run(s, steps).Apply(step.op, step.written)
    decreases |steps|
  {
    hide State.Apply;
    if steps == [] {
      assert [] + [step] == [step] && [step][1..] == [];
    } else {
      assert (steps + [step])[1..] == steps[1..] + [step];
      RunSnoc(s.Apply(steps[0].op, steps[0].written), steps[1..], step);
    }
  }

  /** Whatever fails, the file equals some past list in memory: the one at the last
      rewrite that succeeded. */
  lemma {:induction false} DiskIsPast(s: State, steps: seq<Step>)
    ensures exists k: nat :: DiskFrom(s, steps, k)
  {
    hide Run, State.Items, State.Writes;
    if steps == [] {
      RunNothing(s);
      assert DiskFrom(s, steps, 0);
    } else {
      var n := |steps| - 1;
      var before := steps[..n];
      DiskIsPast(s, before);
      var k: nat :| DiskFrom(s, before, k);
      assert steps == before + [steps[n]];
      RunSnoc(s, before, steps[n]);
      assert steps[..n + 1] == steps;
      if WroteAt(s, steps, n) {
        assert DiskFrom(s, steps, n + 1);
      } else {
        forall i | 0 <= i < n
          ensures WroteAt(s, before, i) <==> WroteAt(s, steps, i)
        {
          assert before[..i] == steps[..i];
        }
        assert before[..k] == steps[..k];
        assert DiskFrom(s, steps, k);
      }
    }
  }

  lemma RunNothing(s: State)
    ensures Run(s, []) == s
  {
  }

  /** A crash takes the list back to the last successful rewrite, no further. */
  lemma CrashGoesBackToTheLastWrite(s: State, steps: seq<Step>, k: nat)
    requires InSync(s) && DiskFrom(s, steps, k)
    ensures Run(s, steps + [Step(Restart, true)]).items == Run(s, steps[..k]).items
  {
    hide Run;
    RunSnoc(s, steps, Step(Restart, true));
    assert steps[..0] == [];
    RunNothing(s);
  }

  /** So the promise needs the writes: an answer whose rewrite failed is run again after
      a crash, and a message done without a rewrite is delivered again. */
  lemma FailedWriteRunsAgain(item: WorkItem, text: string)
    requires item.state.Pending?
    ensures var s := State([], None);
            var answered := [Step(Enqueue(item), true), Step(SetToDeliver(item.eventId, text), false)];
            && Select(Run(s, answered).items, true) == []
            && Select(Run(s, answered + [Step(Restart, true)]).items, true) == [item]
  {
    var s := State([], None);
    var enqueued, answer, crash := Step(Enqueue(item), true), Step(SetToDeliver(item.eventId, text), false),
                                   Step(Restart, true);
    RunNothing(s);
    RunSnoc(s, [], enqueued);
    RunSnoc(s, [enqueued], answer);
    RunSnoc(s, [enqueued, answer], crash);
    assert [] + [enqueued] == [enqueued] && [enqueued] + [answer] == [enqueued, answer];
    assert s.items == [] && !Has(s.items, item.eventId) && s.items + [item] == [item];
    assert s.Apply(enqueued.op, true) == State([item], Some([item]));
    assert [item][0 := item.(state := ToDeliver(text))] == [item.(state := ToDeliver(text))];
  }
}
