/**
 Counting the messages of an activity log (crates/aqua-activity-watch/src/main.rs): the
 ids of its complete lines, and the count that a bounded ring of recent ids keeps free of
 duplicates.
 */
module ActivityCount {
  import opened Basics

  type Line = seq<Byte>
  type Id = string

  const NEWLINE: Byte := 10
  const RECENT_IDS_CAP: nat := 512

  // -------------------------------------------------------------------------
  // Lines
  // -------------------------------------------------------------------------

  /** The position of the first newline, or the length. */
  function FirstNewline(bytes: seq<Byte>): (k: nat)
    ensures k <= |bytes| && (k < |bytes| ==> bytes[k] == NEWLINE) && forall i :: 0 <= i < k ==> bytes[i] != NEWLINE
  {
    if bytes == [] || bytes[0] == NEWLINE then 0 else 1 + FirstNewline(bytes[1..])
  }

  /** What a line contributes: blank, badly encoded and malformed lines nothing. */
  function IdOf(parse: Line -> Option<Id>, line: Line): seq<Id> {
    if line == [] then [] else match parse(line) case None => [] case Some(id) => [id]
  }

  /** The ids of the complete lines, in order. A partial last line is not looked at. */
  function Ids(parse: Line -> Option<Id>, bytes: seq<Byte>): seq<Id>
    decreases |bytes|
  {
    var k := FirstNewline(bytes);
    if k == |bytes| then [] else IdOf(parse, bytes[..k]) + Ids(parse, bytes[k + 1..])
  }

  /** The offset is where a line starts. */
  predicate Aligned(log: seq<Byte>, offset: nat) {
    offset <= |log| && (offset == 0 || log[offset - 1] == NEWLINE)
  }

  lemma IdsStep(parse: Line -> Option<Id>, line: Line, rest: seq<Byte>)
    requires forall i :: 0 <= i < |line| ==> line[i] != NEWLINE
    ensures Ids(parse, line + [NEWLINE] + rest) == IdOf(parse, line) + Ids(parse, rest)
  {
    hide IdOf;
    var bytes := line + [NEWLINE] + rest;
    assert bytes[|line|] == NEWLINE;
    assert forall i :: 0 <= i < |line| ==> bytes[i] == line[i];
    assert FirstNewline(bytes) == |line|;
    assert bytes[..|line|] == line && bytes[|line| + 1..] == rest;
  }

  lemma {:induction false} IdsConcat(parse: Line -> Option<Id>, a: seq<Byte>, b: seq<Byte>)
    requires Aligned(a, |a|)
    ensures Ids(parse, a + b) == Ids(parse, a) + Ids(parse, b)
    decreases |a|
  {
    hide IdOf, Ids;
    if a == [] {
      assert a + b == b;
      NoLines(parse, a);
    } else {
      assert a[|a| - 1] == NEWLINE;
      var k := FirstNewline(a);
      var line, rest := a[..k], a[k + 1..];
      assert a == line + [NEWLINE] + rest && a + b == line + [NEWLINE] + (rest + b);
      IdsStep(parse, line, rest);
      IdsStep(parse, line, rest + b);
      assert rest != [] ==> rest[|rest| - 1] == a[|a| - 1];
      IdsConcat(parse, rest, b);
    }
  }

  lemma NoLines(parse: Line -> Option<Id>, bytes: seq<Byte>)
    requires forall i :: 0 <= i < |bytes| ==> bytes[i] != NEWLINE
    ensures Ids(parse, bytes) == []
  {
  }

  /** Empty lines contribute nothing, whatever they would parse to. */
  lemma EmptyLinesCountNothing(parse: Line -> Option<Id>, rest: seq<Byte>)
    ensures Ids(parse, [NEWLINE] + rest) == Ids(parse, rest)
  {
    assert [] + [NEWLINE] + rest == [NEWLINE] + rest;
    IdsStep(parse, [], rest);
  }

  // -------------------------------------------------------------------------
  // The count and the ring
  // -------------------------------------------------------------------------

  datatype Tally = Tally(count: nat, ring: seq<Id>)

  const ZERO := Tally(0, [])

  function Push(ring: seq<Id>, id: Id): seq<Id> {
    var longer := ring + [id];
    if |longer| > RECENT_IDS_CAP then longer[1..] else longer
  }

  function Count(t: Tally, id: Id): Tally {
    if id in t.ring then t else Tally(t.count + 1, Push(t.ring, id))
  }

  /** One fold over a batch of ids. */
  function CountAll(t: Tally, ids: seq<Id>): Tally
    decreases |ids|
  {
    if ids == [] then t else CountAll(Count(t, ids[0]), ids[1..])
  }

  /** The tally of a whole log, read at once. */
  function Batch(parse: Line -> Option<Id>, log: seq<Byte>): Tally { CountAll(ZERO, Ids(parse, log)) }

  lemma {:induction false} CountConcat(t: Tally, a: seq<Id>, b: seq<Id>)
    ensures CountAll(t, a + b) == CountAll(CountAll(t, a), b)
    decreases |a|
  {
    hide Count;
    if a == [] {
      assert a + b == b;
    } else {
      assert (a + b)[1..] == a[1..] + b;
      CountConcat(Count(t, a[0]), a[1..], b);
    }
  }

  /** Reading a log in two steps, cut at a line, is reading it at once. */
  lemma BatchExtends(parse: Line -> Option<Id>, a: seq<Byte>, b: seq<Byte>)
    requires Aligned(a, |a|)
    ensures Batch(parse, a + b) == CountAll(Batch(parse, a), Ids(parse, b))
  {
    hide Ids, CountAll;
    IdsConcat(parse, a, b);
    CountConcat(ZERO, Ids(parse, a), Ids(parse, b));
  }

  // -------------------------------------------------------------------------
  // How exact the count is
  // -------------------------------------------------------------------------

  function Recent(counted: seq<Id>): seq<Id> {
    if |counted| <= RECENT_IDS_CAP then counted else counted[|counted| - RECENT_IDS_CAP..]
  }

  /** The ids that were counted, after those in `counted`, in order. */
  function Counted(counted: seq<Id>, ids: seq<Id>): seq<Id>
    decreases |ids|
  {
    if ids == [] then counted
    else Counted(if ids[0] in Recent(counted) then counted else counted + [ids[0]], ids[1..])
  }

  /** The count is how many ids were counted, the ring the last 512 of them. */
  lemma {:induction false} TallyIs(counted: seq<Id>, ids: seq<Id>)
    ensures CountAll(Tally(|counted|, Recent(counted)), ids)
         == Tally(|Counted(counted, ids)|, Recent(Counted(counted, ids)))
    decreases |ids|
  {
    hide Recent, Push;
    if ids != [] {
      var next := if ids[0] in Recent(counted) then counted else counted + [ids[0]];
      PushRecent(counted, ids[0]);
      TallyIs(next, ids[1..]);
    }
  }

  lemma PushRecent(counted: seq<Id>, id: Id)
    ensures Push(Recent(counted), id) == Recent(counted + [id])
  {
    var longer := counted + [id];
    if |counted| >= RECENT_IDS_CAP {
      var k := |counted| - RECENT_IDS_CAP;
      assert (counted[k..] + [id])[1..] == longer[k + 1..];
    }
  }

  function Distinct(ids: seq<Id>): set<Id> { set id | id in ids }

  ghost predicate NoRepeat(ids: seq<Id>) { forall i, j :: 0 <= i < j < |ids| ==> ids[i] != ids[j] }

  lemma {:induction false} DistinctSize(ids: seq<Id>)
    ensures |Distinct(ids)| <= |ids| && (|Distinct(ids)| == |ids| <==> NoRepeat(ids))
  {
    hide Distinct, NoRepeat;
    if ids == [] {
      NoIds();
    } else {
      var most, last := ids[..|ids| - 1], ids[|ids| - 1];
      DistinctSize(most);
      assert ids == most + [last];
      OneMoreId(most, last);
    }
  }

  lemma NoIds()
    ensures Distinct([]) == {} && NoRepeat([])
  {
  }

  lemma OneMoreId(most: seq<Id>, last: Id)
    ensures Distinct(most + [last]) == Distinct(most) + {last} && (last in Distinct(most) <==> last in most)
    ensures NoRepeat(most + [last]) <==> NoRepeat(most) && last !in most
  {
    var ids := most + [last];
    assert forall i :: 0 <= i < |most| ==> ids[i] == most[i];
    assert ids[|most|] == last;
    if NoRepeat(ids) {
      assert forall i :: 0 <= i < |most| ==> ids[i] != ids[|most|];
    }
  }

  lemma {:induction false} CountedIds(counted: seq<Id>, ids: seq<Id>)
    ensures Distinct(Counted(counted, ids)) == Distinct(counted) + Distinct(ids)
    decreases |ids|
  {
    hide Recent, Distinct;
    if ids == [] {
      NoIds();
    } else {
      var next := if ids[0] in Recent(counted) then counted else counted + [ids[0]];
      CountedIds(next, ids[1..]);
      FirstId(ids);
      OneMoreId(counted, ids[0]);
      RecentOnes(counted, ids[0]);
    }
  }

  lemma FirstId(ids: seq<Id>)
    requires ids != []
    ensures Distinct(ids) == {ids[0]} + Distinct(ids[1..])
  {
    assert ids == [ids[0]] + ids[1..];
  }

  lemma RecentOnes(counted: seq<Id>, id: Id)
    ensures id in Recent(counted) ==> id in Distinct(counted)
  {
  }

  lemma {:induction false} FewNeverRepeat(counted: seq<Id>, ids: seq<Id>)
    requires NoRepeat(counted) && |Distinct(counted) + Distinct(ids)| <= RECENT_IDS_CAP
    ensures NoRepeat(Counted(counted, ids))
    decreases |ids|
  {
    if ids != [] {
      var next := if ids[0] in Recent(counted) then counted else counted + [ids[0]];
      DistinctSize(counted);
      SubsetSize(Distinct(counted), Distinct(counted) + Distinct(ids));
      assert Recent(counted) == counted;
      assert Distinct(next) + Distinct(ids[1..]) <= Distinct(counted) + Distinct(ids);
      SubsetSize(Distinct(next) + Distinct(ids[1..]), Distinct(counted) + Distinct(ids));
      FewNeverRepeat(next, ids[1..]);
    }
  }

  lemma {:induction false} SubsetSize(a: set<Id>, b: set<Id>)
    requires a <= b
    ensures |a| <= |b|
  {
    if a != {} {
      var x :| x in a;
      SubsetSize(a - {x}, b - {x});
    }
  }

  /** The count never misses an id, and is the number of distinct ids exactly when no id
      was counted twice; with at most 512 distinct ids it always is. */
  lemma CountIsDistinctIff(ids: seq<Id>)
    ensures var n := CountAll(ZERO, ids).count;
            && n == |Counted([], ids)| && n >= |Distinct(ids)|
            && (n == |Distinct(ids)| <==> NoRepeat(Counted([], ids)))
            && (|Distinct(ids)| <= RECENT_IDS_CAP ==> n == |Distinct(ids)|)
  {
    hide Recent, CountAll, Counted;
    RecentNothing();
    TallyIs([], ids);
    CountedIds([], ids);
    assert Distinct([]) + Distinct(ids) == Distinct(ids);
    DistinctSize(Counted([], ids));
    if |Distinct(ids)| <= RECENT_IDS_CAP {
      FewNeverRepeat([], ids);
    }
  }

  lemma RecentNothing()
    ensures Recent([]) == []
  {
  }

  lemma {:induction false} AllNew(counted: seq<Id>, ids: seq<Id>)
    requires NoRepeat(counted + ids)
    ensures Counted(counted, ids) == counted + ids
    decreases |ids|
  {
    if ids != [] {
      assert (counted + ids)[|counted|] == ids[0];
      assert forall i :: 0 <= i < |counted| ==> (counted + ids)[i] == counted[i];
      assert counted + ids == (counted + [ids[0]]) + ids[1..];
      AllNew(counted + [ids[0]], ids[1..]);
    }
  }

  /** With more than 512 it need not be: an id that comes back after 512 others is
      counted again. */
  lemma LateRepeatIsCountedAgain(ids: seq<Id>)
    requires NoRepeat(ids) && |ids| == RECENT_IDS_CAP + 1
    ensures CountAll(ZERO, ids + [ids[0]]).count == |Distinct(ids + [ids[0]])| + 1
  {
    hide Recent, CountAll, Counted;
    RecentNothing();
    assert [] + ids == ids;
    AllNew([], ids);
    CountedConcat([], ids, [ids[0]]);
    ForgottenIsNew(ids);
    TallyIs([], ids + [ids[0]]);
    DistinctSize(ids);
    assert Distinct(ids + [ids[0]]) == Distinct(ids);
  }

  lemma {:induction false} CountedConcat(counted: seq<Id>, a: seq<Id>, b: seq<Id>)
    ensures Counted(counted, a + b) == Counted(Counted(counted, a), b)
    decreases |a|
  {
    hide Recent;
    if a == [] {
      assert a + b == b;
    } else {
      assert (a + b)[1..] == a[1..] + b;
      CountedConcat(if a[0] in Recent(counted) then counted else counted + [a[0]], a[1..], b);
    }
  }

  lemma ForgottenIsNew(ids: seq<Id>)
    requires NoRepeat(ids) && |ids| == RECENT_IDS_CAP + 1
    ensures Counted(ids, [ids[0]]) == ids + [ids[0]]
  {
    assert forall i :: 0 < i < |ids| ==> ids[i] != ids[0];
    assert [ids[0]][1..] == [];
    assert Counted(ids + [ids[0]], []) == ids + [ids[0]];
  }

  // -------------------------------------------------------------------------
  // Which logs are counted exactly
  // -------------------------------------------------------------------------

  /** How many ids were seen for the first time after position `f` and before `j`. */
  function NewBetween(ids: seq<Id>, f: nat, j: nat): int
    requires f < j <= |ids|
  {
    |Distinct(ids[..j])| - |Distinct(ids[..f + 1])|
  }

  /** No id returns after 512 other ids have appeared for the first time since it did. */
  ghost predicate ReturnsInTime(ids: seq<Id>) {
    forall f, j :: 0 <= f < j < |ids| && ids[f] == ids[j] ==> NewBetween(ids, f, j) < RECENT_IDS_CAP
  }

  /** The same for the last id alone. */
  ghost predicate LastInTime(ids: seq<Id>) {
    forall f :: 0 <= f < |ids| - 1 && ids[f] == ids[|ids| - 1] ==> NewBetween(ids, f, |ids| - 1) < RECENT_IDS_CAP
  }

  lemma ReturnsSnoc(ids: seq<Id>, x: Id)
    ensures ReturnsInTime(ids + [x]) <==> ReturnsInTime(ids) && LastInTime(ids + [x])
  {
    hide Distinct;
    var longer := ids + [x];
    forall f, j | 0 <= f < j < |ids|
      ensures NewBetween(longer, f, j) == NewBetween(ids, f, j) && longer[f] == ids[f] && longer[j] == ids[j]
    {
      assert longer[..j] == ids[..j] && longer[..f + 1] == ids[..f + 1];
    }
  }

  lemma CountedSnoc(ids: seq<Id>, x: Id)
    ensures var c := Counted([], ids);
            Counted([], ids + [x]) == if x in Recent(c) then c else c + [x]
  {
    hide Recent;
    CountedConcat([], ids, [x]);
    assert [x][1..] == [];
    assert Counted(if x in Recent(Counted([], ids)) then Counted([], ids) else Counted([], ids) + [x], [])
        == if x in Recent(Counted([], ids)) then Counted([], ids) else Counted([], ids) + [x];
  }

  lemma {:induction false} CountedPrefix(ids: seq<Id>, j: nat)
    requires j <= |ids|
    ensures Counted([], ids[..j]) <= Counted([], ids)
  {
    hide Counted, Recent;
    if j == |ids| {
      assert ids[..j] == ids;
    } else {
      var most := ids[..|ids| - 1];
      assert ids == most + [ids[|ids| - 1]] && most[..j] == ids[..j];
      CountedPrefix(most, j);
      CountedSnoc(most, ids[|ids| - 1]);
    }
  }

  lemma {:induction false} FirstPosition(ids: seq<Id>, x: Id) returns (f: nat)
    requires x in ids
    ensures f < |ids| && ids[f] == x && x !in ids[..f]
  {
    if ids[0] == x {
      f := 0;
    } else {
      assert ids == [ids[0]] + ids[1..];
      var g := FirstPosition(ids[1..], x);
      f := g + 1;
      assert ids[..f] == [ids[0]] + ids[1..][..g];
    }
  }

  lemma DistinctGrows(ids: seq<Id>, a: nat, b: nat)
    requires a <= b <= |ids|
    ensures |Distinct(ids[..a])| <= |Distinct(ids[..b])|
  {
    assert ids[..b] == ids[..a] + ids[a..b];
    SubsetSize(Distinct(ids[..a]), Distinct(ids[..b]));
  }

  /** While every id was counted once, the place of an id among the counted ones is the
      number of distinct ids before its first appearance. */
  lemma PlaceOf(ids: seq<Id>, f: nat)
    requires NoRepeat(Counted([], ids)) && f < |ids| && ids[f] !in ids[..f]
    ensures var c, p := Counted([], ids), |Distinct(ids[..f])|;
            p < |c| == |Distinct(ids)| && c[p] == ids[f] && |Distinct(ids[..f + 1])| == p + 1
  {
    hide Counted, Recent;
    var c, before, upto := Counted([], ids), Counted([], ids[..f]), Counted([], ids[..f + 1]);
    assert ids[..f + 1] == ids[..f] + [ids[f]];
    CountedSnoc(ids[..f], ids[f]);
    CountedDistinct(ids[..f]);
    CountedDistinct(ids[..f + 1]);
    CountedDistinct(ids);
    RecentOnes(before, ids[f]);
    assert ids[f] !in Distinct(ids[..f]);
    CountedPrefix(ids, f);
    CountedPrefix(ids, f + 1);
    NoRepeatPrefix(c, before);
    NoRepeatPrefix(c, upto);
    DistinctSize(c);
    DistinctSize(before);
    DistinctSize(upto);
  }

  lemma CountedDistinct(ids: seq<Id>)
    ensures Distinct(Counted([], ids)) == Distinct(ids)
  {
    CountedIds([], ids);
    assert Distinct([]) + Distinct(ids) == Distinct(ids);
  }

  lemma NoRepeatPrefix(c: seq<Id>, b: seq<Id>)
    requires NoRepeat(c) && b <= c
    ensures NoRepeat(b)
  {
    assert forall i :: 0 <= i < |b| ==> b[i] == c[i];
  }

  lemma RecentAt(c: seq<Id>, p: nat)
    requires NoRepeat(c) && p < |c|
    ensures c[p] in Recent(c) <==> |c| - p <= RECENT_IDS_CAP
  {
    if |c| > RECENT_IDS_CAP {
      var k := |c| - RECENT_IDS_CAP;
      if p >= k {
        assert Recent(c)[p - k] == c[p];
      } else {
        assert forall i :: 0 <= i < |Recent(c)| ==> Recent(c)[i] == c[k + i] != c[p];
      }
    }
  }

  /** The next id is counted a second time exactly when it returns too late. */
  lemma CountedTwiceIff(ids: seq<Id>, x: Id)
    requires NoRepeat(Counted([], ids))
    ensures NoRepeat(Counted([], ids + [x])) <==> LastInTime(ids + [x])
  {
    hide Counted, Recent, Distinct, NoRepeat;
    var c, longer := Counted([], ids), ids + [x];
    CountedSnoc(ids, x);
    CountedDistinct(ids);
    OneMoreId(c, x);
    assert forall f :: 0 <= f < |ids| ==> longer[f] == ids[f] && longer[..f + 1] == ids[..f + 1];
    assert longer[..|ids|] == ids;
    InDistinct(ids, x);
    InDistinct(c, x);
    if x in ids {
      var f := FirstPosition(ids, x);
      PlaceOf(ids, f);
      RecentAt(c, |Distinct(ids[..f])|);
      assert NewBetween(longer, f, |ids|) == |c| - |Distinct(ids[..f])| - 1;
      assert forall g :: 0 <= g < f ==> ids[..f][g] == ids[g] != x;
      forall g | 0 <= g < |ids| && longer[g] == x
        ensures NewBetween(longer, g, |ids|) <= NewBetween(longer, f, |ids|)
      {
        DistinctGrows(ids, f + 1, g + 1);
      }
    } else {
      RecentOnes(c, x);
      assert forall g :: 0 <= g < |ids| ==> longer[g] in ids;
    }
  }

  lemma InDistinct(ids: seq<Id>, x: Id)
    ensures x in Distinct(ids) <==> x in ids
  {
  }

  lemma {:induction false} NoRepeatIffInTime(ids: seq<Id>)
    ensures NoRepeat(Counted([], ids)) <==> ReturnsInTime(ids)
  {
    hide Counted, Recent, Distinct, NoRepeat, LastInTime;
    if ids == [] {
      NoIds();
      CountedNothing();
    } else {
      var most, x := ids[..|ids| - 1], ids[|ids| - 1];
      assert ids == most + [x];
      NoRepeatIffInTime(most);
      ReturnsSnoc(most, x);
      if NoRepeat(Counted([], most)) {
        CountedTwiceIff(most, x);
      } else if NoRepeat(Counted([], ids)) {
        CountedSnoc(most, x);
        NoRepeatPrefix(Counted([], ids), Counted([], most));
      }
    }
  }

  lemma CountedNothing()
    ensures Counted([], []) == []
  {
  }

  /** Which logs are counted exactly: those in which no id returns after 512 other ids have
      appeared for the first time since its own first appearance. */
  lemma CountIsExactIff(ids: seq<Id>)
    ensures CountAll(ZERO, ids).count == |Distinct(ids)| <==> ReturnsInTime(ids)
  {
    hide CountAll, Counted, Distinct, NoRepeat, ReturnsInTime;
    CountIsDistinctIff(ids);
    NoRepeatIffInTime(ids);
  }
}
