/**
 Which shared room is the direct-message room of a peer
 (crates/aqua-matrix-agent/src/dm.rs): the verdict on one room, without the observers bound
 to it, and the deterministic choice among several.
 */
module DmSelection {
  import opened Basics

  datatype Membership = Join | Invite | Other

  datatype Member = Member(user: string, state: Membership)

  // -------------------------------------------------------------------------
  // The verdict on one room
  // -------------------------------------------------------------------------

  function Lower(c: char): char { if 'A' <= c <= 'Z' then c - 'A' + 'a' else c }

  predicate EqIgnoreAsciiCase(a: string, b: string) {
    |a| == |b| && forall i :: 0 <= i < |a| ==> Lower(a[i]) == Lower(b[i])
  }

  /** The same character, or the same ASCII letter in the other case. */
  predicate SameLetter(a: char, b: char) {
    || a == b
    || ('A' <= a <= 'Z' && b as int == a as int + 32)
    || ('A' <= b <= 'Z' && a as int == b as int + 32)
  }

  lemma CaseIsIgnored(a: string, b: string)
    ensures EqIgnoreAsciiCase(a, b) <==> |a| == |b| && forall i :: 0 <= i < |a| ==> SameLetter(a[i], b[i])
  {
    if |a| == |b| {
      forall i | 0 <= i < |a|
        ensures Lower(a[i]) == Lower(b[i]) <==> SameLetter(a[i], b[i])
      {
        LowerIs(a[i], b[i]);
      }
    }
  }

  lemma LowerIs(a: char, b: char)
    ensures Lower(a) == Lower(b) <==> SameLetter(a, b)
  {
  }

  predicate Observed(observed: seq<string>, user: string) {
    exists i :: 0 <= i < |observed| && EqIgnoreAsciiCase(observed[i], user)
  }

  predicate Retained(m: Member, own: string, target: string, observed: seq<string>) {
    m.user == own || m.user == target || !Observed(observed, m.user)
  }

  function Without(active: seq<Member>, own: string, target: string, observed: seq<string>): seq<Member> {
    if active == [] then []
    else (if Retained(active[0], own, target, observed) then [active[0]] else [])
         + Without(active[1..], own, target, observed)
  }

  method WithoutObserved(active: seq<Member>, own: string, target: string, observed: seq<string>)
    returns (kept: seq<Member>)
    ensures kept == Without(active, own, target, observed)
  {
    hide Retained;
    if observed == [] {
      NobodyObserved(active, own, target);
      return active;
    }
    kept := [];
    assert active[0..] == active;
    for i := 0 to |active|
      invariant kept + Without(active[i..], own, target, observed) == Without(active, own, target, observed)
    {
      assert active[i..][0] == active[i] && active[i..][1..] == active[i + 1..];
      ghost var more := if Retained(active[i], own, target, observed) then [active[i]] else [];
      Regroup(kept, more, Without(active[i + 1..], own, target, observed));
      if Retained(active[i], own, target, observed) {
        kept := kept + [active[i]];
      }
    }
    assert active[|active|..] == [] && kept + [] == kept;
  }

  lemma {:induction false} NobodyObserved(active: seq<Member>, own: string, target: string)
    ensures Without(active, own, target, []) == active
  {
    if active != [] {
      NobodyObserved(active[1..], own, target);
      assert active == [active[0]] + active[1..];
    }
  }

  datatype Verdict = Joined | Invited | NotOneToOne | TargetAbsent
  {
    function Rank(): Option<nat> {
      match this
      case Joined => Some(2)
      case Invited => Some(1)
      case _ => None
    }
  }

  /** The first entry of a user, or `None`. */
  function StateOf(active: seq<Member>, user: string): Option<Membership> {
    if active == [] then None
    else if active[0].user == user then Some(active[0].state)
    else StateOf(active[1..], user)
  }

  lemma {:induction false} StateOfIs(active: seq<Member>, user: string)
    ensures StateOf(active, user).None? <==> forall m :: m in active ==> m.user != user
    ensures StateOf(active, user).Some? ==>
              exists i :: 0 <= i < |active| && active[i] == Member(user, StateOf(active, user).value)
                          && forall j :: 0 <= j < i ==> active[j].user != user
  {
    if active != [] && active[0].user != user {
      StateOfIs(active[1..], user);
      assert active == [active[0]] + active[1..];
      if StateOf(active, user).Some? {
        var i :| 0 <= i < |active[1..]| && active[1..][i] == Member(user, StateOf(active, user).value)
                 && forall j :: 0 <= j < i ==> active[1..][j].user != user;
        assert active[i + 1] == Member(user, StateOf(active, user).value);
        assert forall j :: 0 < j < i + 1 ==> active[j] == active[1..][j - 1];
      }
    }
  }

  function Classify(own: string, target: string, active: seq<Member>): Verdict {
    if exists m :: m in active && m.user != own && m.user != target then NotOneToOne
    else match StateOf(active, target)
      case Some(Join) => Joined
      case Some(Invite) => Invited
      case _ => TargetAbsent
  }

  lemma {:induction false} WithoutIs(active: seq<Member>, own: string, target: string, observed: seq<string>, m: Member)
    ensures var kept := Without(active, own, target, observed);
            && (m in kept <==> m in active && (m.user == own || m.user == target || !Observed(observed, m.user)))
            && StateOf(kept, target) == StateOf(active, target)
  {
    hide Observed;
    if active != [] {
      WithoutIs(active[1..], own, target, observed, m);
      TargetRetained(active[0], own, target, observed);
      if Retained(active[0], own, target, observed) {
        assert Without(active, own, target, observed)[1..] == Without(active[1..], own, target, observed);
      } else {
        assert [] + Without(active[1..], own, target, observed) == Without(active[1..], own, target, observed);
      }
    }
  }

  lemma TargetRetained(m: Member, own: string, target: string, observed: seq<string>)
    ensures m.user == target ==> Retained(m, own, target, observed)
  {
  }

  /** A room is not one-to-one exactly when somebody else in it is not an observer; the
      rest of the verdict is the peer's own membership, which no observer list changes. */
  lemma VerdictIs(own: string, target: string, active: seq<Member>, observed: seq<string>)
    ensures var v := Classify(own, target, Without(active, own, target, observed));
            && (v == NotOneToOne <==>
                  exists m :: m in active && m.user != own && m.user != target && !Observed(observed, m.user))
            && (v != NotOneToOne ==>
                  && (v == Joined <==> StateOf(active, target) == Some(Join))
                  && (v == Invited <==> StateOf(active, target) == Some(Invite))
                  && (v == TargetAbsent <==> StateOf(active, target).None? || StateOf(active, target) == Some(Other)))
  {
    hide Observed, Without;
    var kept := Without(active, own, target, observed);
    forall m: Member
      ensures m in kept <==> m in active && Retained(m, own, target, observed)
      ensures StateOf(kept, target) == StateOf(active, target)
    {
      WithoutIs(active, own, target, observed, m);
    }
    WithoutIs(active, own, target, observed, Member(own, Join));
  }

  /** A longer observer list never makes a usable room unusable, nor changes its rank. */
  lemma MoreObserversKeepUsable(own: string, target: string, active: seq<Member>, some: seq<string>, more: seq<string>)
    requires forall o :: o in some ==> o in more
    requires Classify(own, target, Without(active, own, target, some)).Rank().Some?
    ensures Classify(own, target, Without(active, own, target, more))
         == Classify(own, target, Without(active, own, target, some))
  {
    hide Classify, Without;
    VerdictIs(own, target, active, some);
    VerdictIs(own, target, active, more);
    forall m | m in active && m.user != own && m.user != target && Observed(some, m.user)
      ensures Observed(more, m.user)
    {
      var i :| 0 <= i < |some| && EqIgnoreAsciiCase(some[i], m.user);
      assert some[i] in more;
      var j :| 0 <= j < |more| && more[j] == some[i];
    }
  }

  // -------------------------------------------------------------------------
  // The choice among rooms
  // -------------------------------------------------------------------------

  datatype Candidate = Candidate(room: string, verdict: Verdict, markedDirect: bool, lastActivity: nat)

  /** Strings in the order of their characters. */
  predicate StringBefore(a: string, b: string) {
    b != [] && (a == [] || a[0] < b[0] || (a[0] == b[0] && StringBefore(a[1..], b[1..])))
  }

  /** They agree up to `k`, where the first one ends or has the smaller character. */
  predicate SmallerAt(a: string, b: string, k: nat) {
    k <= |a| && k < |b| && a[..k] == b[..k] && (k == |a| || a[k] < b[k])
  }

  lemma SmallerLater(a: string, b: string, k: nat)
    requires a != [] && b != []
    ensures SmallerAt(a, b, k + 1) <==> a[0] == b[0] && SmallerAt(a[1..], b[1..], k)
    ensures SmallerAt(a, b, 0) <==> a[0] < b[0]
  {
    if k < |a| && k < |b| {
      assert a[..k + 1] == [a[0]] + a[1..][..k] && b[..k + 1] == [b[0]] + b[1..][..k];
    }
  }

  lemma {:induction false} StringBeforeIs(a: string, b: string)
    ensures StringBefore(a, b) <==> exists k: nat :: SmallerAt(a, b, k)
  {
    if a != [] && b != [] {
      StringBeforeIs(a[1..], b[1..]);
      forall k: nat
        ensures SmallerAt(a, b, k) <==>
                if k == 0 then a[0] < b[0] else a[0] == b[0] && SmallerAt(a[1..], b[1..], k - 1)
      {
        SmallerLater(a, b, if k == 0 then 0 else k - 1);
      }
      if StringBefore(a, b) {
        if a[0] == b[0] {
          var k: nat :| SmallerAt(a[1..], b[1..], k);
          SmallerLater(a, b, k);
        } else {
          assert SmallerAt(a, b, 0);
        }
      }
    } else if b != [] {
      assert SmallerAt(a, b, 0);
    }
  }

  function RankOf(c: Candidate): nat { if c.verdict.Rank().Some? then c.verdict.Rank().value else 0 }

  /** Joined over invited, recorded as direct over not, newer over older, then by room id. */
  predicate Before(a: Candidate, b: Candidate) {
    if RankOf(a) != RankOf(b) then RankOf(a) > RankOf(b)
    else if a.markedDirect != b.markedDirect then a.markedDirect
    else if a.lastActivity != b.lastActivity then a.lastActivity > b.lastActivity
    else StringBefore(a.room, b.room)
  }

  function Usable(cs: seq<Candidate>): seq<Candidate> {
    if cs == [] then [] else (if cs[0].verdict.Rank().Some? then [cs[0]] else []) + Usable(cs[1..])
  }

  /** Behind everything that is not after it, as in a stable sort. */
  function Insert(sorted: seq<Candidate>, c: Candidate): seq<Candidate> {
    if sorted == [] then [c]
    else if Before(c, sorted[|sorted| - 1]) then Insert(sorted[..|sorted| - 1], c) + [sorted[|sorted| - 1]]
    else sorted + [c]
  }

  function Sorted(cs: seq<Candidate>): seq<Candidate> {
    if cs == [] then [] else Insert(Sorted(cs[..|cs| - 1]), cs[|cs| - 1])
  }

  function Pick(cs: seq<Candidate>): Option<string> {
    var sorted := Sorted(Usable(cs));
    if sorted == [] then None else Some(sorted[0].room)
  }

  method PickDmCandidate(candidates: seq<Candidate>) returns (room: Option<string>)
    ensures room == Pick(candidates)
  {
    hide Insert;
    var usable := [];
    assert candidates[0..] == candidates;
    for i := 0 to |candidates|
      invariant usable + Usable(candidates[i..]) == Usable(candidates)
    {
      assert candidates[i..][0] == candidates[i] && candidates[i..][1..] == candidates[i + 1..];
      ghost var more := if candidates[i].verdict.Rank().Some? then [candidates[i]] else [];
      Regroup(usable, more, Usable(candidates[i + 1..]));
      if candidates[i].verdict.Rank().Some? {
        usable := usable + [candidates[i]];
      }
    }
    assert candidates[|candidates|..] == [] && usable + [] == usable;
    var sorted: seq<Candidate> := [];
    for i := 0 to |usable|
      invariant sorted == Sorted(usable[..i])
    {
      assert usable[..i + 1][..i] == usable[..i];
      sorted := Insert(sorted, usable[i]);
    }
    assert usable[..|usable|] == usable;
    room := if sorted == [] then None else Some(sorted[0].room);
  }

  lemma {:induction false} StringOrder(a: string, b: string, c: string)
    ensures StringBefore(a, b) ==> !StringBefore(b, a) && a != b
    ensures a == b || StringBefore(a, b) || StringBefore(b, a)
    ensures StringBefore(a, b) && StringBefore(b, c) ==> StringBefore(a, c)
  {
    if a != [] && b != [] {
      StringOrder(a[1..], b[1..], if c == [] then [] else c[1..]);
      if a[0] == b[0] && a[1..] == b[1..] {
        assert a == [a[0]] + a[1..] && b == [b[0]] + b[1..];
      }
    }
  }

  /** `Before` is a strict order, and candidates it does not tell apart are one room. */
  lemma CandidateOrder(a: Candidate, b: Candidate, c: Candidate)
    ensures Before(a, b) ==> !Before(b, a)
    ensures !Before(a, b) && !Before(b, c) ==> !Before(a, c)
    ensures !Before(a, b) && !Before(b, a) ==> a.room == b.room
  {
    StringOrder(a.room, b.room, c.room);
    StringOrder(c.room, b.room, a.room);
    StringOrder(a.room, c.room, b.room);
  }

  ghost predicate First(sorted: seq<Candidate>) {
    sorted != [] ==> forall c :: c in sorted ==> !Before(c, sorted[0])
  }

  lemma {:induction false} InsertFirst(sorted: seq<Candidate>, c: Candidate)
    requires First(sorted)
    ensures First(Insert(sorted, c)) && Insert(sorted, c) != []
    ensures forall d :: d in Insert(sorted, c) <==> d in sorted || d == c
    ensures sorted != [] && Insert(sorted, c)[0] != sorted[0] ==> Insert(sorted, c)[0] == c
  {
    hide Before;
    if sorted == [] {
      CandidateOrder(c, c, c);
    } else {
      var most, last := sorted[..|sorted| - 1], sorted[|sorted| - 1];
      assert sorted == most + [last];
      CandidateOrder(c, last, c);
      if Before(c, last) {
        assert most != [] ==> most[0] == sorted[0];
        InsertFirst(most, c);
        var longer := Insert(most, c);
        assert Insert(sorted, c) == longer + [last];
        if most != [] && longer[0] == sorted[0] {
          assert !Before(last, sorted[0]);
        } else {
          assert longer[0] == c;
        }
      } else {
        CandidateOrder(c, last, sorted[0]);
        assert !Before(last, sorted[0]);
      }
    }
  }

  lemma {:induction false} SortedFirst(cs: seq<Candidate>)
    ensures First(Sorted(cs)) && (Sorted(cs) == [] <==> cs == [])
    ensures forall c :: c in Sorted(cs) <==> c in cs
  {
    hide Before, Insert;
    if cs != [] {
      var most, last := cs[..|cs| - 1], cs[|cs| - 1];
      SortedFirst(most);
      InsertFirst(Sorted(most), last);
      assert cs == most + [last];
    }
  }

  lemma {:induction false} UsableAre(cs: seq<Candidate>, c: Candidate)
    ensures c in Usable(cs) <==> c in cs && c.verdict.Rank().Some?
  {
    if cs != [] {
      UsableAre(cs[1..], c);
      assert cs == [cs[0]] + cs[1..];
    }
  }

  /** The peer is in the room or invited to it, and nobody else. */
  predicate OneToOne(c: Candidate) { c.verdict == Joined || c.verdict == Invited }

  /** A better choice than the other: the peer is in the room, not only invited; else it is
      recorded as direct and the other is not; else it was used later; else its id is first. */
  predicate Beats(a: Candidate, b: Candidate) {
    || (a.verdict == Joined && b.verdict == Invited)
    || (a.verdict == b.verdict
        && (|| (a.markedDirect && !b.markedDirect)
            || (a.markedDirect == b.markedDirect
                && (|| a.lastActivity > b.lastActivity
                    || (a.lastActivity == b.lastActivity && StringBefore(a.room, b.room))))))
  }

  lemma BeforeIsBeats(a: Candidate, b: Candidate)
    ensures OneToOne(a) <==> a.verdict.Rank().Some?
    ensures OneToOne(a) && OneToOne(b) ==> (Before(a, b) <==> Beats(a, b))
  {
  }

  /** A usable candidate that none of the usable ones beats. */
  ghost predicate Best(cs: seq<Candidate>, c: Candidate) {
    c in cs && OneToOne(c) && forall d :: d in cs && OneToOne(d) ==> !Beats(d, c)
  }

  /** The choice is the room of the best usable candidate, and there is none exactly when
      no candidate is usable. */
  lemma PickIsBest(cs: seq<Candidate>)
    ensures Pick(cs).None? <==> forall c :: c in cs ==> !OneToOne(c)
    ensures Pick(cs).Some? ==> exists c :: Best(cs, c) && c.room == Pick(cs).value
    ensures forall c :: Best(cs, c) ==> Pick(cs) == Some(c.room)
  {
    hide Before, Beats, OneToOne, Sorted, Usable;
    var usable := Usable(cs);
    forall c
      ensures c in usable <==> c in cs && OneToOne(c)
    {
      UsableAre(cs, c);
      BeforeIsBeats(c, c);
    }
    SortedFirst(usable);
    var sorted := Sorted(usable);
    if sorted != [] {
      assert sorted[0] in sorted;
      forall d | d in cs && OneToOne(d)
        ensures !Beats(d, sorted[0])
      {
        BeforeIsBeats(d, sorted[0]);
      }
      assert Best(cs, sorted[0]);
      forall c | Best(cs, c)
        ensures c.room == sorted[0].room
      {
        BeforeIsBeats(sorted[0], c);
        CandidateOrder(c, sorted[0], c);
      }
    }
  }

  /** The choice does not depend on the order of the candidates, nor on repetitions. */
  lemma PickIgnoresOrder(a: seq<Candidate>, b: seq<Candidate>)
    requires forall c :: c in a <==> c in b
    ensures Pick(a) == Pick(b)
  {
    hide Pick, Before, Beats;
    PickIsBest(a);
    PickIsBest(b);
    if Pick(a).Some? {
      var c :| Best(a, c) && c.room == Pick(a).value;
      assert Best(b, c);
    }
  }
}
