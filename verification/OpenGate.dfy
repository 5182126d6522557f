/**
 The back-off that spaces attempts to open a streamed message
 (crates/aqua-matrix-agent/src/lib.rs, `OpenGate`). Instants are milliseconds.
 */
module OpenGate {
  import opened Basics

  const OPEN_RETRY_BASE: nat := 1000
  const OPEN_RETRY_MAX: nat := 30_000
  const U32_MAX: nat := 0xFFFF_FFFF

  /** The wait after `failures` failures in a row: the base, doubled up to a ceiling. */
  function BackOff(failures: nat): nat {
    var doublings := Min(if failures == 0 then 0 else failures - 1, 16);
    Min(OPEN_RETRY_BASE * Pow2(doublings), OPEN_RETRY_MAX)
  }

  datatype GateState = GateState(failures: nat, retryAt: Option<nat>)
  {
    predicate Ready(now: nat) { retryAt.None? || retryAt.value <= now }

    function Failed(now: nat): GateState {
      var n := Min(failures + 1, U32_MAX);
      GateState(n, Some(now + BackOff(n)))
    }
  }

  const FRESH := GateState(0, None)

  class Gate {
    var failures: nat
    var retryAt: Option<nat>

    function View(): GateState
      reads this
    {
      GateState(failures, retryAt)
    }

    constructor ()
      ensures View() == FRESH
    {
      failures, retryAt := 0, None;
    }

    method Failed(now: nat) returns (wait: nat)
      modifies this
      ensures View() == old(View()).Failed(now) && View().retryAt == Some(now + wait)
    {
      failures := Min(failures + 1, U32_MAX);
      wait := BackOff(failures);
      retryAt := Some(now + wait);
    }

    method Succeeded()
      modifies this
      ensures View() == FRESH
    {
      failures, retryAt := 0, None;
    }
  }

  // -------------------------------------------------------------------------
  // A streak of failing attempts
  // -------------------------------------------------------------------------

  /** An attempt to open a message, from the gate's answer to its failure. */
  datatype Attempt = Attempt(start: nat, failed: nat)

  /** The gate after a streak of failures. */
  function AfterStreak(streak: seq<Attempt>): GateState {
    if streak == [] then FRESH
    else AfterStreak(streak[..|streak| - 1]).Failed(streak[|streak| - 1].failed)
  }

  /** Every attempt of the streak was made when the gate was ready for it. */
  ghost predicate Allowed(streak: seq<Attempt>) {
    forall i :: 0 <= i < |streak| ==>
      streak[i].start <= streak[i].failed && AfterStreak(streak[..i]).Ready(streak[i].start)
  }

  lemma StreakGrows(streak: seq<Attempt>, a: Attempt)
    requires Allowed(streak) && a.start <= a.failed && AfterStreak(streak).Ready(a.start)
    ensures Allowed(streak + [a]) && AfterStreak(streak + [a]) == AfterStreak(streak).Failed(a.failed)
  {
    var longer := streak + [a];
    assert longer[..|streak|] == streak;
    forall i | 0 <= i < |longer|
      ensures longer[i].start <= longer[i].failed && AfterStreak(longer[..i]).Ready(longer[i].start)
    {
      if i < |streak| {
        assert longer[..i] == streak[..i];
      }
    }
  }

  /** After a streak of failures the gate opens again exactly when the wait that belongs to
      their number is over, counted from the last one: 1, 2, 4, 8 or 16 seconds, then 30. */
  lemma GateOpensAgain(streak: seq<Attempt>, now: nat)
    ensures AfterStreak(streak).Ready(now) <==>
            streak == [] || streak[|streak| - 1].failed
                            + (match |streak| case 1 => 1000 case 2 => 2000 case 3 => 4000 case 4 => 8000
                                              case 5 => 16_000 case _ => 30_000) <= now
  {
    if streak != [] {
      FailuresCounted(streak[..|streak| - 1]);
      SameWait(|streak|);
      BackOffValues(|streak|);
    }
  }

  /** The waits between `n` attempts: 1, 2, 4, 8, 16 seconds, then 30 each time. */
  function Waits(n: nat): nat {
    if n <= 1 then 0 else Waits(n - 1) + BackOff(n - 1)
  }

  lemma BackOffValues(n: nat)
    requires 1 <= n
    ensures BackOff(n) == match n case 1 => 1000 case 2 => 2000 case 3 => 4000 case 4 => 8000 case 5 => 16_000
                                  case _ => 30_000
  {
    if n > 5 {
      PowAtLeast(Min(n - 1, 16));
    } else {
      assert Pow2(0) == 1 && Pow2(1) == 2 && Pow2(2) == 4 && Pow2(3) == 8 && Pow2(4) == 16;
    }
  }

  lemma {:induction false} PowAtLeast(n: nat)
    requires 5 <= n
    ensures 32 <= Pow2(n)
  {
    if n > 5 {
      PowAtLeast(n - 1);
    } else {
      assert Pow2(5) == 2 * Pow2(4) && Pow2(4) == 2 * Pow2(3) && Pow2(3) == 2 * Pow2(2);
    }
  }

  lemma {:induction false} WaitsValue(n: nat)
    requires 6 <= n
    ensures Waits(n) == 31_000 + 30_000 * (n - 6)
  {
    BackOffValues(n - 1);
    if n > 6 {
      WaitsValue(n - 1);
    } else {
      BackOffValues(1);
      BackOffValues(2);
      BackOffValues(3);
      BackOffValues(4);
      assert Waits(6) == Waits(5) + BackOff(5) && Waits(5) == Waits(4) + BackOff(4);
      assert Waits(4) == Waits(3) + BackOff(3);
    }
  }

  lemma {:induction false} FailuresCounted(streak: seq<Attempt>)
    ensures AfterStreak(streak).failures == Min(|streak|, U32_MAX)
  {
    if streak != [] {
      FailuresCounted(streak[..|streak| - 1]);
    }
  }

  lemma SameWait(n: nat)
    ensures BackOff(Min(n, U32_MAX)) == BackOff(n)
  {
    if n > U32_MAX {
      BackOffValues(n);
      BackOffValues(U32_MAX);
    }
  }

  lemma {:induction false} StreakSpans(streak: seq<Attempt>)
    requires streak != [] && Allowed(streak)
    ensures streak[0].start + Waits(|streak|) <= streak[|streak| - 1].start
  {
    if |streak| > 1 {
      var before := streak[..|streak| - 1];
      assert forall i :: 0 <= i < |before| ==> before[..i] == streak[..i];
      StreakSpans(before);
      FailuresCounted(before[..|before| - 1]);
      SameWait(|before|);
      assert streak[..|streak| - 1] == before;
    }
  }

  /** No send storm: a streak of failing opens that spans T seconds has at most
      6 + T/30 attempts, however often an open was asked for. */
  lemma StreakIsShort(streak: seq<Attempt>)
    requires streak != [] && Allowed(streak)
    ensures |streak| <= 6 + (streak[|streak| - 1].start - streak[0].start) / 30_000
  {
    StreakSpans(streak);
    if |streak| > 6 {
      WaitsValue(|streak|);
    }
  }
}
