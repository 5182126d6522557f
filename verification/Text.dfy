/**
 Text as the reply splitter sees it. A Rust `str` is modelled as its sequence of
 characters: positions are character indices (so a cut is always on a character
 boundary), sizes are the UTF-8 bytes those characters take.
 */
module Text {
  import opened Basics

  function Utf8Len(c: char): (n: nat)
    ensures 1 <= n <= 4
  {
    if c < '\U{80}' then 1 else if c < '\U{800}' then 2 else if c < '\U{10000}' then 3 else 4
  }

  /** How many bits of a character `n` bytes of UTF-8 carry (section 3 of RFC 3629). */
  function Payload(n: nat): nat
    requires 1 <= n
  {
    if n == 1 then 7 else 5 * n + 1
  }

  /** It is the fewest bytes that carry the character. */
  lemma Utf8LenIsLeast(c: char)
    ensures var n := Utf8Len(c);
            c as int < Pow2(Payload(n)) && (n > 1 ==> Pow2(Payload(n - 1)) <= c as int)
  {
    Powers();
  }

  lemma Powers()
    ensures Pow2(7) == 128 && Pow2(11) == 0x800 && Pow2(16) == 0x10000 && Pow2(21) == 0x200000
  {
    assert Pow2(3) == 8 && Pow2(5) == 4 * Pow2(3) && Pow2(7) == 4 * Pow2(5);
    assert Pow2(9) == 4 * Pow2(7) && Pow2(11) == 4 * Pow2(9) && Pow2(13) == 4 * Pow2(11);
    assert Pow2(15) == 4 * Pow2(13) && Pow2(16) == 2 * Pow2(15) && Pow2(18) == 4 * Pow2(16);
    assert Pow2(20) == 4 * Pow2(18) && Pow2(21) == 2 * Pow2(20);
  }

  function Bytes(s: string): nat {
    if s == "" then 0 else Utf8Len(s[0]) + Bytes(s[1..])
  }

  lemma {:induction false} BytesConcat(a: string, b: string)
    ensures Bytes(a + b) == Bytes(a) + Bytes(b)
  {
    if a == "" {
      assert a + b == b;
    } else {
      assert (a + b)[1..] == a[1..] + b;
      BytesConcat(a[1..], b);
    }
  }

  lemma BytesSplit(s: string, n: nat)
    requires n <= |s|
    ensures Bytes(s) == Bytes(s[..n]) + Bytes(s[n..])
  {
    assert s == s[..n] + s[n..];
    BytesConcat(s[..n], s[n..]);
  }

  lemma {:induction false} BytesBounds(s: string)
    ensures |s| <= Bytes(s) <= 4 * |s|
  {
    if s != "" {
      BytesBounds(s[1..]);
    }
  }

  // -------------------------------------------------------------------------
  // The largest prefix within a budget
  // -------------------------------------------------------------------------

  /** How many leading characters of `s` fit into `avail` bytes. */
  function Fit(s: string, avail: nat): (n: nat)
    ensures n <= |s|
  {
    if s == "" || avail < Utf8Len(s[0]) then 0 else 1 + Fit(s[1..], avail - Utf8Len(s[0]))
  }

  /** It is the largest such prefix: it fits, and one more character does not. */
  lemma {:induction false} FitIsLargest(s: string, avail: nat)
    ensures Bytes(s[..Fit(s, avail)]) <= avail
    ensures Fit(s, avail) < |s| ==>
              avail < Bytes(s[..Fit(s, avail) + 1]) && avail < Bytes(s[..Fit(s, avail)]) + 4
  {
    if s != "" && Utf8Len(s[0]) <= avail {
      var rest := s[1..];
      var left := avail - Utf8Len(s[0]);
      FitIsLargest(rest, left);
      var n := Fit(rest, left);
      assert s[..n + 1][1..] == rest[..n];
      if n < |rest| {
        assert s[..n + 2][1..] == rest[..n + 1];
      }
    } else if s != "" {
      assert s[..1][1..] == "" && s[..1][0] == s[0];
    }
  }

  lemma PrefixBytes(s: string, m: nat, n: nat)
    requires m <= n <= |s|
    ensures Bytes(s[..m]) + (n - m) <= Bytes(s[..n])
  {
    assert s[..n][..m] == s[..m];
    BytesSplit(s[..n], m);
    BytesBounds(s[..n][m..]);
  }

  /** The back-off to a character boundary: step down until the prefix fits. */
  method FitWithin(s: string, avail: nat) returns (n: nat)
    ensures n == Fit(s, avail)
  {
    n := |s|;
    FitIsLargest(s, avail);
    while Bytes(s[..n]) > avail
      invariant Fit(s, avail) <= n <= |s|
      decreases n
    {
      n := n - 1;
    }
    if Fit(s, avail) < n {
      PrefixBytes(s, Fit(s, avail) + 1, n);
    }
  }

  // -------------------------------------------------------------------------
  // Whitespace
  // -------------------------------------------------------------------------

  /** Unicode's White_Space property. */
  predicate IsWhitespace(c: char) {
    || '\U{9}' <= c <= '\U{D}' || c == ' ' || c == '\U{85}' || c == '\U{A0}' || c == '\U{1680}'
    || '\U{2000}' <= c <= '\U{200A}' || c == '\U{2028}' || c == '\U{2029}' || c == '\U{202F}'
    || c == '\U{205F}' || c == '\U{3000}'
  }

  /** These are 25 characters. */
  lemma WhitespaceIs(c: char)
    ensures IsWhitespace(c) <==>
            c as int in {9, 10, 11, 12, 13, 32, 133, 160, 5760, 8192, 8193, 8194, 8195, 8196, 8197, 8198, 8199, 8200,
                         8201, 8202, 8232, 8233, 8239, 8287, 12288}
  {
  }

  predicate Blank(s: string) { forall i :: 0 <= i < |s| ==> IsWhitespace(s[i]) }

  function TrimEnd(s: string): (t: string)
    ensures t <= s && Blank(s[|t|..])
    ensures t != "" ==> !IsWhitespace(t[|t| - 1])
  {
    if s == "" || !IsWhitespace(s[|s| - 1]) then s
    else
      var t := TrimEnd(s[..|s| - 1]);
      assert s[|t|..] == s[..|s| - 1][|t|..] + [s[|s| - 1]];
      t
  }

  function TrimNewlines(s: string): (t: string)
    ensures |t| <= |s| && t == s[|s| - |t|..]
    ensures forall i :: 0 <= i < |s| - |t| ==> s[i] == '\n'
    ensures t != "" ==> t[0] != '\n'
  {
    if s == "" || s[0] != '\n' then s else TrimNewlines(s[1..])
  }

  /** The non-whitespace characters of `s`, in order. */
  function Squeeze(s: string): string {
    if s == "" then "" else (if IsWhitespace(s[0]) then "" else [s[0]]) + Squeeze(s[1..])
  }

  lemma {:induction false} SqueezeConcat(a: string, b: string)
    ensures Squeeze(a + b) == Squeeze(a) + Squeeze(b)
  {
    if a == "" {
      assert a + b == b;
    } else {
      assert (a + b)[1..] == a[1..] + b;
      SqueezeConcat(a[1..], b);
    }
  }

  lemma {:induction false} SqueezeBlank(s: string)
    requires Blank(s)
    ensures Squeeze(s) == ""
  {
    if s != "" {
      SqueezeBlank(s[1..]);
    }
  }

  lemma SqueezeTrimmed(s: string, t: string)
    requires t <= s && Blank(s[|t|..])
    ensures Squeeze(t) == Squeeze(s)
  {
    assert s == t + s[|t|..];
    SqueezeConcat(t, s[|t|..]);
    SqueezeBlank(s[|t|..]);
  }

  // -------------------------------------------------------------------------
  // Code fences
  // -------------------------------------------------------------------------

  const FENCE := "```"

  /** Non-overlapping occurrences of three backticks, counted from the left. */
  function FenceCount(s: string): nat {
    if |s| < 3 then 0
    else if s[..3] == FENCE then 1 + FenceCount(s[3..])
    else FenceCount(s[1..])
  }

  /** The same count read one character at a time, `q` backticks being pending. */
  function Fences(s: string, q: nat): nat
    requires q < 3
  {
    if s == "" then 0
    else if s[0] != '`' then Fences(s[1..], 0)
    else if q == 2 then 1 + Fences(s[1..], 0)
    else Fences(s[1..], q + 1)
  }

  function Pending(s: string, q: nat): (r: nat)
    requires q < 3
    ensures r < 3
  {
    if s == "" then q
    else if s[0] != '`' then Pending(s[1..], 0)
    else Pending(s[1..], (q + 1) % 3)
  }

  function LeadingTicks(s: string): nat {
    if s == "" || s[0] != '`' then 0 else 1 + LeadingTicks(s[1..])
  }

  lemma {:induction false} CountIsScan(s: string)
    ensures FenceCount(s) == Fences(s, 0)
  {
    if |s| >= 3 && s[..3] == FENCE {
      assert s[0] == FENCE[0] && s[1] == FENCE[1] && s[2] == FENCE[2];
      TwoSteps(s, 0);
      assert s[2..][1..] == s[3..];
      CountIsScan(s[3..]);
    } else if |s| >= 3 {
      CountIsScan(s[1..]);
      ShortRun(s);
    } else if s != "" {
      ShortRun(s);
      CountIsScan(s[1..]);
    }
  }

  lemma TwoSteps(s: string, q: nat)
    requires |s| >= 2 && q == 0
    ensures Fences(s, 0) == if s[0] != '`' then Fences(s[1..], 0)
                            else if s[1] != '`' then Fences(s[2..], 0) else Fences(s[2..], 2)
    ensures Fences(s[1..], 0) == if s[1] != '`' then Fences(s[2..], 0) else Fences(s[2..], 1)
  {
    assert s[1..][1..] == s[2..];
  }

  /** A run shorter than a fence may as well start one character later. */
  lemma ShortRun(s: string)
    requires s != "" && !(|s| >= 3 && s[..3] == FENCE)
    ensures Fences(s, 0) == Fences(s[1..], 0)
  {
    if |s| >= 2 {
      TwoSteps(s, 0);
      if s[0] == '`' && s[1] == '`' && |s| >= 3 {
        assert s[..3] == [s[0], s[1], s[2]];
      }
    }
  }

  lemma {:induction false} ScanConcat(a: string, b: string, q: nat)
    requires q < 3
    ensures Fences(a + b, q) == Fences(a, q) + Fences(b, Pending(a, q))
    ensures Pending(a + b, q) == Pending(b, Pending(a, q))
  {
    if a == "" {
      assert a + b == b;
    } else {
      assert (a + b)[1..] == a[1..] + b;
      ScanConcat(a[1..], b, if a[0] != '`' then 0 else (q + 1) % 3);
    }
  }

  /** Pending backticks complete one more fence exactly when the leading run has enough left. */
  lemma {:induction false} PendingCompletes(s: string, q: nat)
    requires q < 3
    ensures Fences(s, q) == Fences(s, 0) + if q + LeadingTicks(s) % 3 >= 3 then 1 else 0
  {
    if s != "" && s[0] == '`' {
      PendingCompletes(s[1..], (q + 1) % 3);
      PendingCompletes(s[1..], 1);
    }
  }

  /** A cut between `a` and `b` goes through a fence. */
  predicate CutsFence(a: string, b: string) {
    Pending(a, 0) + LeadingTicks(b) % 3 >= 3
  }

  lemma CountConcat(a: string, b: string)
    ensures FenceCount(a + b) == FenceCount(a) + FenceCount(b) + if CutsFence(a, b) then 1 else 0
  {
    CountIsScan(a);
    CountIsScan(b);
    CountIsScan(a + b);
    ScanConcat(a, b, 0);
    PendingCompletes(b, Pending(a, 0));
  }

  /** Text that does not begin with a backtick is never the second half of a cut fence. */
  lemma CountApart(a: string, b: string)
    requires b != "" ==> b[0] != '`'
    ensures FenceCount(a + b) == FenceCount(a) + FenceCount(b)
  {
    CountConcat(a, b);
  }

  lemma {:induction false} CountNoTicks(s: string)
    requires forall i :: 0 <= i < |s| ==> s[i] != '`'
    ensures FenceCount(s) == 0
  {
    if |s| >= 3 {
      assert s[..3][0] != FENCE[0];
      CountNoTicks(s[1..]);
    }
  }

  lemma CountTrimmed(s: string, t: string)
    requires t <= s && Blank(s[|t|..])
    ensures FenceCount(t) == FenceCount(s)
  {
    assert s == t + s[|t|..];
    CountApart(t, s[|t|..]);
    CountNoTicks(s[|t|..]);
  }

  const CLOSING := "\n```"
  const OPENING := "```\n"

  lemma CountClosing(s: string)
    ensures FenceCount(s + CLOSING) == FenceCount(s) + 1 && Bytes(s + CLOSING) == Bytes(s) + 4
  {
    CountApart(s, CLOSING);
    BytesConcat(s, CLOSING);
    MarkerFacts();
  }

  lemma CountOpening(s: string)
    ensures FenceCount(OPENING + s) == 1 + FenceCount(s) && Bytes(OPENING + s) == 4 + Bytes(s)
  {
    CountConcat(OPENING, s);
    BytesConcat(OPENING, s);
    MarkerFacts();
  }

  lemma MarkerFacts()
    ensures FenceCount(CLOSING) == 1 && Bytes(CLOSING) == 4
    ensures FenceCount(OPENING) == 1 && Bytes(OPENING) == 4 && Pending(OPENING, 0) == 0
  {
    assert CLOSING[1..] == "```" && CLOSING[..3] != FENCE by { assert CLOSING[..3][0] == '\n'; }
    assert "```"[..3] == FENCE && "```"[3..] == "";
    assert OPENING[..3] == FENCE && OPENING[3..] == "\n";
    BytesOfFour(CLOSING);
    BytesOfFour(OPENING);
    assert OPENING[1..] == "``\n" && "``\n"[1..] == "`\n" && "`\n"[1..] == "\n" && "\n"[1..] == "";
  }

  lemma BytesOfFour(s: string)
    requires |s| == 4 && forall i :: 0 <= i < 4 ==> s[i] < '\U{80}'
    ensures Bytes(s) == 4
  {
    AsciiBytes(s);
  }

  /** An open fence is closed; whether one was is what the next chunk must know. */
  function CloseOpenFence(s: string): (string, bool) {
    if FenceCount(s) % 2 == 1 then (s + CLOSING, true) else (s, false)
  }

  lemma ClosedIsBalanced(s: string)
    ensures FenceCount(CloseOpenFence(s).0) % 2 == 0
    ensures Bytes(s) <= Bytes(CloseOpenFence(s).0) <= Bytes(s) + 4
    ensures CloseOpenFence(s).1 <==> FenceCount(s) % 2 == 1
  {
    CountClosing(s);
  }

  // -------------------------------------------------------------------------
  // Truncation
  // -------------------------------------------------------------------------

  /** A line break, then a bracketed note that begins with an ellipsis. */
  const TRUNCATED := "\n[" + ("\U{2026}" + "truncated]")

  function TruncateBytes(s: string, max: nat): string {
    if Bytes(s) <= max then s else s[..Fit(s, max)] + TRUNCATED
  }

  method Truncate(s: string, max: nat) returns (out: string)
    ensures out == TruncateBytes(s, max)
  {
    if Bytes(s) <= max {
      return s;
    }
    var end := FitWithin(s, max);
    out := s[..end] + TRUNCATED;
  }

  lemma TruncatedBytes()
    ensures Bytes(TRUNCATED) == 15
  {
    hide Bytes;
    BytesConcat("\n[", "\U{2026}" + "truncated]");
    BytesConcat("\U{2026}", "truncated]");
    AsciiBytes("\n[");
    EllipsisBytes();
    AsciiBytes("truncated]");
  }

  lemma EllipsisBytes()
    ensures Bytes("\U{2026}") == 3
  {
    assert "\U{2026}"[1..] == "";
  }

  lemma {:induction false} AsciiBytes(s: string)
    requires forall i :: 0 <= i < |s| ==> s[i] < '\U{80}'
    ensures Bytes(s) == |s|
  {
    if s != "" {
      AsciiBytes(s[1..]);
    }
  }

  lemma TruncatedSize(s: string, max: nat)
    ensures Bytes(TruncateBytes(s, max)) <= max + if Bytes(s) <= max then 0 else 15
  {
    if max < Bytes(s) {
      FitIsLargest(s, max);
      TruncatedBytes();
      BytesConcat(s[..Fit(s, max)], TRUNCATED);
    }
  }
}
