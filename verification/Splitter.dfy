/**
 Splitting a reply into messages (crates/aqua-matrix-agent/src/lib.rs,
 `split_for_matrix` and `pick_boundary`).
 */
module Splitter {
  import opened Basics
  import opened Text

  const MIN_SPLIT: nat := 1500
  const MAX_MESSAGES: nat := 50

  // -------------------------------------------------------------------------
  // Where to cut
  // -------------------------------------------------------------------------

  predicate At(s: string, pat: string, p: nat) {
    p + |pat| <= |s| && s[p..p + |pat|] == pat
  }

  /** The position of the last occurrence of `pat` in `s`. */
  function RFind(s: string, pat: string): (r: Option<nat>)
    requires pat != ""
    ensures r.Some? ==> r.value + |pat| <= |s|
  {
    if |s| < |pat| then None
    else if At(s, pat, |s| - |pat|) then Some(|s| - |pat|)
    else RFind(s[..|s| - 1], pat)
  }

  lemma {:induction false} RFindIsLast(s: string, pat: string)
    requires pat != ""
    ensures RFind(s, pat).Some? ==> At(s, pat, RFind(s, pat).value)
    ensures forall p: nat :: At(s, pat, p) ==> RFind(s, pat).Some? && p <= RFind(s, pat).value
  {
    if |s| >= |pat| && !At(s, pat, |s| - |pat|) {
      var shorter := s[..|s| - 1];
      RFindIsLast(shorter, pat);
      forall p: nat
        ensures At(s, pat, p) <==> At(shorter, pat, p)
      {
        if p + |pat| <= |shorter| {
          assert shorter[p..p + |pat|] == s[p..p + |pat|];
        }
      }
    }
  }

  /** Where the last occurrence of `pat` ends, 0 if there is none. */
  function LastEnd(s: string, pat: string): (e: nat)
    requires pat != ""
    ensures e <= |s|
  {
    match RFind(s, pat)
    case None => 0
    case Some(p) => p + |pat|
  }

  function SentenceEnd(s: string): (e: nat)
    ensures e <= |s|
  {
    Max(LastEnd(s, ". "), Max(LastEnd(s, "! "), LastEnd(s, "? ")))
  }

  /** The smallest head, in bytes, worth ending at a break. */
  function Floor(window: string): nat { Max(1, Min(MIN_SPLIT, Bytes(window) / 2)) }

  /** Where to cut `s` so that the head fits `avail` bytes. */
  function Boundary(s: string, avail: nat): (cut: nat)
    requires s != ""
    ensures 1 <= cut <= |s|
  {
    var n := Fit(s, avail);
    if n == 0 then 1
    else
      var w := s[..n];
      if Bytes(w[..LastEnd(w, "\n\n")]) >= Floor(w) then LastEnd(w, "\n\n")
      else if Bytes(w[..LastEnd(w, "\n")]) >= Floor(w) then LastEnd(w, "\n")
      else if Bytes(w[..SentenceEnd(w)]) >= Floor(w) then SentenceEnd(w)
      else if Bytes(w[..LastEnd(w, " ")]) >= Floor(w) then LastEnd(w, " ")
      else n
  }

  datatype Break = Paragraph | Line | Sentence | Word

  /** `s[..e]` ends with a break of kind `b`. */
  predicate EndsWith(b: Break, s: string, e: nat) {
    e <= |s| &&
    match b
    case Paragraph => 2 <= e && s[e - 2] == '\n' && s[e - 1] == '\n'
    case Line => 1 <= e && s[e - 1] == '\n'
    case Sentence => 2 <= e && (s[e - 2] == '.' || s[e - 2] == '!' || s[e - 2] == '?') && s[e - 1] == ' '
    case Word => 1 <= e && s[e - 1] == ' '
  }

  /** A break that leaves a head of at least the floor. */
  predicate Usable(b: Break, w: string, e: nat) {
    EndsWith(b, w, e) && Floor(w) <= Bytes(w[..e])
  }

  ghost predicate NoneUsable(b: Break, w: string) {
    forall e: nat :: !Usable(b, w, e)
  }

  ghost predicate LatestUsable(b: Break, w: string, cut: nat) {
    Usable(b, w, cut) && forall e: nat :: Usable(b, w, e) ==> e <= cut
  }

  /** `LastEnd` is the end of the last occurrence, and 0 only without one. */
  lemma LastEndIs(s: string, pat: string, e: nat)
    requires pat != ""
    ensures |pat| <= e && At(s, pat, e - |pat|) ==> e <= LastEnd(s, pat)
    ensures LastEnd(s, pat) > 0 ==> |pat| <= LastEnd(s, pat) && At(s, pat, LastEnd(s, pat) - |pat|)
  {
    RFindIsLast(s, pat);
  }

  lemma OneIs(s: string, x: char, e: nat)
    ensures var last := LastEnd(s, [x]);
            && (1 <= e <= |s| && s[e - 1] == x ==> e <= last)
            && (last > 0 ==> s[last - 1] == x)
  {
    LastEndIs(s, [x], e);
    if 1 <= e <= |s| {
      assert s[e - 1..e] == [s[e - 1]];
    }
    var last := LastEnd(s, [x]);
    if last > 0 {
      assert s[last - 1..last] == [s[last - 1]];
    }
  }

  lemma TwoIs(s: string, x: char, y: char, e: nat)
    ensures var last := LastEnd(s, [x, y]);
            && (2 <= e <= |s| && s[e - 2] == x && s[e - 1] == y ==> e <= last)
            && (last > 0 ==> 2 <= last && s[last - 2] == x && s[last - 1] == y)
  {
    LastEndIs(s, [x, y], e);
    if 2 <= e <= |s| {
      assert s[e - 2..e] == [s[e - 2], s[e - 1]];
    }
    var last := LastEnd(s, [x, y]);
    if last > 0 {
      assert s[last - 2..last] == [s[last - 2], s[last - 1]];
    }
  }

  lemma ParagraphIs(s: string, e: nat)
    ensures EndsWith(Paragraph, s, e) ==> e <= LastEnd(s, "\n\n")
    ensures LastEnd(s, "\n\n") > 0 ==> EndsWith(Paragraph, s, LastEnd(s, "\n\n"))
  {
    TwoIs(s, '\n', '\n', e);
  }

  lemma SentenceIs(s: string, e: nat)
    ensures EndsWith(Sentence, s, e) ==> e <= SentenceEnd(s)
    ensures SentenceEnd(s) > 0 ==> EndsWith(Sentence, s, SentenceEnd(s))
  {
    TwoIs(s, '.', ' ', e);
    TwoIs(s, '!', ' ', e);
    TwoIs(s, '?', ' ', e);
  }

  lemma BreakChosen(b: Break, w: string, last: nat)
    requires last <= |w| && (last > 0 ==> EndsWith(b, w, last))
    requires forall e: nat :: EndsWith(b, w, e) ==> e <= last
    ensures Bytes(w[..last]) >= Floor(w) ==> LatestUsable(b, w, last)
    ensures Bytes(w[..last]) < Floor(w) ==> NoneUsable(b, w)
  {
    assert w[..0] == "";
    if Bytes(w[..last]) < Floor(w) {
      forall e: nat | EndsWith(b, w, e)
        ensures !Usable(b, w, e)
      {
        PrefixBytes(w, e, last);
      }
    }
  }

  /** The cut is the latest usable break of the best kind that has one, in the order
      paragraph, line, sentence, word; without any it is the largest head that fits. */
  lemma BoundaryIsCleanest(s: string, avail: nat)
    requires s != "" && Fit(s, avail) > 0
    ensures var w := s[..Fit(s, avail)]; var cut := Boundary(s, avail);
            || LatestUsable(Paragraph, w, cut)
            || (NoneUsable(Paragraph, w) && LatestUsable(Line, w, cut))
            || (NoneUsable(Paragraph, w) && NoneUsable(Line, w) && LatestUsable(Sentence, w, cut))
            || (NoneUsable(Paragraph, w) && NoneUsable(Line, w) && NoneUsable(Sentence, w)
                && LatestUsable(Word, w, cut))
            || (NoneUsable(Paragraph, w) && NoneUsable(Line, w) && NoneUsable(Sentence, w)
                && NoneUsable(Word, w) && cut == |w|)
  {
    hide LastEnd, SentenceEnd;
    var w := s[..Fit(s, avail)];
    forall e: nat
      ensures EndsWith(Paragraph, w, e) ==> e <= LastEnd(w, "\n\n")
      ensures EndsWith(Line, w, e) ==> e <= LastEnd(w, "\n")
      ensures EndsWith(Sentence, w, e) ==> e <= SentenceEnd(w)
      ensures EndsWith(Word, w, e) ==> e <= LastEnd(w, " ")
    {
      ParagraphIs(w, e);
      OneIs(w, '\n', e);
      SentenceIs(w, e);
      OneIs(w, ' ', e);
    }
    ParagraphIs(w, 0);
    OneIs(w, '\n', 0);
    SentenceIs(w, 0);
    OneIs(w, ' ', 0);
    BreakChosen(Paragraph, w, LastEnd(w, "\n\n"));
    BreakChosen(Line, w, LastEnd(w, "\n"));
    BreakChosen(Sentence, w, SentenceEnd(w));
    BreakChosen(Word, w, LastEnd(w, " "));
  }

  /** The head fits (a single character may not), and is not tiny. */
  lemma BoundarySize(s: string, avail: nat)
    requires s != ""
    ensures var head := Bytes(s[..Boundary(s, avail)]);
            && head <= Max(avail, 4)
            && (Fit(s, avail) > 0 ==> Floor(s[..Fit(s, avail)]) <= head)
  {
    hide LastEnd, SentenceEnd, Fit;
    var n := Fit(s, avail);
    var cut := Boundary(s, avail);
    FitIsLargest(s, avail);
    if n == 0 {
      assert s[..1][1..] == "";
    } else {
      PrefixBytes(s, cut, n);
      assert s[..n][..cut] == s[..cut];
      BytesBounds(s[..n]);
      assert s[..n][..n] == s[..n];
    }
  }

  method LastSentenceEnd(s: string) returns (best: Option<nat>)
    ensures best.Some? <==> SentenceEnd(s) > 0
    ensures best.Some? ==> best.value == SentenceEnd(s)
  {
    best := None;
    var pats := [". ", "! ", "? "];
    ghost var reached := [0, LastEnd(s, ". "), Max(LastEnd(s, ". "), LastEnd(s, "! ")), SentenceEnd(s)];
    for i := 0 to 3
      invariant best.Some? <==> reached[i] > 0
      invariant best.Some? ==> best.value == reached[i]
    {
      var p := RFind(s, pats[i]);
      if p.Some? {
        var e := p.value + 2;
        best := Some(if best.Some? then Max(best.value, e) else e);
      }
    }
  }

  method PickBoundary(s: string, avail: nat) returns (cut: nat)
    requires s != ""
    ensures cut == Boundary(s, avail)
  {
    hide RFind, Bytes;
    var cap := FitWithin(s, avail);
    if cap == 0 {
      return 1;
    }
    var window := s[..cap];
    var floor := Max(1, Min(MIN_SPLIT, Bytes(window) / 2));
    assert window[..0] == "";
    var p := RFind(window, "\n\n");
    if p.Some? && Bytes(window[..p.value + 2]) >= floor {
      return p.value + 2;
    }
    p := RFind(window, "\n");
    if p.Some? && Bytes(window[..p.value + 1]) >= floor {
      return p.value + 1;
    }
    var e := LastSentenceEnd(window);
    if e.Some? && Bytes(window[..e.value]) >= floor {
      return e.value;
    }
    p := RFind(window, " ");
    if p.Some? && Bytes(window[..p.value + 1]) >= floor {
      return p.value + 1;
    }
    cut := cap;
  }

  // -------------------------------------------------------------------------
  // The segments of a text
  // -------------------------------------------------------------------------

  /** One chunk of the result: the part of the text it stands for (`raw`), the line
      breaks dropped after it (`gap`), and what it shows of `raw` (`head`). */
  datatype Segment = Segment(reopened: bool, raw: string, gap: string, head: string, truncated: bool)

  function Prefix(reopened: bool): string { if reopened then OPENING else "" }

  function Avail(budget: nat, reopened: bool): nat {
    Max(1, if budget >= |Prefix(reopened)| then budget - |Prefix(reopened)| else 0)
  }

  /** A head loses its trailing whitespace, unless it is nothing else. */
  function Head(raw: string): (h: string)
    ensures h <= raw && Blank(raw[|h|..])
  {
    if TrimEnd(raw) != "" then TrimEnd(raw) else raw
  }

  function Body(g: Segment): string { CloseOpenFence(Prefix(g.reopened) + g.head).0 }

  function OpensNext(g: Segment): bool { CloseOpenFence(Prefix(g.reopened) + g.head).1 }

  /** What is left after a cut: the line breaks right behind it are dropped. */
  function After(rest: string, avail: nat): (t: string)
    requires rest != ""
    ensures |t| < |rest|
  {
    TrimNewlines(rest[Boundary(rest, avail)..])
  }

  /** The segment in front of a cut. */
  function CutOff(rest: string, avail: nat, reopen: bool): (g: Segment)
    requires rest != ""
    ensures g.reopened == reopen && !g.truncated
  {
    var cut := Boundary(rest, avail);
    var tail := rest[cut..];
    Segment(reopen, rest[..cut], tail[..|tail| - |TrimNewlines(tail)|], Head(rest[..cut]), false)
  }

  function Segments(rest: string, budget: nat, reopen: bool, sent: nat): seq<Segment>
    requires sent < MAX_MESSAGES
    decreases |rest|
  {
    if rest == "" then []
    else
      var avail := Avail(budget, reopen);
      if Bytes(rest) <= avail then [Segment(reopen, rest, "", rest, false)]
      else if sent + 1 >= MAX_MESSAGES then [Segment(reopen, rest, "", TruncateBytes(rest, avail), true)]
      else
        var g := CutOff(rest, avail, reopen);
        [g] + Segments(After(rest, avail), budget, OpensNext(g), sent + 1)
  }

  function Bodies(gs: seq<Segment>): seq<string> {
    if gs == [] then [] else [Body(gs[0])] + Bodies(gs[1..])
  }

  /** The text a run of segments stands for. */
  function Source(gs: seq<Segment>): string {
    if gs == [] then "" else gs[0].raw + gs[0].gap + Source(gs[1..])
  }

  /** What they show, without the markers of fences and truncation. */
  function Shown(gs: seq<Segment>): string {
    if gs == [] then "" else Squeeze(gs[0].head) + Shown(gs[1..])
  }

  /** The chunks of a text; a text without segments still yields one empty chunk. */
  function Chunks(text: string, budget: nat): seq<string> {
    if text == "" then [""] else Bodies(Segments(text, budget, false, 0))
  }

  lemma {:induction false} BodiesAt(gs: seq<Segment>)
    ensures |Bodies(gs)| == |gs| && forall i :: 0 <= i < |gs| ==> Bodies(gs)[i] == Body(gs[i])
  {
    if gs != [] {
      BodiesAt(gs[1..]);
    }
  }

  /** One round of the loop: a cut, or one of the two ways to end. */
  lemma Round(rest: string, budget: nat, reopen: bool, sent: nat)
    requires sent < MAX_MESSAGES && rest != ""
    ensures var avail := Avail(budget, reopen); var bodies := Bodies(Segments(rest, budget, reopen, sent));
            if Bytes(rest) <= avail then bodies == [CloseOpenFence(Prefix(reopen) + rest).0]
            else if sent + 1 >= MAX_MESSAGES then
              bodies == [CloseOpenFence(Prefix(reopen) + TruncateBytes(rest, avail)).0]
            else
              var (piece, open) := CloseOpenFence(Prefix(reopen) + Head(rest[..Boundary(rest, avail)]));
              bodies == [piece] + Bodies(Segments(After(rest, avail), budget, open, sent + 1))
  {
    hide Boundary, After, Bytes, FenceCount, CloseOpenFence, Head, TruncateBytes;
    var avail := Avail(budget, reopen);
    assert Bodies([]) == [];
    if Bytes(rest) > avail && sent + 1 < MAX_MESSAGES {
      var g := CutOff(rest, avail, reopen);
      var tail := Segments(After(rest, avail), budget, OpensNext(g), sent + 1);
      assert ([g] + tail)[1..] == tail;
    }
  }

  method SplitForMatrix(text: string, budget: nat) returns (out: seq<string>)
    ensures out == Chunks(text, budget)
  {
    hide Boundary, Bytes, FenceCount, CloseOpenFence, TruncateBytes, Head, TrimNewlines, Segments, Bodies, Prefix,
         Avail;
    out := [];
    var rest := text;
    var reopen := false;
    ghost var all := Bodies(Segments(text, budget, false, 0));
    while rest != ""
      invariant |out| < MAX_MESSAGES
      invariant out + Bodies(Segments(rest, budget, reopen, |out|)) == all
      invariant rest == text || out != []
      invariant text == "" ==> rest == "" && out == []
      decreases |rest|
    {
      Round(rest, budget, reopen, |out|);
      var prefix := Prefix(reopen);
      var avail := Avail(budget, reopen);
      if Bytes(rest) <= avail {
        var (last, _) := CloseOpenFence(prefix + rest);
        out := out + [last];
        return;
      }
      if |out| + 1 >= MAX_MESSAGES {
        var body := Truncate(rest, avail);
        var (last, _) := CloseOpenFence(prefix + body);
        out := out + [last];
        return;
      }
      var cut := PickBoundary(rest, avail);
      var head := Head(rest[..cut]);
      var (piece, open) := CloseOpenFence(prefix + head);
      ghost var later := Bodies(Segments(After(rest, avail), budget, open, |out| + 1));
      assert out + ([piece] + later) == (out + [piece]) + later;
      out := out + [piece];
      reopen := open;
      rest := TrimNewlines(rest[cut..]);
    }
    EmptySegments(budget, reopen, |out|);
    if out == [] {
      out := [""];
    }
  }

  lemma EmptySegments(budget: nat, reopen: bool, sent: nat)
    requires sent < MAX_MESSAGES
    ensures Bodies(Segments("", budget, reopen, sent)) == []
  {
  }

  // -------------------------------------------------------------------------
  // Every chunk fits and is balanced, and there are few of them
  // -------------------------------------------------------------------------

  /** What is true of a segment on its own. */
  ghost predicate Sound(g: Segment, budget: nat) {
    && (forall i :: 0 <= i < |g.gap| ==> g.gap[i] == '\n')
    && (!g.truncated ==>
          g.head <= g.raw && Blank(g.raw[|g.head|..]) && Bytes(g.head) <= Max(4, Avail(budget, g.reopened)))
    && (g.truncated ==>
          && Bytes(g.head) <= Avail(budget, g.reopened) + 15
          && g.head == g.raw[..Fit(g.raw, Avail(budget, g.reopened))] + TRUNCATED)
  }

  ghost predicate AllSound(gs: seq<Segment>, budget: nat) {
    forall i :: 0 <= i < |gs| ==> Sound(gs[i], budget)
  }

  /** Only the last of fifty messages may be truncated, `sent` coming before `gs`. */
  ghost predicate TruncatedLast(gs: seq<Segment>, sent: nat) {
    forall i :: 0 <= i < |gs| && gs[i].truncated ==> i + sent == MAX_MESSAGES - 1
  }

  lemma SoundCons(g: Segment, gs: seq<Segment>, budget: nat, sent: nat)
    requires Sound(g, budget) && AllSound(gs, budget)
    requires (!g.truncated || sent == MAX_MESSAGES - 1) && TruncatedLast(gs, sent + 1)
    ensures AllSound([g] + gs, budget) && TruncatedLast([g] + gs, sent)
    ensures Source([g] + gs) == g.raw + g.gap + Source(gs)
  {
    assert ([g] + gs)[1..] == gs;
    forall i | 0 < i < |[g] + gs|
      ensures ([g] + gs)[i] == gs[i - 1]
    {
    }
  }

  lemma {:induction false} SegmentsSound(rest: string, budget: nat, reopen: bool, sent: nat)
    requires sent < MAX_MESSAGES
    ensures var gs := Segments(rest, budget, reopen, sent);
            && |gs| <= MAX_MESSAGES - sent && (rest != "" ==> gs != [])
            && Source(gs) == rest && AllSound(gs, budget) && TruncatedLast(gs, sent)
    decreases |rest|
  {
    hide Boundary, CutOff, After;
    if rest != "" {
      var avail := Avail(budget, reopen);
      if Bytes(rest) <= avail || sent + 1 >= MAX_MESSAGES {
        LastSound(rest, budget, reopen);
        SoundCons(Segments(rest, budget, reopen, sent)[0], [], budget, sent);
        assert Segments(rest, budget, reopen, sent) == Segments(rest, budget, reopen, sent) + [];
      } else {
        var g := CutOff(rest, avail, reopen);
        CutOffSound(rest, budget, reopen);
        SegmentsSound(After(rest, avail), budget, OpensNext(g), sent + 1);
        SoundCons(g, Segments(After(rest, avail), budget, OpensNext(g), sent + 1), budget, sent);
      }
    }
  }

  lemma LastSound(rest: string, budget: nat, reopen: bool)
    ensures var avail := Avail(budget, reopen);
            if Bytes(rest) <= avail then Sound(Segment(reopen, rest, "", rest, false), budget)
            else Sound(Segment(reopen, rest, "", TruncateBytes(rest, avail), true), budget)
  {
    TruncatedSize(rest, Avail(budget, reopen));
  }

  lemma GapIsNewlines(rest: string, cut: nat)
    requires cut <= |rest|
    ensures var tail := rest[cut..]; var gap := tail[..|tail| - |TrimNewlines(tail)|];
            rest == rest[..cut] + gap + TrimNewlines(tail) && forall i :: 0 <= i < |gap| ==> gap[i] == '\n'
  {
    hide TrimNewlines;
    var tail := rest[cut..];
    assert tail == tail[..|tail| - |TrimNewlines(tail)|] + TrimNewlines(tail);
    assert rest == rest[..cut] + tail;
  }

  lemma HeadFits(raw: string)
    ensures Bytes(Head(raw)) <= Bytes(raw)
  {
    PrefixBytes(raw, |Head(raw)|, |raw|);
    assert raw[..|raw|] == raw && raw[..|Head(raw)|] == Head(raw);
  }

  lemma CutOffSound(rest: string, budget: nat, reopen: bool)
    requires rest != ""
    ensures var avail := Avail(budget, reopen); var g := CutOff(rest, avail, reopen);
            Sound(g, budget) && rest == g.raw + g.gap + After(rest, avail)
  {
    hide Boundary, Bytes, TrimEnd, TrimNewlines, Avail, Head;
    var avail := Avail(budget, reopen);
    BoundarySize(rest, avail);
    GapIsNewlines(rest, Boundary(rest, avail));
    HeadFits(rest[..Boundary(rest, avail)]);
  }

  lemma BodySize(g: Segment, budget: nat)
    requires Sound(g, budget)
    ensures FenceCount(Body(g)) % 2 == 0
    ensures Bytes(Body(g)) <= Max(budget, 8) + 4 + if g.truncated then 15 else 0
  {
    ClosedIsBalanced(Prefix(g.reopened) + g.head);
    CountOpening(g.head);
    assert "" + g.head == g.head;
  }

  /** One to fifty chunks, each with an even number of fences, each at most four bytes
      over the budget (of at least eight bytes), or nineteen if it is the truncated
      fiftieth. */
  lemma ChunksFit(text: string, budget: nat)
    ensures var cs := Chunks(text, budget);
            && 1 <= |cs| <= MAX_MESSAGES
            && forall i :: 0 <= i < |cs| ==>
                 && FenceCount(cs[i]) % 2 == 0
                 && Bytes(cs[i]) <= Max(budget, 8) + if i == MAX_MESSAGES - 1 then 19 else 4
  {
    var gs := Segments(text, budget, false, 0);
    SegmentsSound(text, budget, false, 0);
    BodiesAt(gs);
    forall i | 0 <= i < |gs|
      ensures FenceCount(Body(gs[i])) % 2 == 0
      ensures Bytes(Body(gs[i])) <= Max(budget, 8) + if i == MAX_MESSAGES - 1 then 19 else 4
    {
      BodySize(gs[i], budget);
    }
  }

  // -------------------------------------------------------------------------
  // Nothing but whitespace is lost
  // -------------------------------------------------------------------------

  ghost predicate Untruncated(gs: seq<Segment>) {
    forall i :: 0 <= i < |gs| ==> !gs[i].truncated
  }

  lemma ShownAlone(g: Segment, budget: nat, rest: string)
    requires Sound(g, budget) && !g.truncated
    ensures Squeeze(g.raw + g.gap + rest) == Squeeze(g.head) + Squeeze(rest)
  {
    hide Squeeze, Bytes, Avail;
    SqueezeTrimmed(g.raw, g.head);
    SqueezeConcat(g.raw + g.gap, rest);
    SqueezeConcat(g.raw, g.gap);
    SqueezeBlank(g.gap);
  }

  lemma {:induction false} ShownIsSource(gs: seq<Segment>, budget: nat)
    requires AllSound(gs, budget) && Untruncated(gs)
    ensures Shown(gs) == Squeeze(Source(gs))
  {
    if gs != [] {
      hide Squeeze, Bytes, Sound;
      ShownIsSource(gs[1..], budget);
      ShownAlone(gs[0], budget, Source(gs[1..]));
    }
  }

  /** Unless a chunk is truncated, the heads of the chunks hold every non-whitespace
      character of the text, in order. */
  lemma SplittingConserves(text: string, budget: nat)
    ensures var gs := Segments(text, budget, false, 0);
            && Source(gs) == text
            && (Untruncated(gs) ==> Shown(gs) == Squeeze(text))
  {
    SegmentsSound(text, budget, false, 0);
    var gs := Segments(text, budget, false, 0);
    if Untruncated(gs) {
      ShownIsSource(gs, budget);
    }
  }

  /** With a budget of at least 3007 bytes every cut takes at least 1500 bytes. */
  lemma CutIsLarge(s: string, avail: nat)
    requires 3003 <= avail < Bytes(s)
    ensures MIN_SPLIT <= Bytes(s[..Boundary(s, avail)])
  {
    assert s != "";
    BoundarySize(s, avail);
    FitIsLargest(s, avail);
    assert s[..|s|] == s;
  }

  lemma CutTakesEnough(rest: string, budget: nat, reopen: bool)
    requires 3007 <= budget && Avail(budget, reopen) < Bytes(rest)
    ensures rest != "" && Bytes(After(rest, Avail(budget, reopen))) + MIN_SPLIT <= Bytes(rest)
  {
    var avail := Avail(budget, reopen);
    var cut := Boundary(rest, avail);
    CutIsLarge(rest, avail);
    BytesSplit(rest, cut);
    BytesSplit(rest[cut..], |rest[cut..]| - |After(rest, avail)|);
  }

  lemma {:induction false} EnoughMessages(rest: string, budget: nat, reopen: bool, sent: nat)
    requires 3007 <= budget && sent < MAX_MESSAGES
    requires Bytes(rest) <= budget - 4 + MIN_SPLIT * (MAX_MESSAGES - 1 - sent)
    ensures Untruncated(Segments(rest, budget, reopen, sent))
    decreases |rest|
  {
    hide Boundary, CutOff, After;
    var avail := Avail(budget, reopen);
    if rest != "" && avail < Bytes(rest) {
      var g := CutOff(rest, avail, reopen);
      CutTakesEnough(rest, budget, reopen);
      EnoughMessages(After(rest, avail), budget, OpensNext(g), sent + 1);
    }
  }

  /** At the streaming budget no text of up to 79,496 bytes is truncated. */
  lemma NeverTruncated(text: string)
    requires Bytes(text) <= 79_496
    ensures var gs := Segments(text, 6000, false, 0);
            Untruncated(gs) && Shown(gs) == Squeeze(text)
  {
    EnoughMessages(text, 6000, false, 0);
    SplittingConserves(text, 6000);
  }

  // -------------------------------------------------------------------------
  // A fence is reopened exactly where the text has one open
  // -------------------------------------------------------------------------

  /** Each segment but the first is reopened when its predecessor had to be closed. */
  ghost predicate Chained(gs: seq<Segment>) {
    forall i :: 0 < i < |gs| ==> gs[i].reopened == OpensNext(gs[i - 1])
  }

  lemma ChainCons(g: Segment, gs: seq<Segment>)
    requires Chained(gs) && (gs != [] ==> gs[0].reopened == OpensNext(g))
    ensures Chained([g] + gs)
  {
    var all := [g] + gs;
    forall i | 0 < i < |all|
      ensures all[i].reopened == OpensNext(all[i - 1])
    {
      assert all[i] == gs[i - 1] && (i > 1 ==> all[i - 1] == gs[i - 2]);
    }
  }

  lemma {:induction false} SegmentsChained(rest: string, budget: nat, reopen: bool, sent: nat)
    requires sent < MAX_MESSAGES
    ensures var gs := Segments(rest, budget, reopen, sent);
            Chained(gs) && (gs != [] ==> gs[0].reopened == reopen)
    decreases |rest|
  {
    hide Boundary, CutOff, After;
    var avail := Avail(budget, reopen);
    if rest != "" && avail < Bytes(rest) && sent + 1 < MAX_MESSAGES {
      var g := CutOff(rest, avail, reopen);
      SegmentsChained(After(rest, avail), budget, OpensNext(g), sent + 1);
      ChainCons(g, Segments(After(rest, avail), budget, OpensNext(g), sent + 1));
    }
  }

  /** How many of the first `n` segments begin inside a fence marker of the text. */
  function FencesCut(gs: seq<Segment>, n: nat): nat
    requires n <= |gs|
  {
    if n == 0 then 0
    else FencesCut(gs, n - 1) + if CutsFence(Source(gs[..n - 1]), gs[n - 1].raw) then 1 else 0
  }

  lemma {:induction false} SourceSnoc(gs: seq<Segment>, n: nat)
    requires n < |gs|
    ensures Source(gs[..n + 1]) == Source(gs[..n]) + gs[n].raw + gs[n].gap
  {
    if n == 0 {
      assert gs[..1][1..] == [] && gs[..0] == [];
    } else {
      SourceSnoc(gs[1..], n - 1);
      assert gs[..n + 1][1..] == gs[1..][..n] && gs[..n][1..] == gs[1..][..n - 1];
      var a, b, c := gs[0].raw + gs[0].gap, Source(gs[1..][..n - 1]), gs[n].raw + gs[n].gap;
      assert a + (b + gs[n].raw + gs[n].gap) == (a + b) + gs[n].raw + gs[n].gap;
    }
  }

  lemma OpensNextParity(g: Segment, budget: nat)
    requires Sound(g, budget) && !g.truncated
    ensures OpensNext(g) <==> (FenceCount(g.raw) + if g.reopened then 1 else 0) % 2 == 1
  {
    CountTrimmed(g.raw, g.head);
    CountOpening(g.head);
    assert "" + g.head == g.head;
  }

  /** One more segment adds its own fences and the one its cut went through. */
  lemma SegmentFences(gs: seq<Segment>, budget: nat, n: nat)
    requires n < |gs| && Sound(gs[n], budget)
    ensures FenceCount(Source(gs[..n + 1])) ==
            FenceCount(Source(gs[..n])) + FenceCount(gs[n].raw)
            + if CutsFence(Source(gs[..n]), gs[n].raw) then 1 else 0
  {
    hide FenceCount, CutsFence, Source;
    SourceSnoc(gs, n);
    var before := Source(gs[..n]);
    CountConcat(before, gs[n].raw);
    CountApart(before + gs[n].raw, gs[n].gap);
    CountNoTicks(gs[n].gap);
  }

  lemma Parity(before: nat, cut: nat, own: nat, open: bool)
    requires cut <= before && (open <==> (before - cut) % 2 == 1)
    ensures (own + if open then 1 else 0) % 2 == (before - cut + own) % 2
  {
  }

  lemma {:induction false} ReopenedParity(gs: seq<Segment>, budget: nat, i: nat)
    requires Chained(gs) && i < |gs| && !gs[0].reopened
    requires forall j :: 0 <= j < i ==> Sound(gs[j], budget) && !gs[j].truncated
    ensures FencesCut(gs, i) <= FenceCount(Source(gs[..i]))
    ensures gs[i].reopened <==> (FenceCount(Source(gs[..i])) - FencesCut(gs, i)) % 2 == 1
  {
    hide FenceCount, CutsFence, Source, OpensNext, Bytes;
    if i == 0 {
      NothingBefore(gs);
    } else {
      var g := gs[i - 1];
      ReopenedParity(gs, budget, i - 1);
      SegmentFences(gs, budget, i - 1);
      OpensNextParity(g, budget);
      Parity(FenceCount(Source(gs[..i - 1])), FencesCut(gs, i - 1), FenceCount(g.raw), g.reopened);
    }
  }

  lemma NothingBefore(gs: seq<Segment>)
    ensures FenceCount(Source(gs[..0])) == 0
  {
  }

  /** Each segment is reopened when the text before it has an odd number of fences, not
      counting those that an earlier cut went through. */
  ghost predicate ReopenedByParity(text: string, gs: seq<Segment>) {
    forall i :: 0 <= i < |gs| ==>
      && text == Source(gs[..i]) + Source(gs[i..])
      && FencesCut(gs, i) <= FenceCount(Source(gs[..i]))
      && (gs[i].reopened <==> (FenceCount(Source(gs[..i])) - FencesCut(gs, i)) % 2 == 1)
  }

  /** The exact rule by which chunks are reopened with a fence. */
  lemma ReopenedExactly(text: string, budget: nat)
    ensures ReopenedByParity(text, Segments(text, budget, false, 0))
  {
    hide FencesCut, FenceCount, Boundary, CutOff, After, Source, Bytes, Avail, OpensNext;
    var gs := Segments(text, budget, false, 0);
    SegmentsSound(text, budget, false, 0);
    SegmentsChained(text, budget, false, 0);
    forall i | 0 <= i < |gs|
      ensures text == Source(gs[..i]) + Source(gs[i..])
      ensures FencesCut(gs, i) <= FenceCount(Source(gs[..i]))
      ensures gs[i].reopened <==> (FenceCount(Source(gs[..i])) - FencesCut(gs, i)) % 2 == 1
    {
      ReopenedParity(gs, budget, i);
      SourceSplit(gs, i);
    }
  }

  lemma {:induction false} SourceSplit(gs: seq<Segment>, i: nat)
    requires i <= |gs|
    ensures Source(gs) == Source(gs[..i]) + Source(gs[i..])
  {
    if i == 0 {
      assert gs[..0] == [] && gs[0..] == gs;
    } else {
      SourceSplit(gs[1..], i - 1);
      assert gs[..i][1..] == gs[1..][..i - 1] && gs[1..][i - 1..] == gs[i..];
      var first, x, y := gs[0].raw + gs[0].gap, Source(gs[1..][..i - 1]), Source(gs[i..]);
      assert first + (x + y) == (first + x) + y;
    }
  }

  /** Unless an earlier cut goes through a fence, a segment is reopened exactly when the
      original text before it has an odd number of fences. */
  ghost predicate ReopenedWhereOpen(gs: seq<Segment>) {
    forall i :: 0 <= i < |gs| && (forall j :: 0 <= j < i ==> !CutsFence(Source(gs[..j]), gs[j].raw)) ==>
      (gs[i].reopened <==> FenceCount(Source(gs[..i])) % 2 == 1)
  }

  lemma ParityWithoutCuts(text: string, gs: seq<Segment>)
    requires ReopenedByParity(text, gs)
    ensures ReopenedWhereOpen(gs)
  {
    hide FenceCount, CutsFence, FencesCut, Source;
    forall i | 0 <= i < |gs| && (forall j :: 0 <= j < i ==> !CutsFence(Source(gs[..j]), gs[j].raw))
      ensures gs[i].reopened <==> FenceCount(Source(gs[..i])) % 2 == 1
    {
      NoFencesCut(gs, i);
    }
  }

  /** When no cut splits a run of backticks, the fences of the chunks are those of the text. */
  lemma ReopenedAsInTheText(text: string, budget: nat)
    ensures ReopenedWhereOpen(Segments(text, budget, false, 0))
  {
    hide ReopenedByParity, ReopenedWhereOpen;
    ReopenedExactly(text, budget);
    ParityWithoutCuts(text, Segments(text, budget, false, 0));
  }

  lemma {:induction false} NoFencesCut(gs: seq<Segment>, n: nat)
    requires n <= |gs|
    requires forall j :: 0 <= j < n ==> !CutsFence(Source(gs[..j]), gs[j].raw)
    ensures FencesCut(gs, n) == 0
  {
    if n > 0 {
      NoFencesCut(gs, n - 1);
    }
  }
}
