/**
 A reply streamed into a room (crates/aqua-matrix-agent/src/lib.rs, `ReplyStream` and
 `retry_finalize`). The room answers every send from an arbitrary oracle; a send that
 fails leaves the room as it was. Ghost fields say what has been pushed and where it is.
 */
module ReplyStream {
  import opened Basics
  import opened Text
  import opened OpenGate
  import Splitter

  const STREAM_EDIT_INTERVAL: nat := 700
  const STREAM_ROLLOVER_BYTES: nat := 6000
  const FIRST_MESSAGE_MIN_BYTES: nat := 120
  const STREAM_REFRESH_COOLDOWN: nat := 10_000
  const FINALIZE_MAX_ATTEMPTS: nat := 5
  const FINALIZE_RETRY_BASE: nat := 500
  const CURSOR := " \U{258C}"
  const NO_OUTPUT := "(no output)"

  /** The body of an edit while the reply is still coming in. */
  function RenderStreaming(buf: string): string {
    CloseOpenFence(TruncateBytes(buf, STREAM_ROLLOVER_BYTES)).0 + CURSOR
  }

  // -------------------------------------------------------------------------
  // Every body is balanced and small
  // -------------------------------------------------------------------------

  predicate Presentable(body: string) {
    FenceCount(body) % 2 == 0 && Bytes(body) <= 6023
  }

  lemma CursorFacts(s: string)
    ensures FenceCount(s + CURSOR) == FenceCount(s) && Bytes(s + CURSOR) == Bytes(s) + 4
  {
    hide FenceCount, Bytes;
    CountApart(s, CURSOR);
    CountNoTicks(CURSOR);
    BytesConcat(s, CURSOR);
    CursorBytes();
  }

  lemma CursorBytes()
    ensures Bytes(CURSOR) == 4
  {
    assert CURSOR[1..] == "\U{258C}" && "\U{258C}"[1..] == "";
  }

  lemma RenderedIsPresentable(buf: string)
    ensures FenceCount(RenderStreaming(buf)) % 2 == 0 && Bytes(RenderStreaming(buf)) <= 6023
    ensures Presentable(RenderStreaming(buf))
  {
    hide FenceCount, Bytes, TruncateBytes, CloseOpenFence;
    var s := TruncateBytes(buf, STREAM_ROLLOVER_BYTES);
    TruncatedSize(buf, STREAM_ROLLOVER_BYTES);
    ClosedIsBalanced(s);
    CursorFacts(CloseOpenFence(s).0);
  }

  /** What a streaming edit shows: the buffer, or if it is too large as much of it as fits and
      the note that it was truncated; the missing half of an open fence; and the cursor. */
  lemma RenderedShows(buf: string)
    ensures var shown := if Bytes(buf) <= STREAM_ROLLOVER_BYTES then buf
                         else buf[..Fit(buf, STREAM_ROLLOVER_BYTES)] + TRUNCATED;
            && shown <= RenderStreaming(buf)
            && RenderStreaming(buf)[|shown|..]
               == (if FenceCount(shown) % 2 == 1 then "\n```" else "") + " \U{258C}"
  {
    hide Bytes, Fit, FenceCount;
    var shown := TruncateBytes(buf, STREAM_ROLLOVER_BYTES);
    assert shown + CURSOR == shown + ("" + CURSOR);
    assert (shown + CLOSING) + CURSOR == shown + (CLOSING + CURSOR);
  }

  lemma ChunksArePresentable(text: string)
    ensures var cs := Splitter.Chunks(text, STREAM_ROLLOVER_BYTES);
            && 1 <= |cs| <= Splitter.MAX_MESSAGES
            && forall i :: 0 <= i < |cs| ==>
                 FenceCount(cs[i]) % 2 == 0 && Bytes(cs[i]) <= 6023 && Presentable(cs[i])
  {
    hide FenceCount, Bytes, Splitter.Chunks;
    Splitter.ChunksFit(text, STREAM_ROLLOVER_BYTES);
  }

  // -------------------------------------------------------------------------
  // What a message holds of the reply
  // -------------------------------------------------------------------------

  /** The part of the reply a message holds, and the fence markers put around it. */
  datatype Piece = Piece(open: bool, content: string, closed: bool)

  function Mark(b: bool): string { if b then FENCE else "" }

  function Marked(p: Piece): string { Mark(p.open) + p.content + Mark(p.closed) }

  function Contents(ps: seq<Piece>): string {
    if ps == [] then "" else Contents(ps[..|ps| - 1]) + ps[|ps| - 1].content
  }

  /** Message by message, the messages show the pieces, up to whitespace. */
  ghost predicate Shows(messages: seq<string>, ps: seq<Piece>) {
    |messages| == |ps| && forall i :: 0 <= i < |ps| ==> Squeeze(messages[i]) == Marked(ps[i])
  }

  /** The first messages show these pieces. */
  ghost predicate ShowsFirst(messages: seq<string>, ps: seq<Piece>) {
    |ps| <= |messages| && Shows(messages[..|ps|], ps)
  }

  /** Together they hold exactly these non-whitespace characters, in order, apart from
      inserted fence markers. */
  ghost predicate Holds(messages: seq<string>, content: string) {
    exists ps :: Shows(messages, ps) && Contents(ps) == content
  }

  lemma MarkerSqueeze()
    ensures Squeeze(OPENING) == FENCE && Squeeze(CLOSING) == FENCE && Squeeze("") == ""
  {
    assert OPENING[1..] == "``\n" && "``\n"[1..] == "`\n" && "`\n"[1..] == "\n" && "\n"[1..] == "";
    assert CLOSING[1..] == "```" && "```"[1..] == "``" && "``"[1..] == "`" && "`"[1..] == "";
  }

  lemma {:induction false} ContentsConcat(a: seq<Piece>, b: seq<Piece>)
    ensures Contents(a + b) == Contents(a) + Contents(b)
  {
    if b == [] {
      assert a + b == a;
    } else {
      var b', c := b[..|b| - 1], b[|b| - 1].content;
      assert (a + b)[..|a + b| - 1] == a + b' && (a + b)[|a + b| - 1].content == c;
      ContentsConcat(a, b');
      assert (Contents(a) + Contents(b')) + c == Contents(a) + (Contents(b') + c);
    }
  }

  lemma ContentsOne(p: Piece)
    ensures Contents([p]) == p.content
  {
    assert [p][..0] == [];
  }

  /** Squeezing a closed head: its markers around its own characters. */
  lemma SqueezeClosed(reopened: bool, rest: string, head: string)
    requires Squeeze(head) == Mark(reopened) + rest
    ensures Squeeze(CloseOpenFence(head).0) == Mark(reopened) + rest + Mark(CloseOpenFence(head).1)
  {
    hide Squeeze, FenceCount;
    SqueezeConcat(head, CLOSING);
    MarkerSqueeze();
  }

  /** The chunks of a text whose first `open` marker was inserted hold the rest of it. */
  lemma ChunksHold(text: string, open: bool, body: string)
    requires text == Splitter.Prefix(open) + body && text != ""
    requires Splitter.Untruncated(Splitter.Segments(text, STREAM_ROLLOVER_BYTES, false, 0))
    ensures exists ps :: Shows(Splitter.Chunks(text, STREAM_ROLLOVER_BYTES), ps) && Contents(ps) == Squeeze(body)
  {
    hide FenceCount, Bytes, Squeeze, Splitter.Segments, CloseOpenFence;
    var gs := Splitter.Segments(text, STREAM_ROLLOVER_BYTES, false, 0);
    Splitter.SegmentsSound(text, STREAM_ROLLOVER_BYTES, false, 0);
    Splitter.SegmentsChained(text, STREAM_ROLLOVER_BYTES, false, 0);
    Splitter.SplittingConserves(text, STREAM_ROLLOVER_BYTES);
    SqueezeConcat(Splitter.Prefix(open), body);
    MarkerSqueeze();
    assert Splitter.Shown(gs) == Mark(open) + Squeeze(body);
    FirstShowsMark(text, open, body);
    var ps := PiecesOf(gs, open);
    PiecesShow(gs, open);
    PiecesContents(gs, open, Squeeze(body));
    Splitter.BodiesAt(gs);
    assert Splitter.Chunks(text, STREAM_ROLLOVER_BYTES) == Splitter.Bodies(gs);
  }

  /** The content of a segment: what it shows, without a marker inserted before it. */
  function PieceOf(g: Splitter.Segment, first: bool, open: bool): Piece {
    var shown := Squeeze(g.head);
    if first && open && |shown| >= 3 then Piece(true, shown[3..], Splitter.OpensNext(g))
    else Piece(g.reopened, shown, Splitter.OpensNext(g))
  }

  function PiecesOf(gs: seq<Splitter.Segment>, open: bool): seq<Piece> {
    seq(|gs|, i requires 0 <= i < |gs| => PieceOf(gs[i], i == 0, open))
  }

  /** Whoever begins with the inserted marker shows it. */
  ghost predicate MarkShown(gs: seq<Splitter.Segment>, open: bool) {
    gs != [] && !gs[0].reopened && (open ==> FENCE <= Squeeze(gs[0].head))
  }

  lemma SqueezeBody(g: Splitter.Segment)
    ensures Squeeze(Splitter.Body(g)) == Mark(g.reopened) + Squeeze(g.head) + Mark(Splitter.OpensNext(g))
  {
    hide Squeeze, FenceCount, CloseOpenFence;
    SqueezeConcat(Splitter.Prefix(g.reopened), g.head);
    MarkerSqueeze();
    SqueezeClosed(g.reopened, Squeeze(g.head), Splitter.Prefix(g.reopened) + g.head);
  }

  lemma PiecesShow(gs: seq<Splitter.Segment>, open: bool)
    requires MarkShown(gs, open)
    ensures Shows(Splitter.Bodies(gs), PiecesOf(gs, open))
  {
    hide Squeeze, Splitter.Body, Splitter.OpensNext, Splitter.Bodies;
    Splitter.BodiesAt(gs);
    forall i | 0 <= i < |gs|
      ensures Squeeze(Splitter.Body(gs[i])) == Marked(PiecesOf(gs, open)[i])
    {
      SqueezeBody(gs[i]);
    }
  }

  lemma {:induction false} PlainContents(gs: seq<Splitter.Segment>, ps: seq<Piece>)
    requires |ps| == |gs| && forall i :: 0 <= i < |gs| ==> ps[i].content == Squeeze(gs[i].head)
    ensures Contents(ps) == Splitter.Shown(gs)
  {
    hide Squeeze;
    if gs != [] {
      PlainContents(gs[1..], ps[1..]);
      assert ps == [ps[0]] + ps[1..];
      ContentsConcat([ps[0]], ps[1..]);
      ContentsOne(ps[0]);
    }
  }

  lemma StripMark(a: string, b: string, mark: string, rest: string)
    requires a + b == mark + rest && mark <= a
    ensures a[|mark|..] + b == rest
  {
    assert (mark + rest)[|mark|..] == rest;
    assert (a + b)[|mark|..] == a[|mark|..] + b;
  }

  lemma PiecesContents(gs: seq<Splitter.Segment>, open: bool, rest: string)
    requires MarkShown(gs, open) && Splitter.Shown(gs) == Mark(open) + rest
    ensures Contents(PiecesOf(gs, open)) == rest
  {
    hide Squeeze, Contents, Splitter.OpensNext;
    var ps := PiecesOf(gs, open);
    PlainContents(gs[1..], ps[1..]);
    assert ps == [ps[0]] + ps[1..];
    ContentsConcat([ps[0]], ps[1..]);
    ContentsOne(ps[0]);
    StripMark(Squeeze(gs[0].head), Splitter.Shown(gs[1..]), Mark(open), rest);
    assert Squeeze(gs[0].head)[0..] == Squeeze(gs[0].head);
  }

  /** A cut leaves at least four characters, so an inserted marker stays in one piece. */
  lemma FirstShowsMark(text: string, open: bool, body: string)
    requires text == Splitter.Prefix(open) + body && text != ""
    ensures MarkShown(Splitter.Segments(text, STREAM_ROLLOVER_BYTES, false, 0), open)
  {
    var avail := Splitter.Avail(STREAM_ROLLOVER_BYTES, false);
    var g := Splitter.Segments(text, STREAM_ROLLOVER_BYTES, false, 0)[0];
    if open {
      if Bytes(text) <= avail {
        MarkLeads(text);
      } else {
        var cut := Splitter.Boundary(text, avail);
        CutAfterMark(text, avail);
        SqueezeTrimmed(text[..cut], Splitter.Head(text[..cut]));
        assert text[..4] == OPENING;
        MarkLeads(text[..cut]);
      }
    }
  }

  lemma MarkLeads(s: string)
    requires OPENING <= s
    ensures FENCE <= Squeeze(s)
  {
    hide Squeeze;
    assert s == OPENING + s[4..];
    SqueezeConcat(OPENING, s[4..]);
    MarkerSqueeze();
  }

  lemma CutAfterMark(s: string, avail: nat)
    requires 3003 <= avail < Bytes(s)
    ensures s != "" && 4 <= Splitter.Boundary(s, avail) && Bytes(s[..Splitter.Boundary(s, avail)]) <= avail
  {
    hide Splitter.Boundary;
    Splitter.CutIsLarge(s, avail);
    Splitter.BoundarySize(s, avail);
    BytesBounds(s[..Splitter.Boundary(s, avail)]);
  }

  /** The body the live message keeps when the buffer rolls over, and whether it cut a fence open. */
  function FrozenHead(buf: string): (string, bool)
    requires buf != ""
  {
    CloseOpenFence(Splitter.Head(buf[..Splitter.Boundary(buf, STREAM_ROLLOVER_BYTES)]))
  }

  /** The buffer that goes on: what is behind the cut, with its fence reopened. */
  function NextBuffer(buf: string): string
    requires buf != ""
  {
    Splitter.Prefix(FrozenHead(buf).1) + TrimNewlines(buf[Splitter.Boundary(buf, STREAM_ROLLOVER_BYTES)..])
  }

  /** What is cut off at the clean boundary: the head without trailing whitespace (unless it is
      nothing else), closed if a fence is open at the cut, and then the rest, without leading
      line breaks, begins with a fence of its own. */
  lemma RollOverReopens(buf: string)
    requires buf != ""
    ensures var cut := Splitter.Boundary(buf, STREAM_ROLLOVER_BYTES);
            var raw := buf[..cut]; var head := if TrimEnd(raw) != "" then TrimEnd(raw) else raw;
            && (if FenceCount(raw) % 2 == 1 then
                  FrozenHead(buf).0 == head + "\n```" && NextBuffer(buf) == "```\n" + TrimNewlines(buf[cut..])
                else FrozenHead(buf).0 == head && NextBuffer(buf) == TrimNewlines(buf[cut..]))
  {
    hide Splitter.Boundary, FenceCount, TrimEnd, TrimNewlines;
    var cut := Splitter.Boundary(buf, STREAM_ROLLOVER_BYTES);
    CountTrimmed(buf[..cut], Splitter.Head(buf[..cut]));
    assert "" + TrimNewlines(buf[cut..]) == TrimNewlines(buf[cut..]);
  }

  /** `k` rollovers, each of a buffer that was too large, turn one buffer into the other. */
  ghost predicate RollsTo(from: string, k: nat, to: string)
    decreases k
  {
    if k == 0 then to == from
    else STREAM_ROLLOVER_BYTES < Bytes(from) && RollsTo(NextBuffer(from), k - 1, to)
  }

  /** The messages after `k` rollovers that all went well: each freezes the head of the
      buffer in the last message and shows the rest of it in a new one. */
  function RolledMessages(messages: seq<string>, from: string, k: nat): seq<string>
    decreases k
  {
    if k == 0 || from == "" || messages == [] then messages
    else
      var frozen := messages[|messages| - 1 := FrozenHead(from).0];
      RolledMessages(frozen + [RenderStreaming(NextBuffer(from))], NextBuffer(from), k - 1)
  }

  lemma {:induction false} RolledOnce(messages: seq<string>, from: string, k: nat, buf: string)
    requires messages != [] && RollsTo(from, k, buf) && STREAM_ROLLOVER_BYTES < Bytes(buf)
    ensures var rolled := RolledMessages(messages, from, k);
            && rolled != []
            && RolledMessages(messages, from, k + 1)
               == rolled[|rolled| - 1 := FrozenHead(buf).0] + [RenderStreaming(NextBuffer(buf))]
    decreases k
  {
    hide NextBuffer, FrozenHead, RenderStreaming;
    if k > 0 {
      var frozen := messages[|messages| - 1 := FrozenHead(from).0];
      RolledOnce(frozen + [RenderStreaming(NextBuffer(from))], NextBuffer(from), k - 1, buf);
    }
  }

  lemma {:induction false} RollsOnce(from: string, k: nat, buf: string)
    requires RollsTo(from, k, buf) && STREAM_ROLLOVER_BYTES < Bytes(buf)
    ensures RollsTo(from, k + 1, NextBuffer(buf))
    decreases k
  {
    hide NextBuffer;
    if k > 0 {
      RollsOnce(NextBuffer(from), k - 1, buf);
    }
  }

  /** A rollover takes the inserted marker and some of the body into the frozen head,
      and leaves the rest of the body, but for line breaks, to the continuation. */
  lemma RollOverParts(buf: string, open: bool, body: string)
    requires buf == Splitter.Prefix(open) + body && STREAM_ROLLOVER_BYTES < Bytes(buf)
    ensures buf != "" && |Splitter.Prefix(open)| <= Splitter.Boundary(buf, STREAM_ROLLOVER_BYTES)
    ensures var cut := Splitter.Boundary(buf, STREAM_ROLLOVER_BYTES);
            var (head, fence) := CloseOpenFence(Splitter.Head(buf[..cut]));
            var taken := Squeeze(body[..cut - |Splitter.Prefix(open)|]);
            && Presentable(head)
            && Squeeze(head) == Marked(Piece(open, taken, fence))
            && Squeeze(body) == taken + Squeeze(TrimNewlines(buf[cut..]))
  {
    hide Splitter.Boundary, Bytes, FenceCount, Squeeze, CloseOpenFence, TrimNewlines, Splitter.Head, Marked,
         Splitter.Prefix;
    CutAfterMark(buf, STREAM_ROLLOVER_BYTES);
    var cut := Splitter.Boundary(buf, STREAM_ROLLOVER_BYTES);
    PrefixSize(open);
    var head := Splitter.Head(buf[..cut]);
    CutParts(buf, open, body, cut);
    SqueezeTrimmed(buf[..cut], head);
    SqueezeClosed(open, Squeeze(body[..cut - |Splitter.Prefix(open)|]), head);
    MarkedIs(open, Squeeze(body[..cut - |Splitter.Prefix(open)|]), CloseOpenFence(head).1);
    Splitter.HeadFits(buf[..cut]);
    ClosedIsBalanced(head);
    NewlinesVanish(buf[cut..]);
  }

  lemma PrefixSize(open: bool)
    ensures |Splitter.Prefix(open)| <= 4 && Squeeze(Splitter.Prefix(open)) == Mark(open)
  {
    hide Squeeze;
    MarkerSqueeze();
  }

  lemma MarkedIs(open: bool, content: string, closed: bool)
    ensures Marked(Piece(open, content, closed)) == Mark(open) + content + Mark(closed)
  {
  }

  lemma CutParts(buf: string, open: bool, body: string, cut: nat)
    requires buf == Splitter.Prefix(open) + body && |Splitter.Prefix(open)| <= cut <= |buf|
    ensures var taken := body[..cut - |Splitter.Prefix(open)|];
            Squeeze(buf[..cut]) == Mark(open) + Squeeze(taken) && Squeeze(body) == Squeeze(taken) + Squeeze(buf[cut..])
  {
    hide Squeeze, Splitter.Prefix;
    var k := |Splitter.Prefix(open)|;
    assert buf[..cut] == Splitter.Prefix(open) + body[..cut - k];
    assert body == body[..cut - k] + buf[cut..];
    SqueezeConcat(Splitter.Prefix(open), body[..cut - k]);
    SqueezeConcat(body[..cut - k], buf[cut..]);
    PrefixSize(open);
  }

  lemma NewlinesVanish(s: string)
    ensures Squeeze(TrimNewlines(s)) == Squeeze(s)
  {
    hide Squeeze, TrimNewlines;
    var gap := s[..|s| - |TrimNewlines(s)|];
    assert s == gap + TrimNewlines(s);
    SqueezeConcat(gap, TrimNewlines(s));
    SqueezeBlank(gap);
  }

  lemma ShowsMore(messages: seq<string>, ps: seq<Piece>, more: seq<string>, qs: seq<Piece>)
    requires Shows(messages, ps) && Shows(more, qs)
    ensures Shows(messages + more, ps + qs)
  {
    hide Squeeze, Marked;
  }

  /** The frozen messages followed by the chunks of the buffer hold the whole reply. */
  lemma FinishHolds(kept: seq<string>, frozen: seq<Piece>, text: string, open: bool, body: string)
    requires Shows(kept, frozen) && text == Splitter.Prefix(open) + body && text != ""
    ensures Splitter.Untruncated(Splitter.Segments(text, STREAM_ROLLOVER_BYTES, false, 0)) ==>
              Holds(kept + Splitter.Chunks(text, STREAM_ROLLOVER_BYTES), Contents(frozen) + Squeeze(body))
  {
    hide Squeeze, Marked, Splitter.Chunks, Splitter.Segments, Contents;
    if Splitter.Untruncated(Splitter.Segments(text, STREAM_ROLLOVER_BYTES, false, 0)) {
      ChunksHold(text, open, body);
      var chunks := Splitter.Chunks(text, STREAM_ROLLOVER_BYTES);
      var ps :| Shows(chunks, ps) && Contents(ps) == Squeeze(body);
      ShowsMore(kept, frozen, chunks, ps);
      ContentsConcat(frozen, ps);
    }
  }

  lemma NoOutputHolds(kept: seq<string>, frozen: seq<Piece>)
    requires Shows(kept, frozen)
    ensures Holds(kept + Splitter.Chunks(NO_OUTPUT, STREAM_ROLLOVER_BYTES), Contents(frozen) + Squeeze(NO_OUTPUT))
  {
    hide Squeeze, Contents, Splitter.Chunks, Splitter.Segments, Bytes, Holds, Shows;
    AsciiBytes(NO_OUTPUT);
    Splitter.NeverTruncated(NO_OUTPUT);
    assert NO_OUTPUT == Splitter.Prefix(false) + NO_OUTPUT;
    FinishHolds(kept, frozen, NO_OUTPUT, false, NO_OUTPUT);
  }

  /** The non-whitespace characters of the messages, markers included. */
  function Total(messages: seq<string>): nat {
    if messages == [] then 0 else Total(messages[..|messages| - 1]) + |Squeeze(messages[|messages| - 1])|
  }

  lemma MarkedSize(p: Piece)
    ensures |Marked(p)| % 3 == |p.content| % 3
  {
    assert |FENCE| == 3;
  }

  lemma SumModThree(a: nat, b: nat, x: nat, y: nat)
    requires a % 3 == b % 3 && x % 3 == y % 3
    ensures (a + x) % 3 == (b + y) % 3
  {
  }

  /** A marker has three characters, so what messages hold is fixed modulo three. */
  lemma {:induction false} HeldSize(messages: seq<string>, ps: seq<Piece>)
    requires Shows(messages, ps)
    ensures |Contents(ps)| % 3 == Total(messages) % 3
  {
    hide Squeeze, Marked;
    if ps != [] {
      var n := |ps| - 1;
      HeldSize(messages[..n], ps[..n]);
      MarkedSize(ps[n]);
      SumModThree(|Contents(ps[..n])|, Total(messages[..n]), |ps[n].content|, |Squeeze(messages[n])|);
    }
  }

  /** Messages that hold a content and more, by other than threes, do not hold the content. */
  lemma HoldsNoLess(messages: seq<string>, content: string, more: string)
    requires Holds(messages, content + more) && |more| % 3 != 0
    ensures !Holds(messages, content)
  {
    hide Shows, Contents;
    var ps :| Shows(messages, ps) && Contents(ps) == content + more;
    HeldSize(messages, ps);
    forall qs | Shows(messages, qs)
      ensures Contents(qs) != content
    {
      HeldSize(messages, qs);
    }
  }

  lemma NoOutputSize()
    ensures |Squeeze(NO_OUTPUT)| == 10
  {
    hide Squeeze;
    assert NO_OUTPUT == "(no" + " " + "output)";
    TwoWords("(no", "output)");
  }

  lemma TwoWords(a: string, b: string)
    requires forall i :: 0 <= i < |a| ==> !IsWhitespace(a[i])
    requires forall i :: 0 <= i < |b| ==> !IsWhitespace(b[i])
    ensures Squeeze(a + " " + b) == a + b
  {
    hide Squeeze;
    SqueezeConcat(a + " ", b);
    SqueezeConcat(a, " ");
    SqueezePlain(a);
    SqueezePlain(b);
    SqueezeBlank(" ");
    assert a + "" == a;
  }

  lemma {:induction false} SqueezePlain(s: string)
    requires forall i :: 0 <= i < |s| ==> !IsWhitespace(s[i])
    ensures Squeeze(s) == s
  {
    if s != "" {
      SqueezePlain(s[1..]);
    }
  }

  /** A blank buffer has no inserted marker and holds nothing. */
  lemma BlankBuffer(open: bool, body: string)
    requires Blank(Splitter.Prefix(open) + body)
    ensures !open && Squeeze(body) == ""
  {
    assert (Splitter.Prefix(true) + body)[0] == '`';
    assert Splitter.Prefix(false) + body == body;
    if !open {
      SqueezeBlank(body);
    }
  }

  // -------------------------------------------------------------------------
  // The room
  // -------------------------------------------------------------------------

  datatype Outcome = Sent | UnknownToken | Failed

  /** One answer of the server, to a send or to a token refresh, and how long it took. */
  datatype Reply = Reply(lag: nat, outcome: Outcome)

  function Posted(messages: seq<string>, target: Option<nat>, body: string): seq<string>
    requires target.Some? ==> target.value < |messages|
  {
    match target
    case None => messages + [body]
    case Some(id) => messages[id := body]
  }

  /** A post adds a message at the end; an edit changes the one it names and no other. */
  lemma PostedIs(messages: seq<string>, target: Option<nat>, body: string)
    requires target.Some? ==> target.value < |messages|
    ensures var n := Posted(messages, target, body);
            && |n| == |messages| + (if target.None? then 1 else 0)
            && n[if target.None? then |messages| else target.value] == body
            && forall i :: 0 <= i < |messages| && target != Some(i) ==> n[i] == messages[i]
  {
  }

  /** The messages of one reply, as the homeserver keeps them. */
  class Room {
    const oracle: nat -> Reply
    var clock: nat
    var calls: nat
    var messages: seq<string>
    /** Every body that was ever given to a send, and how often a session was minted. */
    ghost var bodies: seq<string>
    ghost var refreshes: nat
    /** How long senders have slept. */
    ghost var slept: nat

    constructor (oracle: nat -> Reply)
      ensures this.oracle == oracle && messages == [] && bodies == [] && refreshes == 0 && slept == 0
    {
      this.oracle := oracle;
      clock, calls, messages := 0, 0, [];
      bodies, refreshes, slept := [], 0, 0;
    }

    /** Every request is granted. */
    ghost predicate Willing() { forall i: nat :: oracle(i).outcome.Sent? }

    method Send(target: Option<nat>, body: string) returns (r: Outcome)
      requires target.Some? ==> target.value < |messages|
      modifies this
      ensures r == oracle(old(calls)).outcome && calls == old(calls) + 1
      ensures clock == old(clock) + oracle(old(calls)).lag && slept == old(slept)
      ensures bodies == old(bodies) + [body] && refreshes == old(refreshes)
      ensures messages == if r.Sent? then Posted(old(messages), target, body) else old(messages)
    {
      r := oracle(calls).outcome;
      clock, calls := clock + oracle(calls).lag, calls + 1;
      bodies := bodies + [body];
      if r.Sent? {
        messages := Posted(messages, target, body);
      }
    }

    method Refresh() returns (ok: bool)
      modifies this
      ensures ok == oracle(old(calls)).outcome.Sent? && calls == old(calls) + 1
      ensures clock == old(clock) + oracle(old(calls)).lag && slept == old(slept)
      ensures messages == old(messages) && bodies == old(bodies) && refreshes == old(refreshes) + 1
    {
      ok := oracle(calls).outcome.Sent?;
      clock, calls := clock + oracle(calls).lag, calls + 1;
      refreshes := refreshes + 1;
    }

    method Pass(ms: nat)
      modifies this`clock, this`slept
      ensures clock == old(clock) + ms && slept == old(slept) + ms
    {
      clock, slept := clock + ms, slept + ms;
    }
  }

  /** `now` extends `before` by at most `most` sends of `body`. */
  ghost predicate SentOnly(before: seq<string>, now: seq<string>, body: string, most: nat) {
    && |before| <= |now| <= |before| + most && now[..|before|] == before
    && forall i :: |before| <= i < |now| ==> now[i] == body
  }

  ghost predicate AllPresentable(bodies: seq<string>) {
    forall i :: 0 <= i < |bodies| ==> Presentable(bodies[i])
  }

  lemma BodiesAre(bodies: seq<string>)
    requires AllPresentable(bodies)
    ensures forall i :: 0 <= i < |bodies| ==> FenceCount(bodies[i]) % 2 == 0 && Bytes(bodies[i]) <= 6023
  {
  }

  lemma SentOnlyPresentable(before: seq<string>, now: seq<string>, body: string, most: nat)
    requires SentOnly(before, now, body, most) && AllPresentable(before) && Presentable(body)
    ensures AllPresentable(now)
  {
    hide Presentable;
    forall i | 0 <= i < |now|
      ensures Presentable(now[i])
    {
      if i < |before| {
        assert now[i] == before[i];
      }
    }
  }

  // -------------------------------------------------------------------------
  // The stream
  // -------------------------------------------------------------------------

  class Stream {
    const room: Room
    const gate: Gate
    /** Whether the stream knows how to mint a fresh session. */
    const canRefresh: bool
    var lastRefresh: Option<nat>
    var gaveUp: bool
    var eventId: Option<nat>
    var buf: string
    var lastEdit: nat
    var pending: bool
    var messages: nat

    /** The pieces in the frozen messages, and whether every freezing edit of them was acknowledged. */
    ghost var frozen: seq<Piece>
    ghost var acked: bool
    /** The buffer is `body`, behind an inserted marker if `open`. */
    ghost var open: bool
    ghost var body: string
    /** The non-whitespace characters of the reply so far. */
    ghost var content: string
    /** The failing attempts to open a message since the last success. */
    ghost var streak: seq<Attempt>

    /** The gate is where the streak of failing opens has brought it. */
    ghost predicate GateOk()
      reads this`streak, gate
    {
      gate.View() == AfterStreak(streak) && Allowed(streak)
    }

    ghost predicate Valid()
      reads this`messages, this`eventId, this`buf, this`frozen, this`acked, this`open, this`body, this`content,
            this`streak, room`messages, room`bodies, gate
    {
      && messages <= Splitter.MAX_MESSAGES && |room.messages| == messages
      && eventId == (if messages == 0 then None else Some(messages - 1))
      && |frozen| == (if messages == 0 then 0 else messages - 1)
      && buf == Splitter.Prefix(open) + body
      && Contents(frozen) + Squeeze(body) == content
      && (acked ==> ShowsFirst(room.messages, frozen))
      && GateOk() && AllPresentable(room.bodies)
    }

    /** Nothing goes wrong, and nothing has since the last message was opened. */
    ghost predicate Smooth()
      reads this`gaveUp, this`streak
    {
      room.Willing() && !gaveUp && streak == []
    }

    constructor (room: Room, canRefresh: bool)
      requires room.messages == [] && room.bodies == []
      ensures Valid() && fresh(gate) && this.room == room && content == "" && buf == "" && frozen == [] && acked
      ensures this.canRefresh == canRefresh && gate.View() == FRESH && lastRefresh.None? && !gaveUp && streak == []
      ensures eventId.None? && messages == 0 && lastEdit == room.clock && !pending
    {
      this.room, this.canRefresh := room, canRefresh;
      gate := new Gate();
      lastRefresh, gaveUp, eventId, buf, lastEdit, pending, messages := None, false, None, "", room.clock, false, 0;
      frozen, acked, open, body, content, streak := [], true, false, "", "", [];
    }

    /** A session may be minted, and none was a moment ago. */
    predicate MayRefresh()
      reads this`lastRefresh, room`clock
    {
      canRefresh && (lastRefresh.Some? ==> lastRefresh.value + STREAM_REFRESH_COOLDOWN <= room.clock)
    }

    /** Swap in a freshly minted session, unless one was minted a moment ago. */
    method RefreshRoom() returns (ok: bool)
      modifies this`lastRefresh, room
      ensures room.messages == old(room.messages) && room.bodies == old(room.bodies) && room.slept == old(room.slept)
      ensures room.clock >= old(room.clock)
      ensures ok == (old(MayRefresh()) && room.oracle(old(room.calls)).outcome.Sent?)
      ensures room.refreshes == old(room.refreshes) + if old(MayRefresh()) then 1 else 0
      ensures room.calls == old(room.calls) + if old(MayRefresh()) then 1 else 0
      ensures lastRefresh == if old(MayRefresh()) then Some(old(room.clock)) else old(lastRefresh)
    {
      if !canRefresh {
        return false;
      }
      if lastRefresh.Some? && room.clock < lastRefresh.value + STREAM_REFRESH_COOLDOWN {
        return false;
      }
      lastRefresh := Some(room.clock);
      ok := room.Refresh();
    }

    /** Send a body; a refused token is refreshed once and the send repeated once. A token
        that is refused for good ends streaming. */
    method Deliver(target: Option<nat>, text: string) returns (r: Outcome)
      requires target.Some? ==> target.value < |room.messages|
      modifies this`lastRefresh, this`gaveUp, room
      ensures room.messages == if r.Sent? then Posted(old(room.messages), target, text) else old(room.messages)
      ensures SentOnly(old(room.bodies), room.bodies, text, 2) && |old(room.bodies)| < |room.bodies|
      ensures room.clock >= old(room.clock) && room.slept == old(room.slept)
      ensures gaveUp == (old(gaveUp) || r.UnknownToken?)
      ensures var first := room.oracle(old(room.calls)); var answered := old(room.clock) + first.lag;
              var refreshes := first.outcome.UnknownToken? && canRefresh
                               && (old(lastRefresh).Some? ==>
                                     old(lastRefresh).value + STREAM_REFRESH_COOLDOWN <= answered);
              var repeats := refreshes && room.oracle(old(room.calls) + 1).outcome.Sent?;
              && room.refreshes == old(room.refreshes) + (if refreshes then 1 else 0)
              && lastRefresh == (if refreshes then Some(answered) else old(lastRefresh))
              && |room.bodies| == |old(room.bodies)| + (if repeats then 2 else 1)
              && r == (if repeats then room.oracle(old(room.calls) + 2).outcome else first.outcome)
    {
      r := room.Send(target, text);
      if !r.UnknownToken? {
        return;
      }
      var swapped := RefreshRoom();
      if !swapped {
        gaveUp := true;
        return;
      }
      r := room.Send(target, text);
      if r.UnknownToken? {
        gaveUp := true;
      }
    }

    /** The pauses before the second and the following attempts: half a second, one, ... */
    static function Pauses(n: nat): nat {
      if n == 0 then 0 else Pauses(n - 1) + FINALIZE_RETRY_BASE * n
    }

    static lemma PausesAre()
      ensures Pauses(0) == 0 && Pauses(1) == 500 && Pauses(2) == 1500 && Pauses(3) == 3000 && Pauses(4) == 5000
    {
      assert Pauses(4) == Pauses(3) + 2000 && Pauses(3) == Pauses(2) + 1500;
    }

    /** Retry until acknowledged, at most five times; a refused token ends it at once. */
    method RetryFinalize(target: Option<nat>, text: string) returns (ok: bool, ghost tries: seq<Outcome>)
      requires target.Some? ==> target.value < |room.messages|
      modifies this`lastRefresh, this`gaveUp, room
      ensures room.messages == if ok then Posted(old(room.messages), target, text) else old(room.messages)
      ensures SentOnly(old(room.bodies), room.bodies, text, 2 * |tries|)
      ensures |room.bodies| >= |old(room.bodies)| + |tries| && room.clock >= old(room.clock)
      ensures 1 <= |tries| <= FINALIZE_MAX_ATTEMPTS && forall i :: 0 <= i < |tries| - 1 ==> tries[i].Failed?
      ensures var last := tries[|tries| - 1];
              && (ok <==> last.Sent?) && gaveUp == (old(gaveUp) || last.UnknownToken?)
              && (last.Failed? ==> |tries| == FINALIZE_MAX_ATTEMPTS)
      ensures room.slept == old(room.slept) + Pauses(|tries| - 1)
      ensures room.Willing() ==> ok && gaveUp == old(gaveUp)
    {
      tries := [];
      var attempt := 1;
      while attempt <= FINALIZE_MAX_ATTEMPTS
        invariant 1 <= attempt <= FINALIZE_MAX_ATTEMPTS + 1 && |tries| == attempt - 1
        invariant room.messages == old(room.messages) && room.clock >= old(room.clock)
        invariant SentOnly(old(room.bodies), room.bodies, text, 2 * |tries|)
        invariant |room.bodies| >= |old(room.bodies)| + |tries|
        invariant forall i :: 0 <= i < |tries| ==> tries[i].Failed?
        invariant gaveUp == old(gaveUp)
        invariant room.slept == old(room.slept) + Pauses(Min(|tries|, FINALIZE_MAX_ATTEMPTS - 1))
        invariant room.Willing() ==> attempt == 1
      {
        ghost var before := room.bodies;
        var r := Deliver(target, text);
        SentMore(old(room.bodies), before, room.bodies, text, 2 * |tries|, 2);
        tries := tries + [r];
        if r.Sent? {
          return true, tries;
        }
        if r.UnknownToken? {
          return false, tries;
        }
        if attempt < FINALIZE_MAX_ATTEMPTS {
          room.Pass(FINALIZE_RETRY_BASE * attempt);
        }
        attempt := attempt + 1;
      }
      ok := false;
    }

    static lemma SentMore(a: seq<string>, b: seq<string>, c: seq<string>, text: string, m: nat, n: nat)
      requires SentOnly(a, b, text, m) && SentOnly(b, c, text, n)
      ensures SentOnly(a, c, text, m + n)
    {
      assert forall i :: 0 <= i < |b| ==> c[i] == b[i];
    }

    /** Try to open a message, and tell the gate how it went. */
    method Open(text: string) returns (ok: bool)
      requires GateOk() && gate.View().Ready(room.clock) && Presentable(text) && AllPresentable(room.bodies)
      modifies this`lastRefresh, this`gaveUp, this`streak, room, gate
      ensures GateOk() && AllPresentable(room.bodies) && room.clock >= old(room.clock)
      ensures room.messages == if ok then old(room.messages) + [text] else old(room.messages)
      ensures |old(room.bodies)| < |room.bodies| <= |old(room.bodies)| + 2 && room.refreshes <= old(room.refreshes) + 1
      ensures SentOnly(old(room.bodies), room.bodies, text, 2)
      ensures if ok then streak == [] else |streak| == |old(streak)| + 1
      ensures (old(gaveUp) ==> gaveUp) && (room.Willing() ==> ok && gaveUp == old(gaveUp))
    {
      hide Presentable, AfterStreak, Allowed;
      ghost var start := room.clock;
      var r := Deliver(None, text);
      SentOnlyPresentable(old(room.bodies), room.bodies, text, 2);
      ok := r.Sent?;
      if ok {
        gate.Succeeded();
        streak := [];
        NoStreak();
      } else {
        StreakGrows(streak, Attempt(start, room.clock));
        var _ := gate.Failed(room.clock);
        streak := streak + [Attempt(start, room.clock)];
      }
    }

    /** Streaming goes on and the gate lets a message be opened now. */
    predicate MayOpen()
      reads this`gaveUp, gate, room`clock
    {
      !gaveUp && gate.View().Ready(room.clock)
    }

    /** A first message with the buffer was tried exactly if that was allowed, given what was
        sent before; if it is there, it shows the buffer. */
    ghost predicate OpensIfAllowed(allowed: bool, bodies: seq<string>)
      reads this`buf, this`eventId, room`bodies, room`messages
    {
      && (if allowed then |bodies| < |room.bodies| && room.bodies[|bodies|] == RenderStreaming(buf)
          else room.bodies == bodies && eventId.None?)
      && (eventId.Some? ==> room.messages == [RenderStreaming(buf)])
    }

    /** The first message of the reply, if the gate lets it be tried now. */
    method SendFirst()
      requires Valid() && eventId.None?
      modifies this`lastRefresh, this`gaveUp, this`eventId, this`messages, this`lastEdit, this`pending, this`streak,
               room, gate
      ensures Valid() && room.clock >= old(room.clock) && old(messages) <= messages
      ensures old(gaveUp) ==> gaveUp && room.bodies == old(room.bodies)
      ensures |room.bodies| <= |old(room.bodies)| + 2 && room.refreshes <= old(room.refreshes) + 1
      ensures eventId.None? && room.bodies != old(room.bodies) ==> |streak| == |old(streak)| + 1
      ensures OpensIfAllowed(old(MayOpen()), old(room.bodies))
      ensures if eventId.Some? then lastEdit == room.clock && !pending
              else lastEdit == old(lastEdit) && pending == old(pending)
      ensures old(Smooth()) ==> Smooth() && eventId.Some?
    {
      hide RenderStreaming, Contents, Squeeze, Presentable, GateOk;
      if gaveUp || !gate.View().Ready(room.clock) {
        NotReady();
        return;
      }
      RenderedIsPresentable(buf);
      var ok := Open(RenderStreaming(buf));
      if ok {
        eventId, messages := Some(0), 1;
        lastEdit, pending := room.clock, false;
        assert room.messages[..0] == [];
      }
    }

    /** However many chunks are pushed, a streak of failing opens spanning T seconds has at
        most 6 + T/30 attempts. */
    lemma OpensAreSpaced()
      requires Valid() && streak != []
      ensures |streak| <= 6 + (streak[|streak| - 1].start - streak[0].start) / OPEN_RETRY_MAX
    {
      StreakIsShort(streak);
    }

    /** A gate that is not ready has seen a failure. */
    lemma NotReady()
      requires GateOk()
      ensures gate.View().Ready(room.clock) || streak != []
    {
    }

    static lemma NoStreak()
      ensures AfterStreak([]) == FRESH && Allowed([])
    {
    }

    /** The messages so far, the live one frozen if its last edit is acknowledged. */
    function Frozen(froze: bool): seq<string>
      requires |room.messages| == messages && messages > 0 && buf != ""
      reads this`buf, this`messages, room`messages
    {
      if froze then room.messages[messages - 1 := FrozenHead(buf).0] else room.messages
    }

    /** Open a continuation for the tail of the buffer; if that works, the head stays behind, frozen. */
    method RollOver() returns (ok: bool, ghost froze: bool)
      requires Valid() && eventId.Some? && STREAM_ROLLOVER_BYTES < Bytes(buf) && messages < Splitter.MAX_MESSAGES
      modifies this`lastRefresh, this`gaveUp, this`eventId, this`messages, this`lastEdit, this`buf,
               this`frozen, this`acked, this`open, this`body, this`streak, room, gate
      ensures Valid() && eventId.Some? && room.clock >= old(room.clock) && (acked ==> old(acked))
      ensures old(gaveUp) ==> gaveUp && !ok && room.bodies == old(room.bodies)
      ensures !ok ==>
                && buf == old(buf) && room.messages == old(room.messages)
                && messages == old(messages) && frozen == old(frozen) && acked == old(acked)
                && lastEdit == old(lastEdit)
                && |room.bodies| <= |old(room.bodies)| + 2 && room.refreshes <= old(room.refreshes) + 1
                && (room.bodies != old(room.bodies) ==> |streak| == |old(streak)| + 1)
                && (gaveUp || streak != [])
      ensures ok ==>
                && messages == old(messages) + 1 && old(frozen) < frozen && streak == [] && lastEdit == room.clock
                && buf == NextBuffer(old(buf)) && acked == (old(acked) && froze)
                && room.messages == old(Frozen(froze)) + [RenderStreaming(buf)]
      ensures old(Smooth()) ==> ok && froze && Smooth() && acked == old(acked)
    {
      hide NextBuffer, FrozenHead, RenderStreaming, Contents, Squeeze, Presentable, GateOk, Bytes, Splitter.Prefix,
           Marked, ShowsFirst, AllPresentable, TrimNewlines, CloseOpenFence;
      if gaveUp || !gate.View().Ready(room.clock) {
        NotReady();
        return false, false;
      }
      var headFinal, fenceOpen, tail, piece := CutBuffer();
      RenderedIsPresentable(Splitter.Prefix(fenceOpen) + tail);
      ok := Open(RenderStreaming(Splitter.Prefix(fenceOpen) + tail));
      froze := false;
      if ok {
        froze := GoOn(headFinal, fenceOpen, tail, piece, old(room.messages));
      }
    }

    /** The head to freeze, balanced, and what goes to the continuation, behind a marker if a fence is open. */
    method CutBuffer() returns (headFinal: string, fenceOpen: bool, tail: string, ghost piece: Piece)
      requires Valid() && STREAM_ROLLOVER_BYTES < Bytes(buf)
      ensures Presentable(headFinal) && Squeeze(headFinal) == Marked(piece)
      ensures piece.open == open && piece.closed == fenceOpen
      ensures Contents(frozen + [piece]) + Squeeze(tail) == content
      ensures buf != "" && (headFinal, fenceOpen) == FrozenHead(buf)
      ensures Splitter.Prefix(fenceOpen) + tail == NextBuffer(buf)
    {
      hide Contents, Squeeze, Presentable, GateOk, Bytes, FenceCount, CloseOpenFence, Splitter.Boundary, Splitter.Head,
           Splitter.Prefix, TrimNewlines, Marked, ShowsFirst, AllPresentable;
      RollOverParts(buf, open, body);
      var cut := Splitter.PickBoundary(buf, STREAM_ROLLOVER_BYTES);
      headFinal, fenceOpen := CloseOpenFence(Splitter.Head(buf[..cut])).0, CloseOpenFence(Splitter.Head(buf[..cut])).1;
      tail := TrimNewlines(buf[cut..]);
      piece := Piece(open, Squeeze(body[..cut - |Splitter.Prefix(open)|]), fenceOpen);
      ContentsSnoc(frozen, piece);
      assert (Contents(frozen) + piece.content) + Squeeze(tail) == Contents(frozen) + (piece.content + Squeeze(tail));
    }

    /** The continuation is open: freeze the old message (best-effort) and edit the new one from now on. */
    method GoOn(headFinal: string, fenceOpen: bool, tail: string, ghost piece: Piece, ghost before: seq<string>)
      returns (ghost froze: bool)
      requires 1 <= messages < Splitter.MAX_MESSAGES && eventId == Some(messages - 1) && |frozen| == messages - 1
      requires |before| == messages && GateOk() && AllPresentable(room.bodies) && Presentable(headFinal)
      requires room.messages == before + [RenderStreaming(Splitter.Prefix(fenceOpen) + tail)]
      requires acked ==> ShowsFirst(before, frozen)
      requires Squeeze(headFinal) == Marked(piece) && Contents(frozen + [piece]) + Squeeze(tail) == content
      modifies this`lastRefresh, this`gaveUp, this`eventId, this`messages, this`lastEdit, this`buf,
               this`frozen, this`acked, this`open, this`body, room
      ensures Valid() && messages == old(messages) + 1 && frozen == old(frozen) + [piece]
      ensures room.clock >= old(room.clock) && acked == (old(acked) && froze) && (old(gaveUp) ==> gaveUp)
      ensures buf == Splitter.Prefix(fenceOpen) + tail && lastEdit == room.clock
      ensures room.messages == (if froze then before[|before| - 1 := headFinal] else before) + [RenderStreaming(buf)]
      ensures room.Willing() ==> froze && gaveUp == old(gaveUp)
    {
      hide RenderStreaming, Contents, Squeeze, Presentable, GateOk, Marked, ShowsFirst, Splitter.Prefix, AllPresentable;
      var newBuf := Splitter.Prefix(fenceOpen) + tail;
      froze := Freeze(headFinal, RenderStreaming(newBuf), piece, before);
      Advance(fenceOpen, tail, piece, froze);
    }

    /** From here on the newest message is the live one. */
    method Advance(fenceOpen: bool, tail: string, ghost piece: Piece, ghost froze: bool)
      requires 1 <= messages < Splitter.MAX_MESSAGES && |frozen| == messages - 1 && |room.messages| == messages + 1
      requires GateOk() && AllPresentable(room.bodies)
      requires acked && froze ==> ShowsFirst(room.messages, frozen + [piece])
      requires Contents(frozen + [piece]) + Squeeze(tail) == content
      modifies this`eventId, this`messages, this`lastEdit, this`buf, this`frozen, this`acked, this`open, this`body
      ensures Valid() && messages == old(messages) + 1 && frozen == old(frozen) + [piece]
      ensures acked == (old(acked) && froze) && buf == Splitter.Prefix(fenceOpen) + tail && lastEdit == room.clock
    {
      hide Contents, Squeeze, GateOk, ShowsFirst, Splitter.Prefix, AllPresentable;
      frozen, acked := frozen + [piece], acked && froze;
      open, body := fenceOpen, tail;
      buf := Splitter.Prefix(fenceOpen) + tail;
      eventId, messages := Some(messages), messages + 1;
      lastEdit := room.clock;
    }

    /** The freezing edit of the current message, with the continuation already open. */
    method Freeze(headFinal: string, next: string, ghost piece: Piece, ghost before: seq<string>) returns (froze: bool)
      requires |before| == |frozen| + 1 && eventId == Some(|frozen|) && room.messages == before + [next]
      requires AllPresentable(room.bodies) && Presentable(headFinal) && Squeeze(headFinal) == Marked(piece)
      modifies this`lastRefresh, this`gaveUp, room
      ensures AllPresentable(room.bodies) && room.clock >= old(room.clock) && (old(gaveUp) ==> gaveUp)
      ensures room.messages == (if froze then before[|before| - 1 := headFinal] else before) + [next]
      ensures room.Willing() ==> froze && gaveUp == old(gaveUp)
      ensures froze && ShowsFirst(before, frozen) ==> ShowsFirst(room.messages, frozen + [piece])
    {
      hide Squeeze, Presentable, Marked, ShowsFirst;
      ghost var tries;
      froze, tries := RetryFinalize(eventId, headFinal);
      SentOnlyPresentable(old(room.bodies), room.bodies, headFinal, 2 * |tries|);
      FreezeShows(before, frozen, headFinal, piece, next);
    }

    static lemma ContentsSnoc(ps: seq<Piece>, p: Piece)
      ensures Contents(ps + [p]) == Contents(ps) + p.content
    {
      assert (ps + [p])[..|ps|] == ps;
    }

    /** The freezing edit replaces the last message before the continuation. */
    static lemma FreezeShows(before: seq<string>, frozen: seq<Piece>, head: string, piece: Piece, next: string)
      requires |before| == |frozen| + 1 && Squeeze(head) == Marked(piece)
      ensures var after := Posted(before + [next], Some(|before| - 1), head);
              && after == before[|before| - 1 := head] + [next]
              && (ShowsFirst(before, frozen) ==> ShowsFirst(after, frozen + [piece]))
    {
      hide Squeeze, Marked;
      var after := Posted(before + [next], Some(|before| - 1), head);
      assert after[..|before|] == before[..|frozen|] + [head];
      if Shows(before[..|frozen|], frozen) {
        ShowsMore(before[..|frozen|], frozen, [head], [piece]);
      }
    }

    /** An edit whose failure is swallowed; nothing is sent after giving up. */
    method EditBestEffort(text: string)
      requires Valid() && eventId.Some? && Presentable(text)
      modifies this`lastRefresh, this`gaveUp, room
      ensures Valid() && room.clock >= old(room.clock)
      ensures if old(gaveUp) then gaveUp && room.bodies == old(room.bodies) && room.messages == old(room.messages)
              else |old(room.bodies)| < |room.bodies| && room.bodies[|old(room.bodies)|] == text
      ensures room.Willing() ==> gaveUp == old(gaveUp)
      ensures room.Willing() && !old(gaveUp) ==> room.messages == old(room.messages)[messages - 1 := text]
    {
      hide Contents, Squeeze, Presentable, GateOk, Marked;
      if gaveUp {
        return;
      }
      ghost var before := room.messages;
      var r := Deliver(eventId, text);
      SentOnlyPresentable(old(room.bodies), room.bodies, text, 2);
      assert room.messages[..|frozen|] == before[..|frozen|];
    }

    /** Show the buffer in the current message, with a cursor. */
    method EditNow()
      requires Valid() && eventId.Some?
      modifies this`lastRefresh, this`gaveUp, this`lastEdit, this`pending, room
      ensures Valid() && room.clock >= old(room.clock) && lastEdit == room.clock && !pending
      ensures if old(gaveUp) then gaveUp && room.bodies == old(room.bodies) && room.messages == old(room.messages)
              else |old(room.bodies)| < |room.bodies| && room.bodies[|old(room.bodies)|] == RenderStreaming(buf)
      ensures room.Willing() ==> gaveUp == old(gaveUp)
      ensures room.Willing() && !old(gaveUp) ==>
                room.messages == old(room.messages)[messages - 1 := RenderStreaming(buf)]
    {
      hide Contents, Squeeze, Presentable, GateOk, Marked, RenderStreaming;
      RenderedIsPresentable(buf);
      EditBestEffort(RenderStreaming(buf));
      lastEdit, pending := room.clock, false;
    }

    method Append(chunk: string)
      requires Valid()
      modifies this`buf, this`pending, this`body, this`content
      ensures Valid() && pending && buf == old(buf) + chunk && content == old(content) + Squeeze(chunk)
      ensures messages <= Splitter.MAX_MESSAGES
    {
      hide Contents, Squeeze, Presentable, GateOk, Marked;
      SqueezeConcat(body, chunk);
      assert buf + chunk == Splitter.Prefix(open) + (body + chunk);
      buf := buf + chunk;
      pending := true;
      body, content := body + chunk, content + Squeeze(chunk);
    }

    /** The live message is edited to show the buffer if the last edit was long enough ago,
        given the clock, the last edit and what was sent before; else nothing is sent. */
    ghost predicate EditsIfDue(clock: nat, edited: nat, gaveUp: bool, bodies: seq<string>, messages: seq<string>)
      reads this`buf, this`lastEdit, this`pending, room`bodies, room`messages, room`clock
    {
      if clock < edited + STREAM_EDIT_INTERVAL then
        room.bodies == bodies && room.messages == messages && lastEdit == edited && pending
      else
        && lastEdit == room.clock && !pending
        && (gaveUp ==> room.bodies == bodies && room.messages == messages)
        && (!gaveUp ==> |bodies| < |room.bodies| && room.bodies[|bodies|] == RenderStreaming(buf))
        && (!gaveUp && room.Willing() && messages != [] ==>
              room.messages == messages[|messages| - 1 := RenderStreaming(buf)])
    }

    /** Roll over until the buffer fits, a continuation cannot be opened, or the limit is reached. */
    method RollAsNeeded()
      requires Valid() && eventId.Some?
      modifies this`lastRefresh, this`gaveUp, this`eventId, this`messages, this`lastEdit, this`buf,
               this`frozen, this`acked, this`open, this`body, this`streak, room, gate
      ensures Valid() && eventId.Some? && old(messages) <= messages && room.clock >= old(room.clock)
      ensures old(frozen) <= frozen && (acked ==> old(acked))
      ensures old(gaveUp) ==> gaveUp && room.bodies == old(room.bodies)
      ensures !gaveUp && streak == [] ==> Bytes(buf) <= STREAM_ROLLOVER_BYTES || messages == Splitter.MAX_MESSAGES
      ensures RollsTo(old(buf), messages - old(messages), buf)
      ensures Bytes(old(buf)) <= STREAM_ROLLOVER_BYTES || old(messages) == Splitter.MAX_MESSAGES ==>
                && room.clock == old(room.clock) && room.bodies == old(room.bodies)
                && room.messages == old(room.messages) && buf == old(buf) && lastEdit == old(lastEdit)
                && messages == old(messages) && gaveUp == old(gaveUp)
      ensures old(Smooth()) ==> Smooth() && acked == old(acked) && (messages > old(messages) ==> lastEdit == room.clock)
      ensures old(Smooth()) ==>
                room.messages == RolledMessages(old(room.messages), old(buf), messages - old(messages))
    {
      hide Valid, Squeeze, Bytes, RenderStreaming, GateOk, NextBuffer, FrozenHead;
      LiveMessage();
      while Bytes(buf) > STREAM_ROLLOVER_BYTES && messages < Splitter.MAX_MESSAGES
        invariant Valid() && eventId.Some? && room.clock >= old(room.clock)
        invariant old(frozen) <= frozen && (acked ==> old(acked)) && old(messages) <= messages
        invariant old(gaveUp) ==> gaveUp && room.bodies == old(room.bodies)
        invariant messages <= Splitter.MAX_MESSAGES
        invariant RollsTo(old(buf), messages - old(messages), buf)
        invariant messages == old(messages) ==>
                    && room.clock == old(room.clock) && room.bodies == old(room.bodies)
                    && room.messages == old(room.messages) && lastEdit == old(lastEdit) && gaveUp == old(gaveUp)
        invariant old(Smooth()) ==> Smooth() && acked == old(acked)
        invariant old(Smooth()) && messages > old(messages) ==> lastEdit == room.clock
        invariant old(Smooth()) ==>
                    room.messages == RolledMessages(old(room.messages), old(buf), messages - old(messages))
        decreases Splitter.MAX_MESSAGES - messages
      {
        RollsOnce(old(buf), messages - old(messages), buf);
        RolledOnce(old(room.messages), old(buf), messages - old(messages), buf);
        LiveMessage();
        var rolled, _ := RollOver();
        if !rolled {
          break;
        }
      }
    }

    /** Append a chunk; roll over and edit as needed. Never fails. */
    method Push(chunk: string)
      requires Valid()
      modifies this, room, gate
      ensures Valid() && content == old(content) + Squeeze(chunk)
      ensures old(frozen) <= frozen && (acked ==> old(acked)) && old(messages) <= messages
      ensures old(gaveUp) ==> gaveUp && room.bodies == old(room.bodies)
      ensures old(eventId).None? ==> buf == old(buf) + chunk
      ensures old(eventId).None? ==>
                OpensIfAllowed(Bytes(buf) >= FIRST_MESSAGE_MIN_BYTES && old(MayOpen()), old(room.bodies))
      ensures old(eventId).Some? ==> room.clock < lastEdit + STREAM_EDIT_INTERVAL
      ensures old(eventId).Some? && !gaveUp && streak == [] ==>
                Bytes(buf) <= STREAM_ROLLOVER_BYTES || messages == Splitter.MAX_MESSAGES
      ensures old(eventId).Some? ==> RollsTo(old(buf) + chunk, messages - old(messages), buf)
      ensures old(Smooth()) ==> Smooth() && acked == old(acked)
      ensures old(Smooth()) && Bytes(buf) >= FIRST_MESSAGE_MIN_BYTES ==> eventId.Some?
      ensures old(eventId).Some? && (Bytes(old(buf) + chunk) <= STREAM_ROLLOVER_BYTES
                                     || old(messages) == Splitter.MAX_MESSAGES) ==>
                EditsIfDue(old(room.clock), old(lastEdit), old(gaveUp), old(room.bodies), old(room.messages))
      ensures old(eventId).Some? && old(Smooth()) && messages > old(messages) ==>
                room.messages == RolledMessages(old(room.messages), old(buf) + chunk, messages - old(messages))
    {
      hide Valid, Squeeze, Bytes, RenderStreaming, GateOk, NextBuffer, FrozenHead, RolledMessages, RollsTo;
      Append(chunk);
      if eventId.None? {
        if Bytes(buf) >= FIRST_MESSAGE_MIN_BYTES {
          SendFirst();
        }
        return;
      }
      LiveMessage();
      RollAsNeeded();
      if room.clock >= lastEdit + STREAM_EDIT_INTERVAL {
        LiveMessage();
        EditNow();
      }
    }

    /** With a live message, the room has at least one. */
    lemma LiveMessage()
      requires Valid() && eventId.Some?
      ensures messages == |room.messages| && 0 < messages <= Splitter.MAX_MESSAGES
    {
    }

    /** Replace the buffer: what was frozen stays, the rest is new. */
    method Replace(text: string)
      requires Valid()
      modifies this`buf, this`open, this`body, this`content
      ensures Valid() && buf == text && content == Contents(frozen) + Squeeze(text)
    {
      hide Contents, Squeeze, Presentable, GateOk, Marked;
      buf := text;
      open, body, content := false, text, Contents(frozen) + Squeeze(text);
      assert Splitter.Prefix(false) + text == text;
    }

    /** Replace the body of the current message, throttled. */
    method Set(text: string)
      requires Valid()
      modifies this, room, gate
      ensures Valid() && buf == text && content == Contents(old(frozen)) + Squeeze(text) && frozen == old(frozen)
      ensures old(gaveUp) ==> gaveUp && room.bodies == old(room.bodies)
      ensures old(eventId).None? ==>
                OpensIfAllowed(Bytes(text) >= FIRST_MESSAGE_MIN_BYTES && old(MayOpen()), old(room.bodies))
      ensures old(eventId).Some? ==>
                EditsIfDue(old(room.clock), old(lastEdit), old(gaveUp), old(room.bodies), old(room.messages))
    {
      hide Valid, Contents, Squeeze, Bytes, RenderStreaming;
      Replace(text);
      pending := true;
      if eventId.None? {
        if Bytes(buf) >= FIRST_MESSAGE_MIN_BYTES {
          SendFirst();
        }
        return;
      }
      LiveMessage();
      if room.clock >= lastEdit + STREAM_EDIT_INTERVAL {
        EditNow();
      }
    }

    /** Replace the body of the current message at once, or send the first one. */
    method SetNow(text: string)
      requires Valid()
      modifies this, room, gate
      ensures Valid() && buf == text && content == Contents(old(frozen)) + Squeeze(text) && frozen == old(frozen)
      ensures old(gaveUp) ==> gaveUp && room.bodies == old(room.bodies)
      ensures old(eventId).None? ==> OpensIfAllowed(old(MayOpen()), old(room.bodies))
      ensures old(eventId).Some? ==>
                && lastEdit == room.clock && !pending
                && (old(gaveUp) ==> room.messages == old(room.messages))
                && (!old(gaveUp) ==>
                      |old(room.bodies)| < |room.bodies| && room.bodies[|old(room.bodies)|] == RenderStreaming(text))
                && (!old(gaveUp) && room.Willing() ==>
                      var n := |old(room.messages)|;
                      0 < n && room.messages == old(room.messages)[n - 1 := RenderStreaming(text)])
    {
      hide Valid, Contents, Squeeze, Bytes, RenderStreaming;
      Replace(text);
      if eventId.None? {
        SendFirst();
        return;
      }
      LiveMessage();
      EditNow();
    }

    /** The text `Finish` delivers in the current and following messages. */
    function FinalText(finalText: Option<string>): string
      reads this
    {
      var text := if messages <= 1 && finalText.Some? then finalText.value else buf;
      if TrimEnd(text) == "" then NO_OUTPUT else text
    }

    /** Post the chunks, the first one over the current message if there is one. */
    method PostAll(chunks: seq<string>) returns (ok: bool)
      requires chunks != [] && eventId == (if room.messages == [] then None else Some(|room.messages| - 1))
      requires AllPresentable(room.bodies) && AllPresentable(chunks)
      modifies this`lastRefresh, this`gaveUp, room
      ensures AllPresentable(room.bodies)
      ensures |room.messages| <= |old(room.messages)| + |chunks|
      ensures old(room.messages) != [] ==> |room.messages| <= |old(room.messages)| + |chunks| - 1
      ensures ok ==>
                room.messages == old(room.messages)[..if eventId.None? then 0 else eventId.value] + chunks
      ensures room.Willing() ==> ok
    {
      hide Presentable;
      ghost var kept := room.messages[..if eventId.None? then 0 else eventId.value];
      ghost var bodies := room.bodies;
      ghost var tries;
      ok, tries := RetryFinalize(eventId, chunks[0]);
      SentOnlyPresentable(bodies, room.bodies, chunks[0], 2 * |tries|);
      if !ok {
        return;
      }
      assert room.messages == kept + chunks[..1];
      var i := 1;
      while i < |chunks|
        invariant 1 <= i <= |chunks|
        invariant room.messages == kept + chunks[..i] && AllPresentable(room.bodies)
      {
        bodies := room.bodies;
        ok, tries := RetryFinalize(None, chunks[i]);
        SentOnlyPresentable(bodies, room.bodies, chunks[i], 2 * |tries|);
        if !ok {
          return;
        }
        assert chunks[..i + 1] == chunks[..i] + [chunks[i]];
        i := i + 1;
      }
      ok := true;
      assert chunks[..|chunks|] == chunks;
    }

    /** The authoritative last write: the current message and its continuations. */
    method Finish(finalText: Option<string>) returns (ok: bool)
      requires Valid()
      modifies this`lastRefresh, this`gaveUp, room
      ensures AllPresentable(room.bodies)
      ensures |room.messages| <= Splitter.MAX_MESSAGES + (Splitter.MAX_MESSAGES - 1)
      ensures var replaced := finalText.Some? && messages <= 1;
              var text := if replaced then finalText.value else buf;
              var held := if replaced then Squeeze(finalText.value) else content;
              && (ok ==> room.messages == old(room.messages)[..|frozen|]
                           + Splitter.Chunks(if Blank(text) then NO_OUTPUT else text, STREAM_ROLLOVER_BYTES))
              && (ok && (acked || replaced) && !Blank(text)
                  && Splitter.Untruncated(Splitter.Segments(text, STREAM_ROLLOVER_BYTES, false, 0)) ==>
                    Holds(room.messages, held))
              && (ok && (acked || replaced) && Blank(text) ==>
                    Holds(room.messages, held + Squeeze(NO_OUTPUT)) && !Holds(room.messages, held))
      ensures room.Willing() ==> ok
    {
      hide Contents, Squeeze, Presentable, GateOk, Marked, Bytes, Splitter.Chunks, Splitter.Segments,
           TrimEnd, Holds, Shows, Splitter.Prefix, Splitter.Untruncated, Blank;
      var text := FinalText(finalText);
      var chunks := Splitter.SplitForMatrix(text, STREAM_ROLLOVER_BYTES);
      ChunksArePresentable(text);
      ghost var kept := room.messages[..|frozen|];
      ghost var replaced := finalText.Some? && messages <= 1;
      ghost var written := if replaced then finalText.value else buf;
      TrimmedAway(written);
      ok := PostAll(chunks);
      if ok && (acked || replaced) {
        if replaced {
          ReplacedHolds(kept, finalText.value, text);
        } else {
          FinalHolds(kept, frozen, buf, open, body, text);
        }
        if Blank(written) {
          NoOutputSize();
          HoldsNoLess(room.messages, if replaced then Squeeze(finalText.value) else content, Squeeze(NO_OUTPUT));
        }
      }
    }

    static lemma ReplacedHolds(kept: seq<string>, final: string, text: string)
      requires kept == [] && text == if TrimEnd(final) == "" then NO_OUTPUT else final
      ensures var messages := kept + Splitter.Chunks(text, STREAM_ROLLOVER_BYTES);
              if Blank(final) then Holds(messages, Squeeze(final) + Squeeze(NO_OUTPUT))
              else Splitter.Untruncated(Splitter.Segments(final, STREAM_ROLLOVER_BYTES, false, 0)) ==>
                     Holds(messages, Squeeze(final))
    {
      hide Squeeze, Splitter.Chunks, Splitter.Segments, Holds, TrimEnd;
      assert Splitter.Prefix(false) + final == final;
      FinalHolds(kept, [], final, false, final, text);
      assert Contents([]) + Squeeze(final) == Squeeze(final);
    }

    static lemma FinalHolds(kept: seq<string>, frozen: seq<Piece>, buf: string, open: bool, body: string, text: string)
      requires Shows(kept, frozen) && buf == Splitter.Prefix(open) + body
      requires text == if TrimEnd(buf) == "" then NO_OUTPUT else buf
      ensures var messages := kept + Splitter.Chunks(text, STREAM_ROLLOVER_BYTES);
              if Blank(buf) then Holds(messages, Contents(frozen) + Squeeze(body) + Squeeze(NO_OUTPUT))
              else Splitter.Untruncated(Splitter.Segments(buf, STREAM_ROLLOVER_BYTES, false, 0)) ==>
                     Holds(messages, Contents(frozen) + Squeeze(body))
    {
      hide Contents, Squeeze, Splitter.Chunks, Splitter.Segments, Holds, Shows;
      TrimmedAway(buf);
      if Blank(buf) {
        BlankBuffer(open, body);
        NoOutputHolds(kept, frozen);
        assert Contents(frozen) + "" == Contents(frozen);
      } else if Splitter.Untruncated(Splitter.Segments(buf, STREAM_ROLLOVER_BYTES, false, 0)) {
        FinishHolds(kept, frozen, buf, open, body);
      }
    }

    static lemma {:induction false} TrimmedAway(s: string)
      ensures TrimEnd(s) == "" <==> Blank(s)
    {
      if s != "" {
        if TrimEnd(s) == "" {
          assert s[0..] == s;
        } else {
          assert !IsWhitespace(s[|TrimEnd(s)| - 1]);
        }
      }
    }
  }

  function Concat(chunks: seq<string>): string {
    if chunks == [] then "" else Concat(chunks[..|chunks| - 1]) + chunks[|chunks| - 1]
  }

  lemma {:induction false} ConcatIs(a: seq<string>, b: seq<string>)
    ensures Concat(a + b) == Concat(a) + Concat(b)
    ensures |a| == 1 ==> Concat(a) == a[0]
  {
    if b == [] {
      assert a + b == a;
    } else {
      var n := |b| - 1;
      assert (a + b)[..|a| + n] == a + b[..n];
      ConcatIs(a, b[..n]);
      assert (Concat(a) + Concat(b[..n])) + b[n] == Concat(a) + (Concat(b[..n]) + b[n]);
    }
    if |a| == 1 {
      assert a[..0] == [] && "" + a[0] == a[0];
    }
  }

  /** A whole reply, pushed chunk by chunk with pauses in between and then finished,
      whatever the homeserver answers: if the last write and every freezing edit were
      acknowledged and the text still buffered is not beyond the message limit, the room
      holds exactly the reply unless that text is blank, and then it does not; at most 99
      messages were opened and every body given to a send was balanced and at most 6,023
      bytes. If every request is granted, so are the last write and the freezing edits. */
  method StreamReply(room: Room, canRefresh: bool, chunks: seq<string>, pauses: seq<nat>)
    returns (ok: bool, stream: Stream)
    requires room.messages == [] && room.bodies == [] && |pauses| == |chunks|
    modifies room
    ensures |room.messages| <= 99
    ensures forall i :: 0 <= i < |room.bodies| ==> FenceCount(room.bodies[i]) % 2 == 0 && Bytes(room.bodies[i]) <= 6023
    ensures ok && stream.acked
            && (Blank(stream.buf)
                || Splitter.Untruncated(Splitter.Segments(stream.buf, STREAM_ROLLOVER_BYTES, false, 0))) ==>
              (Holds(room.messages, Squeeze(Concat(chunks))) <==> !Blank(stream.buf))
    ensures room.Willing() ==> ok && stream.acked
  {
    hide Squeeze, Presentable, Holds, Splitter.Segments, Splitter.Chunks, Stream.Valid;
    stream := new Stream(room, canRefresh);
    EmptySqueeze();
    for i := 0 to |chunks|
      invariant stream.Valid() && stream.room == room && fresh(stream) && fresh(stream.gate)
      invariant stream.content == Squeeze(Concat(chunks[..i]))
      invariant room.Willing() ==> stream.Smooth() && stream.acked
    {
      room.Pass(pauses[i]);
      stream.Push(chunks[i]);
      assert chunks[..i + 1][..i] == chunks[..i];
      SqueezeConcat(Concat(chunks[..i]), chunks[i]);
    }
    assert chunks[..|chunks|] == chunks;
    ok := stream.Finish(None);
    BodiesAre(room.bodies);
  }

  // -------------------------------------------------------------------------
  // A reply that is spoiled by its last space
  // -------------------------------------------------------------------------

  /** Characters of one byte that neither break a line nor belong to a fence. */
  predicate PlainWord(s: string) {
    forall i :: 0 <= i < |s| ==> s[i] < '\U{80}' && !IsWhitespace(s[i]) && s[i] != '`'
  }

  lemma NoBreakIn(w: string)
    requires PlainWord(w)
    ensures Splitter.LastEnd(w, "\n\n") == 0 && Splitter.LastEnd(w, "\n") == 0
    ensures Splitter.SentenceEnd(w) == 0 && Splitter.LastEnd(w, " ") == 0
  {
    Splitter.TwoIs(w, '\n', '\n', 0);
    Splitter.OneIs(w, '\n', 0);
    Splitter.SentenceIs(w, 0);
    Splitter.OneIs(w, ' ', 0);
  }

  /** A message filled to the last byte by one word is cut right behind the word. */
  lemma CutBehindWord(w: string)
    requires PlainWord(w) && |w| == STREAM_ROLLOVER_BYTES
    ensures Bytes(w + " ") == STREAM_ROLLOVER_BYTES + 1
    ensures Splitter.Boundary(w + " ", STREAM_ROLLOVER_BYTES) == |w|
  {
    hide Bytes, Fit, Splitter.LastEnd, Splitter.SentenceEnd;
    var t := w + " ";
    AsciiBytes(w);
    AsciiBytes(t);
    FitIsLargest(t, STREAM_ROLLOVER_BYTES);
    var n := Fit(t, STREAM_ROLLOVER_BYTES);
    AsciiBytes(t[..n]);
    if n < |t| {
      AsciiBytes(t[..n + 1]);
    }
    assert t[..n] == w;
    NoBreakIn(w);
    AsciiBytes(w[..0]);
  }

  lemma WordIsHead(w: string)
    requires PlainWord(w) && w != ""
    ensures CloseOpenFence(Splitter.Head(w)) == (w, false)
  {
    hide FenceCount;
    assert !IsWhitespace(w[|w| - 1]);
    CountNoTicks(w);
  }

  lemma OnlySpaceGoesOn(w: string)
    requires PlainWord(w) && |w| == STREAM_ROLLOVER_BYTES
    ensures NextBuffer(w + " ") == " "
  {
    hide Splitter.Boundary, Splitter.Head, CloseOpenFence, Bytes, PlainWord;
    CutBehindWord(w);
    WordIsHead(w);
    var t := w + " ";
    assert t[..|w|] == w && t[|w|..] == " ";
  }

  /** However the rollovers went, only one is needed, and the space is left. */
  lemma OneRollover(w: string, k: nat, buf: string)
    requires PlainWord(w) && |w| == STREAM_ROLLOVER_BYTES && RollsTo(w + " ", k, buf)
    requires Bytes(buf) <= STREAM_ROLLOVER_BYTES || k > 0
    ensures k == 1 && buf == " "
  {
    hide NextBuffer, Bytes;
    CutBehindWord(w);
    OnlySpaceGoesOn(w);
    AsciiBytes(" ");
  }

  /** A short text without a fence is one message. */
  lemma OneChunk(text: string)
    requires 0 < Bytes(text) <= STREAM_ROLLOVER_BYTES && FenceCount(text) == 0
    ensures Splitter.Chunks(text, STREAM_ROLLOVER_BYTES) == [text]
  {
    hide FenceCount, Splitter.Boundary;
    var g := Splitter.Segment(false, text, "", text, false);
    assert Splitter.Segments(text, STREAM_ROLLOVER_BYTES, false, 0) == [g];
    assert "" + text == text;
    Splitter.BodiesAt([g]);
  }

  lemma NoOutputIsOne()
    ensures Splitter.Chunks(NO_OUTPUT, STREAM_ROLLOVER_BYTES) == [NO_OUTPUT]
  {
    hide Bytes, FenceCount, Splitter.Chunks;
    AsciiBytes(NO_OUTPUT);
    CountNoTicks(NO_OUTPUT);
    OneChunk(NO_OUTPUT);
  }

  /** Every request is granted, and yet the room does not hold exactly the reply: a word
      that fills the first message and a space behind it. The rollover leaves a blank
      continuation, and the last write fills it with the text for an empty reply. */
  method SpaceSpoilsReply(room: Room) returns (ok: bool, stream: Stream)
    requires room.messages == [] && room.bodies == [] && room.Willing()
    modifies room
    ensures ok && stream.acked && stream.messages == 2 && |room.messages| == 2 && stream.buf == " "
    ensures !Holds(room.messages, Squeeze(seq(STREAM_ROLLOVER_BYTES, _ => 'a') + " "))
    ensures room.messages[1] == NO_OUTPUT
  {
    hide Squeeze, Presentable, Holds, Splitter.Segments, Splitter.Chunks, Bytes, NextBuffer, RenderStreaming, Contents,
         ShowsFirst, Stream.GateOk, Splitter.Prefix, TrimEnd, RollsTo, AllPresentable, Stream.EditsIfDue,
         RolledMessages;
    var word := seq(STREAM_ROLLOVER_BYTES, _ => 'a');
    stream := new Stream(room, false);
    stream.Push(word);
    assert stream.buf == word;
    AsciiBytes(word);
    assert stream.messages == 1 && stream.eventId.Some?;
    stream.Push(" ");
    OneRollover(word, stream.messages - 1, stream.buf);
    assert stream.messages == 2;
    Stream.TrimmedAway(stream.buf);
    NoOutputIsOne();
    SqueezeConcat(word, " ");
    assert stream.content == Squeeze(word + " ");
    ok := stream.Finish(None);
  }

  lemma EmptySqueeze()
    ensures Squeeze(Concat([])) == ""
  {
  }
}
