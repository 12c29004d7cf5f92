/** Replacements found in a normalized view of a text, laid over the text itself so
    that the lines they do not touch keep their original bytes. */
module EditOverlay {
  import opened Text
  import opened EditSplice
  import opened Numbers

  datatype Span = Span(start: nat, end: nat)

  datatype OverlayError = LineCountDiffers | OutsideBase

  datatype Overlaid = Overlaid(text: Bytes) | Refused(error: OverlayError)

  // ----- where lines stand --------------------------------------------------

  /** The offset at which line i begins. */
  function LineStart(lines: seq<Bytes>, i: nat): nat
    requires i <= |lines|
  {
    if i == 0 then 0 else LineStart(lines, i - 1) + |lines[i - 1]|
  }

  lemma {:induction false} StartsGrow(lines: seq<Bytes>, i: nat, j: nat)
    requires i <= j <= |lines|
    ensures LineStart(lines, i) <= LineStart(lines, j)
  {
    if i < j {
      StartsGrow(lines, i, j - 1);
    }
  }

  lemma {:induction false} StartIsConcat(lines: seq<Bytes>, i: nat)
    requires i <= |lines|
    ensures |Concat(lines[..i])| == LineStart(lines, i)
  {
    if i > 0 {
      StartIsConcat(lines, i - 1);
      SliceTo(lines, 0, i - 1);
      ConcatPush(lines[..i - 1], lines[i - 1]);
    }
  }

  /** The last of the first n lines that begins no later than pos. */
  function LineOf(lines: seq<Bytes>, pos: int, n: nat): (i: nat)
    requires 0 < n <= |lines|
    ensures i < n
  {
    if n == 1 || LineStart(lines, n - 1) <= pos then n - 1 else LineOf(lines, pos, n - 1)
  }

  lemma {:induction false} LineOfIs(lines: seq<Bytes>, pos: int, n: nat, i: nat)
    requires i < n <= |lines| && LineStart(lines, i) <= pos < LineStart(lines, i + 1)
    ensures LineOf(lines, pos, n) == i
  {
    if i < n - 1 {
      StartsGrow(lines, i + 1, n - 1);
      LineOfIs(lines, pos, n - 1, i);
    }
  }

  function LastByte(m: Match<byte>): int {
    if m.len == 0 then m.at else m.End() - 1
  }

  /** The lines a match touches: from the line of its first byte to the line of its
      last. */
  function RangeStart(lines: seq<Bytes>, m: Match<byte>): nat
    requires lines != []
  {
    LineOf(lines, m.at, |lines|)
  }

  function RangeEnd(lines: seq<Bytes>, m: Match<byte>): nat
    requires lines != []
  {
    LineOf(lines, LastByte(m), |lines|) + 1
  }

  predicate Inside(lines: seq<Bytes>, m: Match<byte>) {
    0 <= m.at < LineStart(lines, |lines|) && m.End() <= LineStart(lines, |lines|)
  }

  predicate Touches(lines: seq<Bytes>, m: Match<byte>, i: int)
    requires lines != []
  {
    RangeStart(lines, m) <= i < RangeEnd(lines, m)
  }

  lemma {:induction false} LineOfHolds(lines: seq<Bytes>, pos: int, n: nat)
    requires 0 < n <= |lines| && 0 <= pos < LineStart(lines, n)
    ensures LineStart(lines, LineOf(lines, pos, n)) <= pos < LineStart(lines, LineOf(lines, pos, n) + 1)
  {
    if n > 1 && LineStart(lines, n - 1) > pos {
      LineOfHolds(lines, pos, n - 1);
    }
  }

  /** The lines touched are those that share a byte with the match. */
  lemma TouchesIsOverlap(lines: seq<Bytes>, m: Match<byte>, i: nat)
    requires i < |lines| && Inside(lines, m) && m.len > 0
    ensures Touches(lines, m, i) <==> m.at < LineStart(lines, i + 1) && LineStart(lines, i) < m.End()
  {
    var s, e := RangeStart(lines, m), RangeEnd(lines, m);
    LineOfHolds(lines, m.at, |lines|);
    LineOfHolds(lines, m.End() - 1, |lines|);
    if i < s {
      StartsGrow(lines, i + 1, s);
    } else {
      StartsGrow(lines, s + 1, i + 1);
    }
    if i < e {
      StartsGrow(lines, i, e - 1);
    } else {
      StartsGrow(lines, e, i);
    }
  }

  lemma {:induction false} LineOfGrows(lines: seq<Bytes>, p: int, q: int, n: nat)
    requires p <= q && 0 < n <= |lines|
    ensures LineOf(lines, p, n) <= LineOf(lines, q, n)
  {
    if n > 1 && LineStart(lines, n - 1) > q {
      LineOfGrows(lines, p, q, n - 1);
    }
  }

  lemma {:induction false} RangeHolds(lines: seq<Bytes>, m: Match<byte>)
    requires lines != [] && Inside(lines, m)
    ensures RangeStart(lines, m) < RangeEnd(lines, m) <= |lines|
    ensures LineStart(lines, RangeStart(lines, m)) <= m.at && m.End() <= LineStart(lines, RangeEnd(lines, m))
  {
    LineOfHolds(lines, m.at, |lines|);
    LineOfHolds(lines, LastByte(m), |lines|);
    LineOfGrows(lines, m.at, LastByte(m), |lines|);
  }

  method SplitLinesWithEndings(content: Bytes) returns (lines: seq<Bytes>)
    ensures lines == Lines(content)
  {
    lines := [];
    var start := 0;
    for i := 0 to |content|
      invariant start == OpenStart(content, i) && lines == LinesTo(content, i)
    {
      if content[i] == NL {
        lines := lines + [content[start..i + 1]];
        start := i + 1;
      }
    }
    ScanDone(content);
    Nil(lines);
    if start < |content| {
      lines := lines + [content[start..]];
    }
  }

  ghost predicate SpansOf(spans: seq<Span>, lines: seq<Bytes>) {
    |spans| == |lines| && forall i :: 0 <= i < |lines| ==>
        spans[i] == Span(LineStart(lines, i), LineStart(lines, i + 1))
  }

  method GetLineSpans(content: Bytes) returns (spans: seq<Span>)
    ensures SpansOf(spans, Lines(content))
  {
    var lines := SplitLinesWithEndings(content);
    spans := [];
    var offset := 0;
    for i := 0 to |lines|
      invariant |spans| == i && offset == LineStart(lines, i)
      invariant forall j :: 0 <= j < i ==> spans[j] == Span(LineStart(lines, j), LineStart(lines, j + 1))
    {
      spans := spans + [Span(offset, offset + |lines[i]|)];
      offset := offset + |lines[i]|;
    }
  }

  /** The lines a match touches, if the lines hold all of it. */
  method GetReplacementLineRange(spans: seq<Span>, m: Match<byte>, ghost lines: seq<Bytes>)
    returns (ok: bool, startLine: nat, endLine: nat)
    requires SpansOf(spans, lines) && 0 <= m.at
    ensures ok <==> Inside(lines, m)
    ensures ok ==> lines != [] && startLine == RangeStart(lines, m) && endLine == RangeEnd(lines, m)
  {
    startLine, endLine := 0, 0;
    while startLine < |spans| && !(spans[startLine].start <= m.at < spans[startLine].end)
      invariant startLine <= |lines| && LineStart(lines, startLine) <= m.at
    {
      startLine := startLine + 1;
    }
    if startLine == |spans| {
      return false, 0, 0;
    }
    LineOfIs(lines, m.at, |lines|, startLine);
    endLine := startLine;
    while endLine < |spans| && spans[endLine].end < m.End()
      invariant startLine <= endLine <= |lines|
                && (startLine < endLine ==> LineStart(lines, endLine) < m.End() && m.len > 0)
    {
      endLine := endLine + 1;
    }
    StartsGrow(lines, startLine + 1, |lines|);
    if endLine == |spans| {
      return false, 0, 0;
    }
    StartsGrow(lines, endLine + 1, |lines|);
    LineOfIs(lines, LastByte(m), |lines|, endLine);
    ok, endLine := true, endLine + 1;
  }

  // ----- groups of matches that share lines ---------------------------------

  datatype Group = Group(startLine: nat, endLine: nat, ms: seq<Match<byte>>)

  ghost predicate TouchedBy(lines: seq<Bytes>, ms: seq<Match<byte>>, i: int)
    requires lines != []
  {
    exists k :: 0 <= k < |ms| && Touches(lines, ms[k], i)
  }

  /** The group holds its matches and all lines they touch, and no other line. */
  ghost predicate GroupOk(lines: seq<Bytes>, g: Group) {
    && g.startLine < g.endLine <= |lines|
    && Within(g.ms, LineStart(lines, g.startLine), LineStart(lines, g.endLine))
    && forall i :: TouchedBy(lines, g.ms, i) <==> g.startLine <= i < g.endLine
  }

  function EndLine(gs: seq<Group>): nat {
    if gs == [] then 0 else Last(gs).endLine
  }

  /** Each group begins no earlier than the one before it ends. */
  ghost predicate GroupsOk(lines: seq<Bytes>, gs: seq<Group>) {
    gs != [] ==> GroupsOk(lines, Init(gs)) && GroupOk(lines, Last(gs)) && EndLine(Init(gs)) <= Last(gs).startLine
  }

  /** A match joins the last group if it begins on a line of that group. */
  function AddMatch(lines: seq<Bytes>, gs: seq<Group>, m: Match<byte>): seq<Group>
    requires lines != []
  {
    var s, e := RangeStart(lines, m), RangeEnd(lines, m);
    if gs != [] && s < Last(gs).endLine then
      var g := Last(gs);
      Init(gs) + [Group(g.startLine, Max(g.endLine, e), g.ms + [m])]
    else gs + [Group(s, e, [m])]
  }

  function GroupsOf(lines: seq<Bytes>, ms: seq<Match<byte>>): seq<Group>
    requires lines != []
  {
    if ms == [] then [] else AddMatch(lines, GroupsOf(lines, Init(ms)), Last(ms))
  }

  ghost function AllMatches(gs: seq<Group>): seq<Match<byte>> {
    if gs == [] then [] else AllMatches(Init(gs)) + Last(gs).ms
  }

  lemma {:induction false} LineOfAtLeast(lines: seq<Bytes>, pos: int, n: nat, i: nat)
    requires i < n <= |lines| && LineStart(lines, i) <= pos
    ensures LineOf(lines, pos, n) >= i
  {
    if i < n - 1 {
      LineOfAtLeast(lines, pos, n - 1, i);
    }
  }

  lemma TouchedPush(lines: seq<Bytes>, ms: seq<Match<byte>>, m: Match<byte>, i: int)
    requires lines != []
    ensures TouchedBy(lines, ms + [m], i) <==> TouchedBy(lines, ms, i) || Touches(lines, m, i)
  {
    if TouchedBy(lines, ms, i) {
      var k :| 0 <= k < |ms| && Touches(lines, ms[k], i);
      assert (ms + [m])[k] == ms[k];
    } else if Touches(lines, m, i) {
      assert (ms + [m])[|ms|] == m;
    }
  }

  lemma {:induction false} WithinPush<T>(ms: seq<Match<T>>, m: Match<T>, f: int, t: int)
    requires Within(ms, f, m.at) && m.End() <= t
    ensures Within(ms + [m], f, t)
  {
    InitPush(ms, m);
  }

  lemma {:induction false} JoinGroup(lines: seq<Bytes>, g: Group, m: Match<byte>)
    requires lines != [] && GroupOk(lines, g) && Inside(lines, m) && RangeStart(lines, m) < g.endLine
    requires Within(g.ms, LineStart(lines, g.startLine), m.at)
    ensures GroupOk(lines, Group(g.startLine, Max(g.endLine, RangeEnd(lines, m)), g.ms + [m]))
  {
    var e := Max(g.endLine, RangeEnd(lines, m));
    RangeHolds(lines, m);
    StartsGrow(lines, RangeEnd(lines, m), e);
    WithinPush(g.ms, m, LineStart(lines, g.startLine), LineStart(lines, e));
    WithinOrder(g.ms, LineStart(lines, g.startLine), m.at);
    LineOfAtLeast(lines, m.at, |lines|, g.startLine);
    forall i ensures TouchedBy(lines, g.ms + [m], i) <==> g.startLine <= i < e {
      TouchedPush(lines, g.ms, m, i);
    }
  }

  lemma NewGroup(lines: seq<Bytes>, m: Match<byte>)
    requires lines != [] && Inside(lines, m)
    ensures GroupOk(lines, Group(RangeStart(lines, m), RangeEnd(lines, m), [m]))
  {
    RangeHolds(lines, m);
    Nil([m]);
    WithinPush([], m, LineStart(lines, RangeStart(lines, m)), LineStart(lines, RangeEnd(lines, m)));
    forall i ensures TouchedBy(lines, [m], i) <==> Touches(lines, m, i) {
      TouchedPush(lines, [], m, i);
    }
  }

  lemma {:induction false} GroupsPush(lines: seq<Bytes>, gs: seq<Group>, g: Group)
    requires GroupsOk(lines, gs) && GroupOk(lines, g) && EndLine(gs) <= g.startLine
    ensures GroupsOk(lines, gs + [g]) && AllMatches(gs + [g]) == AllMatches(gs) + g.ms
  {
    InitPush(gs, g);
  }

  /** The last group ends before t. */
  ghost predicate LastBefore(lines: seq<Bytes>, gs: seq<Group>, t: int) {
    gs != [] ==> Last(gs).startLine <= |lines| && Within(Last(gs).ms, LineStart(lines, Last(gs).startLine), t)
  }

  lemma {:induction false} AddMatchSound(lines: seq<Bytes>, gs: seq<Group>, m: Match<byte>, t: int)
    requires lines != [] && GroupsOk(lines, gs) && Inside(lines, m) && LastBefore(lines, gs, m.at) && m.End() <= t
    ensures GroupsOk(lines, AddMatch(lines, gs, m)) && AllMatches(AddMatch(lines, gs, m)) == AllMatches(gs) + [m]
    ensures LastBefore(lines, AddMatch(lines, gs, m), t)
  {
    RangeHolds(lines, m);
    if gs != [] && RangeStart(lines, m) < Last(gs).endLine {
      var g := Last(gs);
      var h := Group(g.startLine, Max(g.endLine, RangeEnd(lines, m)), g.ms + [m]);
      JoinGroup(lines, g, m);
      GroupsPush(lines, Init(gs), h);
      InitPush(Init(gs), h);
      Assoc(AllMatches(Init(gs)), g.ms, [m]);
      WithinPush(g.ms, m, LineStart(lines, g.startLine), t);
    } else {
      var h := Group(RangeStart(lines, m), RangeEnd(lines, m), [m]);
      NewGroup(lines, m);
      GroupsPush(lines, gs, h);
      InitPush(gs, h);
      Nil([m]);
      WithinPush([], m, LineStart(lines, h.startLine), t);
    }
  }

  /** The groups keep every match, and no line stands in two of them. */
  lemma {:induction false} GroupsSound(lines: seq<Bytes>, ms: seq<Match<byte>>, t: int)
    requires lines != [] && Within(ms, 0, t) && forall k :: 0 <= k < |ms| ==> Inside(lines, ms[k])
    ensures GroupsOk(lines, GroupsOf(lines, ms)) && AllMatches(GroupsOf(lines, ms)) == ms
    ensures LastBefore(lines, GroupsOf(lines, ms), t)
  {
    if ms != [] {
      GroupsSound(lines, Init(ms), Last(ms).at);
      AddMatchSound(lines, GroupsOf(lines, Init(ms)), Last(ms), t);
      InitLast(ms);
    }
  }

  // ----- laying the groups over the original lines --------------------------

  /** A line of the original, or what the lines of a group become. */
  datatype Piece = Kept(line: nat) | Rewritten(startLine: nat, endLine: nat, text: Bytes)

  ghost function KeptLines(i: nat, j: nat): seq<Piece> {
    if j <= i then [] else KeptLines(i, j - 1) + [Kept(j - 1)]
  }

  /** A group's stretch of the base with its matches replaced. */
  ghost function GroupText(lines: seq<Bytes>, base: Bytes, g: Group): Bytes
    requires GroupOk(lines, g) && |base| == LineStart(lines, |lines|)
  {
    StartsGrow(lines, g.endLine, |lines|);
    Spliced(base, g.ms, LineStart(lines, g.startLine), LineStart(lines, g.endLine))
  }

  ghost function PiecesTo(lines: seq<Bytes>, base: Bytes, gs: seq<Group>): seq<Piece>
    requires GroupsOk(lines, gs) && |base| == LineStart(lines, |lines|)
  {
    if gs == [] then []
    else
      var g := Last(gs);
      PiecesTo(lines, base, Init(gs)) + KeptLines(EndLine(Init(gs)), g.startLine)
        + [Rewritten(g.startLine, g.endLine, GroupText(lines, base, g))]
  }

  ghost function TextOf(orig: seq<Bytes>, ps: seq<Piece>): Bytes {
    if ps == [] then [] else TextOf(orig, Init(ps)) + PieceText(orig, Last(ps))
  }

  ghost function PieceText(orig: seq<Bytes>, p: Piece): Bytes {
    match p
    case Kept(i) => if i < |orig| then orig[i] else []
    case Rewritten(_, _, text) => text
  }

  lemma {:induction false} TextAppend(orig: seq<Bytes>, p: seq<Piece>, q: seq<Piece>)
    ensures TextOf(orig, p + q) == TextOf(orig, p) + TextOf(orig, q)
  {
    if q == [] {
      Nil(p);
      Nil(TextOf(orig, p));
    } else {
      InitAppend(p, q);
      TextAppend(orig, p, Init(q));
      Assoc(TextOf(orig, p), TextOf(orig, Init(q)), PieceText(orig, Last(q)));
    }
  }

  lemma {:induction false} KeptText(orig: seq<Bytes>, i: nat, j: nat)
    requires i <= j <= |orig|
    ensures TextOf(orig, KeptLines(i, j)) == Concat(orig[i..j])
  {
    KeptSpan(orig, i, j);
    SpanIsSlice(orig, i, j);
  }

  lemma {:induction false} KeptSpan(orig: seq<Bytes>, i: nat, j: nat)
    requires i <= j <= |orig|
    ensures TextOf(orig, KeptLines(i, j)) == Concat(Text.Span(orig, i, j))
  {
    if i < j {
      var n := j - 1;
      KeptSpan(orig, i, n);
      KeptOn(orig, i, n, j);
      InitPush(Text.Span(orig, i, n), orig[n]);
    }
  }

  lemma {:induction false} KeptOn(orig: seq<Bytes>, i: nat, n: nat, next: nat)
    requires i <= n < |orig| && next == n + 1
    ensures TextOf(orig, KeptLines(i, next)) == TextOf(orig, KeptLines(i, n)) + orig[n]
  {
    InitPush(KeptLines(i, n), Kept(n));
  }

  /** The pieces of a text whose lines are those of the base. */
  ghost function OverlayPieces(base: Bytes, ms: seq<Match<byte>>): seq<Piece>
    requires Within(ms, 0, |base|) && forall k :: 0 <= k < |ms| ==> Inside(Lines(base), ms[k])
  {
    var lines := Lines(base);
    if lines == [] then []
    else
      GroupsSound(lines, ms, |base|);
      LinesLength(base);
      PiecesTo(lines, base, GroupsOf(lines, ms)) + KeptLines(EndLine(GroupsOf(lines, ms)), |lines|)
  }

  lemma {:induction false} LinesLength(base: Bytes)
    ensures LineStart(Lines(base), |Lines(base)|) == |base|
  {
    LinesSound(base);
    StartIsConcat(Lines(base), |Lines(base)|);
    assert Lines(base)[..|Lines(base)|] == Lines(base);
  }

  // ----- untouched lines ----------------------------------------------------

  /** The pieces stand for lines 0 to n, each once and in order. */
  ghost predicate Tiles(ps: seq<Piece>, n: nat) {
    if ps == [] then n == 0
    else match Last(ps)
      case Kept(i) => n == i + 1 && Tiles(Init(ps), i)
      case Rewritten(s, e, _) => s < e == n && Tiles(Init(ps), s)
  }

  lemma {:induction false} KeptTiles(ps: seq<Piece>, i: nat, j: nat)
    requires Tiles(ps, i) && i <= j
    ensures Tiles(ps + KeptLines(i, j), j)
  {
    if i == j {
      Nil(ps);
    } else {
      KeptTiles(ps, i, j - 1);
      Assoc(ps, KeptLines(i, j - 1), [Kept(j - 1)]);
      InitPush(ps + KeptLines(i, j - 1), Kept(j - 1));
    }
  }

  lemma {:induction false} PiecesTile(lines: seq<Bytes>, base: Bytes, gs: seq<Group>)
    requires GroupsOk(lines, gs) && |base| == LineStart(lines, |lines|)
    ensures Tiles(PiecesTo(lines, base, gs), EndLine(gs))
  {
    if gs != [] {
      var g := Last(gs);
      PiecesTile(lines, base, Init(gs));
      KeptTiles(PiecesTo(lines, base, Init(gs)), EndLine(Init(gs)), g.startLine);
      InitPush(PiecesTo(lines, base, Init(gs)) + KeptLines(EndLine(Init(gs)), g.startLine),
               Rewritten(g.startLine, g.endLine, GroupText(lines, base, g)));
    }
  }

  lemma {:induction false} KeptIn(i: nat, j: nat, k: nat)
    ensures Kept(k) in KeptLines(i, j) <==> i <= k < j
  {
    if i < j {
      KeptIn(i, j - 1, k);
    }
  }

  lemma {:induction false} TouchedAppend(lines: seq<Bytes>, p: seq<Match<byte>>, q: seq<Match<byte>>, i: int)
    requires lines != []
    ensures TouchedBy(lines, p + q, i) <==> TouchedBy(lines, p, i) || TouchedBy(lines, q, i)
  {
    if q == [] {
      Nil(p);
    } else {
      InitAppend(p, q);
      InitLast(p + q);
      InitLast(q);
      TouchedAppend(lines, p, Init(q), i);
      TouchedPush(lines, p + Init(q), Last(q), i);
      TouchedPush(lines, Init(q), Last(q), i);
    }
  }

  /** Up to the end of the last group, the lines kept are those not touched. */
  lemma {:induction false} PiecesKeep(lines: seq<Bytes>, base: Bytes, gs: seq<Group>, i: nat)
    requires lines != [] && GroupsOk(lines, gs) && |base| == LineStart(lines, |lines|)
    ensures Kept(i) in PiecesTo(lines, base, gs) <==> i < EndLine(gs) && !TouchedBy(lines, AllMatches(gs), i)
    ensures i >= EndLine(gs) ==> !TouchedBy(lines, AllMatches(gs), i)
  {
    if gs != [] {
      var g := Last(gs);
      PiecesKeep(lines, base, Init(gs), i);
      KeptIn(EndLine(Init(gs)), g.startLine, i);
      TouchedAppend(lines, AllMatches(Init(gs)), g.ms, i);
      assert TouchedBy(lines, g.ms, i) <==> g.startLine <= i < g.endLine;
    }
  }

  /** Every line that no match touches appears with its original bytes, in order and
      exactly once; every other line is part of one rewritten piece. */
  lemma {:induction false} OverlayKeepsUntouched(base: Bytes, ms: seq<Match<byte>>)
    requires Within(ms, 0, |base|) && forall k :: 0 <= k < |ms| ==> Inside(Lines(base), ms[k])
    ensures Tiles(OverlayPieces(base, ms), |Lines(base)|)
    ensures forall i: nat :: Kept(i) in OverlayPieces(base, ms) <==> i < |Lines(base)| && !TouchedBy(Lines(base), ms, i)
  {
    var lines := Lines(base);
    LinesLength(base);
    if lines != [] {
      var gs := GroupsOf(lines, ms);
      GroupsSound(lines, ms, |base|);
      PiecesTile(lines, base, gs);
      KeptTiles(PiecesTo(lines, base, gs), EndLine(gs), |lines|);
      forall i: nat ensures Kept(i) in OverlayPieces(base, ms) <==> i < |lines| && !TouchedBy(lines, ms, i) {
        PiecesKeep(lines, base, gs, i);
        KeptIn(EndLine(gs), |lines|, i);
      }
    }
  }

  // ----- over the base itself -----------------------------------------------

  lemma {:induction false} LinesBetween(lines: seq<Bytes>, i: nat, j: nat)
    requires i <= j <= |lines|
    ensures LineStart(lines, i) <= LineStart(lines, j) <= |Concat(lines)|
    ensures Concat(lines)[LineStart(lines, i)..LineStart(lines, j)] == Concat(lines[i..j])
  {
    var a, b, c := lines[..i], lines[i..j], lines[j..];
    assert lines[..j] == a + b && lines == a + b + c;
    ConcatAppend(a, b);
    ConcatAppend(a + b, c);
    StartIsConcat(lines, i);
    StartIsConcat(lines, j);
  }

  lemma {:induction false} PiecesSplice(lines: seq<Bytes>, base: Bytes, gs: seq<Group>)
    requires GroupsOk(lines, gs) && base == Concat(lines) && |base| == LineStart(lines, |lines|)
    ensures var t := LineStart(lines, EndLine(gs));
            && t <= |base| && Within(AllMatches(gs), 0, t)
            && TextOf(lines, PiecesTo(lines, base, gs)) == Spliced(base, AllMatches(gs), 0, t)
  {
    if gs != [] {
      var g, ms := Last(gs), AllMatches(Init(gs));
      var e, s, t := LineStart(lines, EndLine(Init(gs))), LineStart(lines, g.startLine), LineStart(lines, g.endLine);
      var ps, ks := PiecesTo(lines, base, Init(gs)), KeptLines(EndLine(Init(gs)), g.startLine);
      PiecesSplice(lines, base, Init(gs));
      TextAppend(lines, ps, ks);
      KeptText(lines, EndLine(Init(gs)), g.startLine);
      LinesBetween(lines, EndLine(Init(gs)), g.startLine);
      SplicedTo(base, ms, 0, e, s);
      InitPush(ps + ks, Rewritten(g.startLine, g.endLine, GroupText(lines, base, g)));
      StartsGrow(lines, g.endLine, |lines|);
      SplicedAppend(base, ms, g.ms, 0, s, t);
    }
  }

  lemma NothingInside(m: Match<byte>)
    ensures !Inside([], m)
  {
  }

  /** If the original is the base, the overlay is the plain splice. */
  lemma {:induction false} OverlayIsSplice(base: Bytes, ms: seq<Match<byte>>)
    requires Within(ms, 0, |base|) && forall k :: 0 <= k < |ms| ==> Inside(Lines(base), ms[k])
    ensures TextOf(Lines(base), OverlayPieces(base, ms)) == Spliced(base, ms, 0, |base|)
  {
    var lines := Lines(base);
    LinesLength(base);
    LinesSound(base);
    if lines == [] {
      if ms != [] {
        NothingInside(ms[0]);
      }
    } else {
      var gs := GroupsOf(lines, ms);
      GroupsSound(lines, ms, |base|);
      PiecesSplice(lines, base, gs);
      TextAppend(lines, PiecesTo(lines, base, gs), KeptLines(EndLine(gs), |lines|));
      KeptText(lines, EndLine(gs), |lines|);
      LinesBetween(lines, EndLine(gs), |lines|);
      SplicedTo(base, ms, 0, LineStart(lines, EndLine(gs)), |base|);
    }
  }

  // ----- the overlay --------------------------------------------------------

  /** The groups of the sorted matches, or none if a match is not inside. */
  /** A match joins the last group if it begins inside that one's lines. */
  method GroupMatch(groups: seq<Group>, m: Match<byte>, startLine: nat, endLine: nat, ghost lines: seq<Bytes>)
    returns (r: seq<Group>)
    requires lines != [] && startLine == RangeStart(lines, m) && endLine == RangeEnd(lines, m)
    ensures r == AddMatch(lines, groups, m)
  {
    var n := |groups|;
    if n > 0 && startLine < groups[n - 1].endLine {
      var g := groups[n - 1];
      r := groups[..n - 1] + [Group(g.startLine, if endLine > g.endLine then endLine else g.endLine, g.ms + [m])];
    } else {
      r := groups + [Group(startLine, endLine, [m])];
    }
  }

  method GroupMatches(spans: seq<Span>, sorted: seq<Match<byte>>, ghost lines: seq<Bytes>)
    returns (ok: bool, groups: seq<Group>)
    requires SpansOf(spans, lines) && forall k :: 0 <= k < |sorted| ==> 0 <= sorted[k].at
    ensures ok <==> forall k :: 0 <= k < |sorted| ==> Inside(lines, sorted[k])
    ensures ok ==> groups == if lines == [] then [] else GroupsOf(lines, sorted)
  {
    groups := [];
    for k := 0 to |sorted|
      invariant forall j :: 0 <= j < k ==> Inside(lines, sorted[j])
      invariant lines == [] ==> k == 0 && groups == []
      invariant lines != [] ==> groups == GroupsOf(lines, sorted[..k])
    {
      var m := sorted[k];
      var inside, startLine, endLine := GetReplacementLineRange(spans, m, lines);
      if !inside {
        return false, [];
      }
      SliceTo(sorted, 0, k);
      InitPush(sorted[..k], m);
      groups := GroupMatch(groups, m, startLine, endLine, lines);
    }
    ok := true;
    assert sorted[..|sorted|] == sorted;
  }

  method AppendLines(result: Bytes, orig: seq<Bytes>, i: nat, j: nat) returns (out: Bytes)
    requires i <= j <= |orig|
    ensures out == result + TextOf(orig, KeptLines(i, j))
  {
    out := result;
    Nil(result);
    for k := i to j
      invariant out == result + TextOf(orig, KeptLines(i, k))
    {
      InitPush(KeptLines(i, k), Kept(k));
      Assoc(result, TextOf(orig, KeptLines(i, k)), orig[k]);
      out := out + orig[k];
    }
  }

  lemma SpanAt(spans: seq<Span>, lines: seq<Bytes>, i: nat)
    requires SpansOf(spans, lines) && i < |lines|
    ensures spans[i] == Span(LineStart(lines, i), LineStart(lines, i + 1))
  {
  }

  lemma {:induction false} GroupWindow(base: Bytes, spans: seq<Span>, g: Group, lines: seq<Bytes>, s: nat, t: nat)
    requires SpansOf(spans, lines) && GroupOk(lines, g) && |base| == LineStart(lines, |lines|)
    requires s == spans[g.startLine].start && t == spans[g.endLine - 1].end
    ensures s == LineStart(lines, g.startLine) <= t == LineStart(lines, g.endLine) <= |base|
  {
    StartsGrow(lines, g.endLine, |lines|);
    StartsGrow(lines, g.startLine, g.endLine);
    SpanAt(spans, lines, g.startLine);
    SpanAt(spans, lines, g.endLine - 1);
  }

  method AppendGroup(result: Bytes, baseContent: Bytes, spans: seq<Span>, g: Group, ghost lines: seq<Bytes>)
    returns (out: Bytes)
    requires SpansOf(spans, lines) && GroupOk(lines, g) && |baseContent| == LineStart(lines, |lines|)
    ensures out == result + GroupText(lines, baseContent, g)
  {
    var s, t := spans[g.startLine].start, spans[g.endLine - 1].end;
    GroupWindow(baseContent, spans, g, lines, s, t);
    SplicedWindow(baseContent, baseContent[s..t], g.ms, s, s, t, 0, t - s);
    var text := ApplyReplacements(baseContent[s..t], g.ms, s);
    out := result + text;
  }

  method Weave(orig: seq<Bytes>, baseContent: Bytes, spans: seq<Span>, groups: seq<Group>, ghost lines: seq<Bytes>)
    returns (result: Bytes)
    requires SpansOf(spans, lines) && GroupsOk(lines, groups) && |baseContent| == LineStart(lines, |lines|)
             && |orig| == |lines|
    ensures result == TextOf(orig, PiecesTo(lines, baseContent, groups) + KeptLines(EndLine(groups), |lines|))
  {
    var originalLineIndex := 0;
    result := [];
    for k := 0 to |groups|
      invariant GroupsOk(lines, groups[..k]) && originalLineIndex == EndLine(groups[..k]) <= |orig|
      invariant result == TextOf(orig, PiecesTo(lines, baseContent, groups[..k]))
    {
      var g := groups[k];
      SliceTo(groups, 0, k);
      InitPush(groups[..k], g);
      GroupsUpTo(lines, groups, k + 1);
      result := AppendLines(result, orig, originalLineIndex, g.startLine);
      result := AppendGroup(result, baseContent, spans, g, lines);
      PieceTexts(orig, PiecesTo(lines, baseContent, groups[..k]), KeptLines(originalLineIndex, g.startLine),
                 Rewritten(g.startLine, g.endLine, GroupText(lines, baseContent, g)));
      originalLineIndex := g.endLine;
    }
    assert groups[..|groups|] == groups;
    TextAppend(orig, PiecesTo(lines, baseContent, groups), KeptLines(originalLineIndex, |orig|));
    result := AppendLines(result, orig, originalLineIndex, |orig|);
  }

  lemma {:induction false} PieceTexts(orig: seq<Bytes>, ps: seq<Piece>, ks: seq<Piece>, p: Piece)
    ensures TextOf(orig, ps + ks + [p]) == TextOf(orig, ps) + TextOf(orig, ks) + PieceText(orig, p)
  {
    InitPush(ps + ks, p);
    TextAppend(orig, ps, ks);
  }

  lemma {:induction false} GroupsUpTo(lines: seq<Bytes>, gs: seq<Group>, k: nat)
    requires GroupsOk(lines, gs) && k <= |gs|
    ensures GroupsOk(lines, gs[..k]) && EndLine(gs[..k]) <= |lines|
  {
    if k == |gs| {
      assert gs[..k] == gs;
    } else {
      GroupsUpTo(lines, Init(gs), k);
      assert Init(gs)[..k] == gs[..k];
    }
  }

  method ApplyReplacementsPreservingUnchangedLines(originalContent: Bytes, baseContent: Bytes,
                                                   replacements: seq<Match<byte>>)
    returns (r: Overlaid)
    requires Within(SortByAt(replacements), 0, |baseContent|)
    ensures var lines, ms := Lines(baseContent), SortByAt(replacements);
            if |Lines(originalContent)| != |lines| then r == Refused(LineCountDiffers)
            else if exists k :: 0 <= k < |ms| && !Inside(lines, ms[k]) then r == Refused(OutsideBase)
            else r == Overlaid(TextOf(Lines(originalContent), OverlayPieces(baseContent, ms)))
  {
    var originalLines := SplitLinesWithEndings(originalContent);
    var baseLines := GetLineSpans(baseContent);
    if |originalLines| != |baseLines| {
      return Refused(LineCountDiffers);
    }
    ghost var lines := Lines(baseContent);
    var sorted := SortByAt(replacements);
    WithinOrder(sorted, 0, |baseContent|);
    LinesLength(baseContent);
    var ok, groups := GroupMatches(baseLines, sorted, lines);
    if !ok {
      return Refused(OutsideBase);
    }
    if lines != [] {
      GroupsSound(lines, sorted, |baseContent|);
    }
    var text := Weave(originalLines, baseContent, baseLines, groups, lines);
    r := Overlaid(text);
  }
}
