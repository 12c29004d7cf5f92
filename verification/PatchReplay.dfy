/** Grouping the runs of a line diff into hunks, and what applying the hunks
    yields. Lines are left generic here. */
module PatchReplay {
  import opened Text
  import opened MyersSearch

  /** A hunk by its two sides: the lines it expects and the lines it leaves. */
  datatype Block<T> = Block(oldStart: int, oldLines: int, newStart: int, newLines: int, o: seq<T>, n: seq<T>)

  datatype Applied<T> = Done(next: nat, out: seq<T>) | Rejected

  /** Applies blocks first to last: `next` old lines are consumed, `out` is
      produced. A block that starts before the previous one ended, whose counts
      are off, whose new start is not where it lands, or whose old side is not
      what stands in the file, is rejected. */
  ghost function Replay<T>(file: seq<T>, bs: seq<Block<T>>): Applied<T> {
    if bs == [] then Done(0, []) else Step(file, Replay(file, Init(bs)), Last(bs))
  }

  ghost function Step<T>(file: seq<T>, r: Applied<T>, h: Block<T>): Applied<T> {
    var at := h.oldStart - 1;
    if r.Done? && r.next <= at && At(file, at, h.o)
       && h.oldLines == |h.o| && h.newLines == |h.n| && h.newStart - 1 == |r.out| + (at - r.next)
    then Done(at + |h.o|, r.out + Span(file, r.next, at) + h.n)
    else Rejected
  }

  /** All blocks apply, and what they produce followed by the old lines they leave
      over is `result`. */
  ghost predicate Yields<T>(file: seq<T>, bs: seq<Block<T>>, result: seq<T>) {
    var r := Replay(file, bs);
    r.Done? && r.next <= |file| && r.out + Span(file, r.next, |file|) == result
  }

  /** p stands in a at x. */
  ghost predicate At<T>(a: seq<T>, x: nat, p: seq<T>) {
    x + |p| <= |a| && Span(a, x, x + |p|) == p
  }

  // ----- positions inside the two texts -------------------------------------

  lemma AtSlice<T>(a: seq<T>, x: nat, p: seq<T>)
    requires x + |p| <= |a|
    ensures At(a, x, p) <==> a[x..x + |p|] == p
  {
    SpanIsSlice(a, x, x + |p|);
  }

  lemma AtParts<T>(a: seq<T>, x: nat, p: seq<T>, k: nat)
    requires At(a, x, p) && k <= |p|
    ensures At(a, x, p[..k]) && At(a, x + k, p[k..])
  {
    AtSlice(a, x, p);
    AtSlice(a, x, p[..k]);
    AtSlice(a, x + k, p[k..]);
    assert a[x..x + k] == a[x..x + |p|][..k];
    assert a[x + k..x + |p|] == a[x..x + |p|][k..];
  }

  lemma AtAppend<T>(a: seq<T>, x: nat, p: seq<T>, more: seq<T>)
    requires At(a, x, p)
    ensures At(a + more, x, p)
  {
    SpanAppend(a, more, x, x + |p|);
  }

  lemma AtEnd<T>(a: seq<T>, p: seq<T>)
    ensures At(a + p, |a|, p)
  {
    AtSlice(a + p, |a|, p);
  }

  /** With `next` old lines consumed and `out` produced, the first x old lines
      become the first y new lines. */
  ghost predicate Closed<T>(a: seq<T>, b: seq<T>, next: nat, out: seq<T>, x: nat, y: nat) {
    next <= x <= |a| && y <= |b| && out + Span(a, next, x) == Span(b, 0, y)
  }

  /** A block is open that starts after s old lines and has sides o and n so far. */
  ghost predicate Open<T>(a: seq<T>, b: seq<T>, next: nat, out: seq<T>, s: nat, o: seq<T>, n: seq<T>, x: nat, y: nat) {
    next <= s <= x <= |a| && y <= |b| && Span(a, s, x) == o && out + Span(a, next, s) + n == Span(b, 0, y)
  }

  lemma OpenHunk<T>(a: seq<T>, b: seq<T>, next: nat, out: seq<T>, x: nat, y: nat, ctx: seq<T>)
    requires Closed(a, b, next, out, x, y) && |ctx| <= x - next && At(a, x - |ctx|, ctx)
    ensures Open(a, b, next, out, x - |ctx|, ctx, ctx, x, y)
    ensures y - |ctx| == |out| + (x - |ctx| - next)
  {
    SpanSplit(a, next, x - |ctx|, x);
    Assoc(out, Span(a, next, x - |ctx|), ctx);
    assert |out + Span(a, next, x)| == |Span(b, 0, y)|;
  }

  lemma Extend<T>(a: seq<T>, b: seq<T>, next: nat, out: seq<T>, s: nat, o: seq<T>, n: seq<T>, x: nat, y: nat,
                  p: seq<T>, q: seq<T>)
    requires Open(a, b, next, out, s, o, n, x, y)
    requires At(a, x, p) && At(b, y, q)
    ensures Open(a, b, next, out, s, o + p, n + q, x + |p|, y + |q|)
  {
    SpanSplit(a, s, x, x + |p|);
    SpanSplit(b, 0, y, y + |q|);
    Assoc(out + Span(a, next, s), n, q);
  }

  lemma {:induction false} CloseHunk<T>(a: seq<T>, b: seq<T>, next: nat, out: seq<T>, s: nat, o: seq<T>,
                                        n: seq<T>, x: nat, y: nat)
    requires Open(a, b, next, out, s, o, n, x, y)
    ensures Closed(a, b, x, out + Span(a, next, s) + n, x, y)
    ensures |o| == x - s && |n| == y - (|out| + (s - next))
  {
    Nil(out + Span(a, next, s) + n);
    assert |out + Span(a, next, s) + n| == |Span(b, 0, y)|;
  }

  lemma Copy<T>(a: seq<T>, b: seq<T>, next: nat, out: seq<T>, x: nat, y: nat, p: seq<T>)
    requires Closed(a, b, next, out, x, y) && At(a, x, p) && At(b, y, p)
    ensures Closed(a, b, next, out, x + |p|, y + |p|)
  {
    SpanSplit(a, next, x, x + |p|);
    SpanSplit(b, 0, y, y + |p|);
    Assoc(out, Span(a, next, x), p);
  }

  // ----- entries of a diff --------------------------------------------------

  datatype Entry<T> = Entry(kind: Kind, lines: seq<T>)

  ghost function EntryLines<T>(es: seq<Entry<T>>, skip: Kind): seq<T> {
    if es == [] then [] else EntryLines(Init(es), skip) + EntryBut(Last(es), skip)
  }

  ghost function EntryBut<T>(e: Entry<T>, skip: Kind): seq<T> {
    if e.kind == skip then [] else e.lines
  }

  /** Number of lines of the first i entries on the side that leaves out `skip`. */
  ghost function Pos<T>(es: seq<Entry<T>>, skip: Kind, i: nat): nat
    requires i <= |es|
  {
    if i == 0 then 0 else Pos(es, skip, i - 1) + |EntryBut(es[i - 1], skip)|
  }

  lemma {:induction false} PosInit<T>(es: seq<Entry<T>>, skip: Kind, i: nat)
    requires i < |es|
    ensures Pos(es, skip, i) == Pos(Init(es), skip, i)
  {
    if i > 0 {
      PosInit(es, skip, i - 1);
    }
  }

  lemma {:induction false} PosEnd<T>(es: seq<Entry<T>>, skip: Kind)
    ensures Pos(es, skip, |es|) == |EntryLines(es, skip)|
  {
    if es != [] {
      PosEnd(Init(es), skip);
      PosInit(es, skip, |es| - 1);
    }
  }

  /** Where entry i lies in the side that leaves out `skip`. */
  lemma {:induction false} EntryAt<T>(es: seq<Entry<T>>, skip: Kind, i: nat)
    requires i < |es|
    ensures At(EntryLines(es, skip), Pos(es, skip, i), EntryBut(es[i], skip))
  {
    var init, last := Init(es), Last(es);
    PosInit(es, skip, i);
    if i < |init| {
      EntryAt(init, skip, i);
      assert init[i] == es[i];
      AtAppend(EntryLines(init, skip), Pos(init, skip, i), EntryBut(init[i], skip), EntryBut(last, skip));
    } else {
      assert es[i] == last;
      PosEnd(init, skip);
      AtEnd(EntryLines(init, skip), EntryBut(last, skip));
    }
  }

  // ----- the state of the builder -------------------------------------------

  /** r is what the finished blocks make of the file. They and the open block (old
      start 0 means none is open), or they and the lines since the last, make the
      first x old lines the first y new lines. */
  ghost predicate Sound<T>(a: seq<T>, b: seq<T>, r: Applied<T>, oldStart: int, newStart: int, o: seq<T>, n: seq<T>,
                           x: int, y: int) {
    r.Done? && x >= 0 && y >= 0 &&
    if oldStart == 0 then newStart == 0 && Closed(a, b, r.next, r.out, x, y)
    else oldStart >= 1 && newStart - 1 == |r.out| + (oldStart - 1 - r.next)
         && Open(a, b, r.next, r.out, oldStart - 1, o, n, x, y)
  }

  /** p are the last of the first x old lines, and no block has used the last k of
      them yet. */
  ghost predicate Room<T>(a: seq<T>, r: Applied<T>, x: int, p: seq<T>, k: nat) {
    k <= |p| <= x && At(a, x - |p|, p) && r.Done? && r.next + k <= x
  }

  lemma Opened<T>(a: seq<T>, b: seq<T>, r: Applied<T>, v: int, o: seq<T>, n: seq<T>, x: nat, y: nat, p: seq<T>,
                  ctx: seq<T>)
    requires Sound(a, b, r, 0, v, o, n, x, y) && Room(a, r, x, p, |ctx|) && ctx == p[|p| - |ctx|..]
    ensures x + 1 - |ctx| >= 1 && Sound(a, b, r, x + 1 - |ctx|, y + 1 - |ctx|, ctx, ctx, x, y)
  {
    AtParts(a, x - |p|, p, |p| - |ctx|);
    OpenHunk(a, b, r.next, r.out, x, y, ctx);
  }

  lemma Taken<T>(a: seq<T>, b: seq<T>, r: Applied<T>, u: int, v: int, o: seq<T>, n: seq<T>, x: nat, y: nat, p: seq<T>,
                 q: seq<T>,
                 x': nat, y': nat)
    requires Sound(a, b, r, u, v, o, n, x, y) && u != 0 && At(a, x, p) && At(b, y, q) && x' == x + |p| && y' == y + |q|
    ensures Sound(a, b, r, u, v, o + p, n + q, x', y')
  {
    Extend(a, b, r.next, r.out, u - 1, o, n, x, y, p, q);
  }

  lemma Ended<T>(a: seq<T>, b: seq<T>, r: Applied<T>, u: int, v: int, o: seq<T>, n: seq<T>, x: nat, y: nat, h: Block<T>)
    requires Sound(a, b, r, u, v, o, n, x, y) && u != 0 && h == Block(u, x + 1 - u, v, y + 1 - v, o, n)
    ensures Sound(a, b, Step(a, r, h), 0, 0, [], [], x, y)
  {
    CloseHunk(a, b, r.next, r.out, u - 1, o, n, x, y);
  }

  lemma Passed<T>(a: seq<T>, b: seq<T>, r: Applied<T>, v: int, o: seq<T>, n: seq<T>, x: nat, y: nat, p: seq<T>,
                  x': nat, y': nat)
    requires Sound(a, b, r, 0, v, o, n, x, y) && At(a, x, p) && At(b, y, p) && x' == x + |p| && y' == y + |p|
    ensures Sound(a, b, r, 0, v, o, n, x', y') && r.next <= x
  {
    Copy(a, b, r.next, r.out, x, y, p);
  }

  lemma RoomLeft<T>(a: seq<T>, r: Applied<T>, x: nat, x': nat, p: seq<T>, k: nat)
    requires k <= |p| && At(a, x, p) && x' == x + |p| && r.Done? && r.next + k <= x'
    ensures Room(a, r, x', p, k)
  {
  }

  lemma RoomLess<T>(a: seq<T>, r: Applied<T>, x: int, p: seq<T>, j: nat, k: nat)
    requires Room(a, r, x, p, k) && j <= k
    ensures Room(a, r, x, p, j)
  {
  }

  /** Ending a block after c lines of trailing context leaves the rest of the
      unchanged run as room. */
  lemma EndedWithin<T>(a: seq<T>, b: seq<T>, r: Applied<T>, u: int, v: int, o: seq<T>, n: seq<T>, x: nat, y: nat,
                       p: seq<T>, c: nat, h: Block<T>, x': nat, y': nat)
    requires Sound(a, b, r, u, v, o, n, x, y) && u != 0 && At(a, x, p) && At(b, y, p) && c <= |p|
    requires x' == x + |p| && y' == y + |p|
    requires h == Block(u, x + 1 - u + c, v, y + 1 - v + c, o + p[..c], n + p[..c])
    ensures Sound(a, b, Step(a, r, h), 0, 0, [], [], x', y') && Room(a, Step(a, r, h), x', p, |p| - c)
  {
    AtParts(a, x, p, c);
    AtParts(b, y, p, c);
    EndedHalfway(a, b, r, u, v, o, n, x, y, p, p[..c], p[c..], h, x', y');
  }

  lemma EndedHalfway<T>(a: seq<T>, b: seq<T>, r: Applied<T>, u: int, v: int, o: seq<T>, n: seq<T>, x: nat, y: nat,
                        p: seq<T>, p1: seq<T>, p2: seq<T>, h: Block<T>, x': nat, y': nat)
    requires Sound(a, b, r, u, v, o, n, x, y) && u != 0 && At(a, x, p) && |p| == |p1| + |p2| && x' == x + |p|
             && y' == y + |p|
    requires At(a, x, p1) && At(b, y, p1) && At(a, x + |p1|, p2) && At(b, y + |p1|, p2)
    requires h == Block(u, x + 1 - u + |p1|, v, y + 1 - v + |p1|, o + p1, n + p1)
    ensures Sound(a, b, Step(a, r, h), 0, 0, [], [], x', y') && Room(a, Step(a, r, h), x', p, |p2|)
  {
    Taken(a, b, r, u, v, o, n, x, y, p1, p1, x + |p1|, y + |p1|);
    Ended(a, b, r, u, v, o + p1, n + p1, x + |p1|, y + |p1|, h);
    Passed(a, b, Step(a, r, h), 0, [], [], x + |p1|, y + |p1|, p2, x', y');
    RoomLeft(a, Step(a, r, h), x, x', p, |p2|);
  }

  lemma {:induction false} Complete<T>(a: seq<T>, b: seq<T>, bs: seq<Block<T>>, v: int, o: seq<T>, n: seq<T>)
    requires Sound(a, b, Replay(a, bs), 0, v, o, n, |a|, |b|)
    ensures Yields(a, bs, b)
  {
    SpanAll(b);
  }

  // ----- the hunk builder ---------------------------------------------------

  /** A hunk line with its prefix: ' ' for Same, '+' for Added, '-' for Removed. */
  datatype Tagged<T> = Tagged(kind: Kind, line: T)

  datatype Hunk<T> = Hunk(oldStart: int, oldLines: int, newStart: int, newLines: int, lines: seq<Tagged<T>>)

  /** The lines of one side of a hunk: all but those of one kind. */
  ghost function Side<T>(ls: seq<Tagged<T>>, skip: Kind): seq<T> {
    if ls == [] then [] else Side(Init(ls), skip) + if Last(ls).kind == skip then [] else [Last(ls).line]
  }

  ghost function BlockOf<T>(h: Hunk<T>): Block<T> {
    Block(h.oldStart, h.oldLines, h.newStart, h.newLines, Side(h.lines, Added), Side(h.lines, Removed))
  }

  ghost function Blocks<T>(hs: seq<Hunk<T>>): seq<Block<T>> {
    if hs == [] then [] else Blocks(Init(hs)) + [BlockOf(Last(hs))]
  }

  ghost function Prefixed<T>(lines: seq<T>, kind: Kind): (r: seq<Tagged<T>>)
    ensures |r| == |lines|
  {
    if lines == [] then [] else Prefixed(Init(lines), kind) + [Tagged(kind, Last(lines))]
  }

  lemma {:induction false} PrefixedSide<T>(cur: seq<Tagged<T>>, lines: seq<T>, kind: Kind, skip: Kind)
    ensures Side(cur + Prefixed(lines, kind), skip) == Side(cur, skip) + if kind == skip then [] else lines
    decreases |lines|
  {
    Nil(Side(cur, skip));
    if lines == [] {
      Nil(cur);
    } else {
      var init, l := Init(lines), Tagged(kind, Last(lines));
      PrefixedSide(cur, init, kind, skip);
      Assoc(cur, Prefixed(init, kind), [l]);
      InitPush(cur + Prefixed(init, kind), l);
      InitLast(lines);
      Assoc(Side(cur, skip), init, [Last(lines)]);
    }
  }

  lemma {:induction false} EntrySide<T>(cur: seq<Tagged<T>>, e: Entry<T>, skip: Kind)
    ensures Side(cur + Prefixed(e.lines, e.kind), skip) == Side(cur, skip) + EntryBut(e, skip)
  {
    PrefixedSide(cur, e.lines, e.kind, skip);
  }

  lemma {:induction false} ContextSides<T>(ctx: seq<T>)
    ensures Side(Prefixed(ctx, Same), Added) == ctx && Side(Prefixed(ctx, Same), Removed) == ctx
  {
    PrefixedSide([], ctx, Same, Added);
    PrefixedSide([], ctx, Same, Removed);
    Nil(Prefixed(ctx, Same));
    Nil(ctx);
  }

  method PrefixLines<T>(lines: seq<T>, kind: Kind) returns (out: seq<Tagged<T>>)
    ensures out == Prefixed(lines, kind)
  {
    out := [];
    for i := 0 to |lines|
      invariant out == Prefixed(lines[..i], kind)
    {
      SliceTo(lines, 0, i);
      InitPush(lines[..i], lines[i]);
      out := out + [Tagged(kind, lines[i])];
    }
    assert lines[..|lines|] == lines;
  }

  /** The variables of the hunk builder; oldRangeStart 0 means no hunk is open. */
  datatype Group<T> = Group(hunks: seq<Hunk<T>>, oldRangeStart: int, newRangeStart: int, curRange: seq<Tagged<T>>)

  /** What applying the finished hunks makes of the old lines. */
  ghost function Applying<T>(a: seq<T>, g: Group<T>): Applied<T> {
    Replay(a, Blocks(g.hunks))
  }

  /** The old and new lines before the given line numbers are dealt with. */
  ghost predicate Tracks<T>(g: Group<T>, oldLine: int, newLine: int, a: seq<T>, b: seq<T>) {
    Sound(a, b, Applying(a, g), g.oldRangeStart, g.newRangeStart, Side(g.curRange, Added), Side(g.curRange, Removed),
          oldLine - 1, newLine - 1)
  }

  function ContextStart<T>(lines: seq<T>, context: nat): nat {
    if |lines| < context then 0 else |lines| - context
  }

  /** A hunk opened before the line, with up to `context` of the lines before it. */
  ghost function OpenedRange<T>(g: Group<T>, prevLines: seq<T>, context: nat, oldLine: int, newLine: int): Group<T> {
    var ctx := Prefixed(prevLines[ContextStart(prevLines, context)..], Same);
    Group(g.hunks, oldLine - |ctx|, newLine - |ctx|, ctx)
  }

  ghost function WithLines<T>(g: Group<T>, e: Entry<T>): Group<T> {
    g.(curRange := g.curRange + Prefixed(e.lines, e.kind))
  }

  function ContextSize<T>(lines: seq<T>, context: nat): nat {
    if context < |lines| then context else |lines|
  }

  /** The open hunk ended with up to `context` of the lines that follow. */
  ghost function ClosedRange<T>(g: Group<T>, lines: seq<T>, context: nat, oldLine: int, newLine: int): Group<T> {
    var c := ContextSize(lines, context);
    var h := Hunk(g.oldRangeStart, oldLine - g.oldRangeStart + c, g.newRangeStart, newLine - g.newRangeStart + c,
                  g.curRange + Prefixed(lines[..c], Same));
    Group(g.hunks + [h], 0, 0, [])
  }

  /** What one entry makes of the hunks. */
  ghost function NextGroup<T>(g: Group<T>, e: Entry<T>, prevLines: seq<T>, last: bool, context: nat, oldLine: int,
                              newLine: int): Group<T> {
    if e.kind != Same then
      WithLines(if g.oldRangeStart == 0 then OpenedRange(g, prevLines, context, oldLine, newLine) else g, e)
    else if g.oldRangeStart == 0 then g
    else if |e.lines| <= context * 2 && !last then WithLines(g, e)
    else ClosedRange(g, e.lines, context, oldLine, newLine)
  }

  ghost function PrevLines<T>(es: seq<Entry<T>>, i: nat): seq<T>
    requires i <= |es|
  {
    if i == 0 then [] else es[i - 1].lines
  }

  /** The line number that entry i begins with on the side that leaves out `skip`. */
  ghost function LineAt<T>(es: seq<Entry<T>>, skip: Kind, i: nat): int
    requires i <= |es|
  {
    Pos(es, skip, i) + 1
  }

  /** What entry i makes of the hunks. */
  ghost function GroupStep<T>(g: Group<T>, es: seq<Entry<T>>, i: nat, context: nat): Group<T>
    requires i < |es|
  {
    NextGroup(g, es[i], PrevLines(es, i), i >= |es| - 2, context, LineAt(es, Added, i), LineAt(es, Removed, i))
  }

  /** The hunks once the first i entries are dealt with. */
  ghost function Grouping<T>(es: seq<Entry<T>>, context: nat, i: nat): Group<T>
    requires i <= |es|
  {
    if i == 0 then Group([], 0, 0, []) else GroupStep(Grouping(es, context, i - 1), es, i - 1, context)
  }

  /** The lines just passed leave `context` of them, or all, for the next hunk. */
  ghost predicate RoomAfter<T>(g: Group<T>, oldLine: int, lines: seq<T>, context: nat, a: seq<T>) {
    Room(a, Applying(a, g), oldLine - 1, lines, |lines| - ContextStart(lines, context))
  }

  lemma GroupOpened<T>(g: Group<T>, prevLines: seq<T>, ctx: seq<T>, oldLine: int, newLine: int, a: seq<T>, b: seq<T>,
                       g': Group<T>)
    requires Tracks(g, oldLine, newLine, a, b) && g.oldRangeStart == 0
    requires Room(a, Applying(a, g), oldLine - 1, prevLines, |ctx|) && ctx == prevLines[|prevLines| - |ctx|..]
    requires g'.hunks == g.hunks && g'.oldRangeStart == oldLine - |ctx| && g'.newRangeStart == newLine - |ctx|
    requires Side(g'.curRange, Added) == ctx && Side(g'.curRange, Removed) == ctx
    ensures Tracks(g', oldLine, newLine, a, b) && g'.oldRangeStart != 0
  {
    Opened(a, b, Applying(a, g), g.newRangeStart, Side(g.curRange, Added), Side(g.curRange, Removed),
           oldLine - 1, newLine - 1, prevLines, ctx);
  }

  /** A change between hunks opens one, with up to `context` lines before it. */
  method OpenRange<T>(g: Group<T>, prevLines: seq<T>, context: nat, oldLine: int, newLine: int, ghost a: seq<T>,
                      ghost b: seq<T>)
    returns (g': Group<T>)
    requires Tracks(g, oldLine, newLine, a, b) && g.oldRangeStart == 0 && RoomAfter(g, oldLine, prevLines, context, a)
    ensures Tracks(g', oldLine, newLine, a, b) && g'.oldRangeStart >= 1
    ensures g' == OpenedRange(g, prevLines, context, oldLine, newLine)
  {
    ghost var from := ContextStart(prevLines, context);
    var curRange: seq<Tagged<T>> := [];
    if context > 0 {
      var start := |prevLines| - context;
      if start < 0 {
        start := 0;
      }
      curRange := PrefixLines(prevLines[start..], Same);
    }
    assert curRange == Prefixed(prevLines[from..], Same) && |curRange| == |prevLines| - from;
    g' := Group(g.hunks, oldLine - |curRange|, newLine - |curRange|, curRange);
    ContextSides(prevLines[from..]);
    GroupOpened(g, prevLines, prevLines[from..], oldLine, newLine, a, b, g');
  }

  lemma GroupTaken<T>(g: Group<T>, p: seq<T>, q: seq<T>, oldLine: int, newLine: int, a: seq<T>, b: seq<T>, g': Group<T>,
                      oldLine': int, newLine': int)
    requires Tracks(g, oldLine, newLine, a, b) && g.oldRangeStart != 0 && oldLine' == oldLine + |p|
             && newLine' == newLine + |q|
    requires At(a, oldLine - 1, p) && At(b, newLine - 1, q)
    requires g'.hunks == g.hunks && g'.oldRangeStart == g.oldRangeStart && g'.newRangeStart == g.newRangeStart
    requires Side(g'.curRange, Added) == Side(g.curRange, Added) + p
    requires Side(g'.curRange, Removed) == Side(g.curRange, Removed) + q
    ensures Tracks(g', oldLine', newLine', a, b)
  {
    Taken(a, b, Applying(a, g), g.oldRangeStart, g.newRangeStart, Side(g.curRange, Added), Side(g.curRange, Removed),
          oldLine - 1, newLine - 1, p, q, oldLine' - 1, newLine' - 1);
  }

  lemma EntryTaken<T>(g: Group<T>, e: Entry<T>, oldLine: int, newLine: int, a: seq<T>, b: seq<T>, g': Group<T>,
                      oldLine': int, newLine': int)
    requires Tracks(g, oldLine, newLine, a, b) && g.oldRangeStart != 0
    requires At(a, oldLine - 1, EntryBut(e, Added)) && At(b, newLine - 1, EntryBut(e, Removed))
    requires oldLine' == oldLine + |EntryBut(e, Added)| && newLine' == newLine + |EntryBut(e, Removed)|
    requires g' == g.(curRange := g.curRange + Prefixed(e.lines, e.kind))
    ensures Tracks(g', oldLine', newLine', a, b)
  {
    EntrySide(g.curRange, e, Added);
    EntrySide(g.curRange, e, Removed);
    GroupTaken(g, EntryBut(e, Added), EntryBut(e, Removed), oldLine, newLine, a, b, g', oldLine', newLine');
  }

  /** The lines of an entry, added to the open hunk. */
  method TakeLines<T>(g: Group<T>, e: Entry<T>, ghost oldLine: int, ghost newLine: int, ghost oldLine': int,
                      ghost newLine': int,
                      ghost a: seq<T>, ghost b: seq<T>)
    returns (g': Group<T>)
    requires Tracks(g, oldLine, newLine, a, b) && g.oldRangeStart != 0
    requires At(a, oldLine - 1, EntryBut(e, Added)) && At(b, newLine - 1, EntryBut(e, Removed))
    requires oldLine' == oldLine + |EntryBut(e, Added)| && newLine' == newLine + |EntryBut(e, Removed)|
    ensures Tracks(g', oldLine', newLine', a, b) && g' == WithLines(g, e)
  {
    var more := PrefixLines(e.lines, e.kind);
    g' := g.(curRange := g.curRange + more);
    EntryTaken(g, e, oldLine, newLine, a, b, g', oldLine', newLine');
  }

  lemma ApplyingPush<T>(a: seq<T>, g: Group<T>, h: Hunk<T>, g': Group<T>)
    requires g'.hunks == g.hunks + [h]
    ensures Applying(a, g') == Step(a, Applying(a, g), BlockOf(h))
  {
    InitPush(g.hunks, h);
    InitPush(Blocks(g.hunks), BlockOf(h));
  }

  lemma GroupEnded<T>(g: Group<T>, lines: seq<T>, c: nat, oldLine: int, newLine: int, a: seq<T>, b: seq<T>, h: Block<T>,
                      r: Applied<T>, oldLine': int, newLine': int)
    requires Tracks(g, oldLine, newLine, a, b) && g.oldRangeStart != 0 && c <= |lines|
    requires oldLine' == oldLine + |lines| && newLine' == newLine + |lines|
    requires At(a, oldLine - 1, lines) && At(b, newLine - 1, lines)
    requires h == Block(g.oldRangeStart, oldLine - g.oldRangeStart + c, g.newRangeStart, newLine - g.newRangeStart + c,
                        Side(g.curRange, Added) + lines[..c], Side(g.curRange, Removed) + lines[..c])
    requires r == Step(a, Applying(a, g), h)
    ensures Sound(a, b, r, 0, 0, [], [], oldLine' - 1, newLine' - 1) && Room(a, r, oldLine' - 1, lines, |lines| - c)
  {
    EndedWithin(a, b, Applying(a, g), g.oldRangeStart, g.newRangeStart, Side(g.curRange, Added),
                Side(g.curRange, Removed),
                oldLine - 1, newLine - 1, lines, c, h, oldLine' - 1, newLine' - 1);
  }

  lemma HunkEnded<T>(g: Group<T>, lines: seq<T>, c: nat, oldLine: int, newLine: int, a: seq<T>, b: seq<T>, h: Hunk<T>,
                     g': Group<T>,
                     oldLine': int, newLine': int)
    requires Tracks(g, oldLine, newLine, a, b) && g.oldRangeStart != 0 && c <= |lines|
    requires oldLine' == oldLine + |lines| && newLine' == newLine + |lines|
    requires At(a, oldLine - 1, lines) && At(b, newLine - 1, lines)
    requires h == Hunk(g.oldRangeStart, oldLine - g.oldRangeStart + c, g.newRangeStart, newLine - g.newRangeStart + c,
                       g.curRange + Prefixed(lines[..c], Same))
    requires g' == Group(g.hunks + [h], 0, 0, [])
    ensures Tracks(g', oldLine', newLine', a, b) && Room(a, Applying(a, g'), oldLine' - 1, lines, |lines| - c)
  {
    PrefixedSide(g.curRange, lines[..c], Same, Added);
    PrefixedSide(g.curRange, lines[..c], Same, Removed);
    ApplyingPush(a, g, h, g');
    GroupEnded(g, lines, c, oldLine, newLine, a, b, BlockOf(h), Applying(a, g'), oldLine', newLine');
  }

  lemma LongRunLeaves<T>(g: Group<T>, oldLine: int, lines: seq<T>, context: nat, c: nat, a: seq<T>)
    requires |lines| > 2 * context && c == context && Room(a, Applying(a, g), oldLine - 1, lines, |lines| - c)
    ensures RoomAfter(g, oldLine, lines, context, a)
  {
    RoomLess(a, Applying(a, g), oldLine - 1, lines, |lines| - ContextStart(lines, context), |lines| - c);
  }

  lemma RangeClosed<T>(g: Group<T>, lines: seq<T>, context: nat, c: nat, oldLine: int, newLine: int, a: seq<T>,
                       b: seq<T>,
                       h: Hunk<T>, g': Group<T>, oldLine': int, newLine': int)
    requires Tracks(g, oldLine, newLine, a, b) && g.oldRangeStart != 0 && c == ContextSize(lines, context)
    requires oldLine' == oldLine + |lines| && newLine' == newLine + |lines|
    requires At(a, oldLine - 1, lines) && At(b, newLine - 1, lines)
    requires h == Hunk(g.oldRangeStart, oldLine - g.oldRangeStart + c, g.newRangeStart, newLine - g.newRangeStart + c,
                       g.curRange + Prefixed(lines[..c], Same))
    requires g' == Group(g.hunks + [h], 0, 0, [])
    ensures Tracks(g', oldLine', newLine', a, b)
    ensures |lines| > 2 * context ==> RoomAfter(g', oldLine', lines, context, a)
  {
    HunkEnded(g, lines, c, oldLine, newLine, a, b, h, g', oldLine', newLine');
    if |lines| > 2 * context {
      LongRunLeaves(g', oldLine', lines, context, c, a);
    }
  }

  method EndHunk<T>(g: Group<T>, lines: seq<T>, context: nat, oldLine: int, newLine: int)
    returns (g': Group<T>, ghost h: Hunk<T>)
    ensures g' == ClosedRange(g, lines, context, oldLine, newLine) == Group(g.hunks + [h], 0, 0, [])
    ensures var c := ContextSize(lines, context);
            h == Hunk(g.oldRangeStart, oldLine - g.oldRangeStart + c, g.newRangeStart, newLine - g.newRangeStart + c,
                      g.curRange + Prefixed(lines[..c], Same))
  {
    var contextSize := |lines|;
    if context < contextSize {
      contextSize := context;
    }
    var more := PrefixLines(lines[..contextSize], Same);
    var hunk := Hunk(g.oldRangeStart, oldLine - g.oldRangeStart + contextSize,
                     g.newRangeStart, newLine - g.newRangeStart + contextSize, g.curRange + more);
    h := hunk;
    g' := Group(g.hunks + [hunk], 0, 0, []);
  }

  /** A long or last unchanged entry ends the hunk with up to `context` of its
      lines. */
  method CloseRange<T>(g: Group<T>, lines: seq<T>, context: nat, oldLine: int, newLine: int, ghost oldLine': int,
                       ghost newLine': int,
                       ghost a: seq<T>, ghost b: seq<T>)
    returns (g': Group<T>)
    requires Tracks(g, oldLine, newLine, a, b) && g.oldRangeStart != 0
    requires At(a, oldLine - 1, lines) && At(b, newLine - 1, lines)
    requires oldLine' == oldLine + |lines| && newLine' == newLine + |lines|
    ensures Tracks(g', oldLine', newLine', a, b) && g'.oldRangeStart == 0
    ensures |lines| > 2 * context ==> RoomAfter(g', oldLine', lines, context, a)
    ensures g' == ClosedRange(g, lines, context, oldLine, newLine)
  {
    ghost var h;
    g', h := EndHunk(g, lines, context, oldLine, newLine);
    RangeClosed(g, lines, context, ContextSize(lines, context), oldLine, newLine, a, b, h, g', oldLine', newLine');
  }

  lemma GroupPassed<T>(g: Group<T>, lines: seq<T>, context: nat, oldLine: int, newLine: int, a: seq<T>, b: seq<T>,
                       oldLine': int, newLine': int)
    requires Tracks(g, oldLine, newLine, a, b) && g.oldRangeStart == 0
    requires At(a, oldLine - 1, lines) && At(b, newLine - 1, lines)
    requires oldLine' == oldLine + |lines| && newLine' == newLine + |lines|
    ensures Tracks(g, oldLine', newLine', a, b) && RoomAfter(g, oldLine', lines, context, a)
  {
    var x, y := oldLine - 1, newLine - 1;
    Passed(a, b, Applying(a, g), g.newRangeStart, Side(g.curRange, Added), Side(g.curRange, Removed), x, y, lines,
           oldLine' - 1, newLine' - 1);
    RoomLeft(a, Applying(a, g), x, oldLine' - 1, lines, |lines| - ContextStart(lines, context));
  }

  /** One entry. `last` tells that no other entry but the empty one follows. */
  method GroupEntry<T>(g: Group<T>, current: Entry<T>, prevLines: seq<T>, last: bool, context: nat, oldLine: int,
                       newLine: int,
                       ghost a: seq<T>, ghost b: seq<T>)
    returns (g': Group<T>, oldLine': int, newLine': int)
    requires Tracks(g, oldLine, newLine, a, b)
    requires g.oldRangeStart == 0 && current.kind != Same ==> RoomAfter(g, oldLine, prevLines, context, a)
    requires At(a, oldLine - 1, EntryBut(current, Added)) && At(b, newLine - 1, EntryBut(current, Removed))
    ensures oldLine' == oldLine + |EntryBut(current, Added)| && newLine' == newLine + |EntryBut(current, Removed)|
    ensures Tracks(g', oldLine', newLine', a, b)
    ensures g'.oldRangeStart == 0 && !last ==> RoomAfter(g', oldLine', current.lines, context, a)
    ensures last && current.kind == Same ==> g'.oldRangeStart == 0
    ensures g' == NextGroup(g, current, prevLines, last, context, oldLine, newLine)
  {
    oldLine' := if current.kind == Added then oldLine else oldLine + |current.lines|;
    newLine' := if current.kind == Removed then newLine else newLine + |current.lines|;
    if current.kind != Same {
      g' := GroupChanged(g, current, prevLines, context, oldLine, newLine, oldLine', newLine', a, b);
    } else if g.oldRangeStart == 0 {
      g' := g;
      GroupPassed(g, current.lines, context, oldLine, newLine, a, b, oldLine', newLine');
    } else {
      g' := GroupContext(g, current, last, context, oldLine, newLine, oldLine', newLine', a, b);
    }
  }

  method GroupChanged<T>(g: Group<T>, current: Entry<T>, prevLines: seq<T>, context: nat, oldLine: int, newLine: int,
                         ghost oldLine': int, ghost newLine': int, ghost a: seq<T>, ghost b: seq<T>)
    returns (g': Group<T>)
    requires Tracks(g, oldLine, newLine, a, b)
             && (g.oldRangeStart == 0 ==> RoomAfter(g, oldLine, prevLines, context, a))
    requires At(a, oldLine - 1, EntryBut(current, Added)) && At(b, newLine - 1, EntryBut(current, Removed))
    requires oldLine' == oldLine + |EntryBut(current, Added)| && newLine' == newLine + |EntryBut(current, Removed)|
             && current.kind != Same
    ensures Tracks(g', oldLine', newLine', a, b) && g'.oldRangeStart != 0
    ensures g' == NextGroup(g, current, prevLines, false, context, oldLine, newLine)
  {
    g' := g;
    if g.oldRangeStart == 0 {
      g' := OpenRange(g, prevLines, context, oldLine, newLine, a, b);
    }
    g' := TakeLines(g', current, oldLine, newLine, oldLine', newLine', a, b);
  }

  /** An unchanged entry while a hunk is open. */
  method GroupContext<T>(g: Group<T>, current: Entry<T>, last: bool, context: nat, oldLine: int, newLine: int,
                         ghost oldLine': int, ghost newLine': int, ghost a: seq<T>, ghost b: seq<T>)
    returns (g': Group<T>)
    requires Tracks(g, oldLine, newLine, a, b) && g.oldRangeStart != 0 && current.kind == Same
    requires At(a, oldLine - 1, current.lines) && At(b, newLine - 1, current.lines)
    requires oldLine' == oldLine + |current.lines| && newLine' == newLine + |current.lines|
    ensures Tracks(g', oldLine', newLine', a, b)
    ensures g'.oldRangeStart == 0 && !last ==> RoomAfter(g', oldLine', current.lines, context, a)
    ensures last ==> g'.oldRangeStart == 0
    ensures g' == NextGroup(g, current, [], last, context, oldLine, newLine)
  {
    if |current.lines| <= context * 2 && !last {
      g' := TakeLines(g, current, oldLine, newLine, oldLine', newLine', a, b);
    } else {
      g' := CloseRange(g, current.lines, context, oldLine, newLine, oldLine', newLine', a, b);
    }
  }

  lemma {:induction false} PosNext<T>(es: seq<Entry<T>>, skip: Kind, i: nat, next: nat)
    requires i < |es| && next == i + 1
    ensures Pos(es, skip, next) == Pos(es, skip, i) + |EntryBut(es[i], skip)|
  {
  }

  lemma {:induction false} NextEntry<T>(es: seq<Entry<T>>, i: nat, next: nat, a: seq<T>, b: seq<T>)
    requires i < |es| && next == i + 1 && a == EntryLines(es, Added) && b == EntryLines(es, Removed)
    ensures At(a, Pos(es, Added, i), EntryBut(es[i], Added)) && At(b, Pos(es, Removed, i), EntryBut(es[i], Removed))
    ensures Pos(es, Added, next) == Pos(es, Added, i) + |EntryBut(es[i], Added)|
    ensures Pos(es, Removed, next) == Pos(es, Removed, i) + |EntryBut(es[i], Removed)|
  {
    PosNext(es, Added, i, next);
    PosNext(es, Removed, i, next);
    EntryAt(es, Added, i);
    EntryAt(es, Removed, i);
  }

  /** The entries before i are dealt with; the last of them was `prevLines`. */
  ghost predicate GroupedTo<T>(g: Group<T>, entries: seq<Entry<T>>, i: nat, oldLine: int, newLine: int,
                               prevLines: seq<T>,
                               context: nat, a: seq<T>, b: seq<T>) {
    && i <= |entries| && oldLine == LineAt(entries, Added, i) && newLine == LineAt(entries, Removed, i)
    && Tracks(g, oldLine, newLine, a, b)
    && (g.oldRangeStart == 0 && i + 1 < |entries| ==> RoomAfter(g, oldLine, prevLines, context, a))
    && (i == |entries| ==> g.oldRangeStart == 0)
  }

  lemma {:induction false} GroupingNext<T>(es: seq<Entry<T>>, context: nat, i: nat, next: nat)
    requires i < |es| && next == i + 1
    ensures Grouping(es, context, next) == GroupStep(Grouping(es, context, i), es, i, context)
  {
  }

  lemma GroupStepIs<T>(g: Group<T>, es: seq<Entry<T>>, i: nat, e: Entry<T>, prevLines: seq<T>, last: bool, context: nat,
                       oldLine: int, newLine: int)
    requires i < |es| && e == es[i] && prevLines == PrevLines(es, i) && last == (i >= |es| - 2)
    requires oldLine == LineAt(es, Added, i) && newLine == LineAt(es, Removed, i)
    ensures NextGroup(g, e, prevLines, last, context, oldLine, newLine) == GroupStep(g, es, i, context)
  {
  }

  /** Entry i. */
  method GroupNext<T>(g: Group<T>, entries: seq<Entry<T>>, i: nat, ghost next: nat, oldLine: int, newLine: int,
                      prevLines: seq<T>, context: nat,
                      ghost a: seq<T>, ghost b: seq<T>)
    returns (g': Group<T>, oldLine': int, newLine': int)
    requires GroupedTo(g, entries, i, oldLine, newLine, prevLines, context, a, b)
    requires i < |entries| && next == i + 1 && Last(entries).kind == Same
    requires a == EntryLines(entries, Added) && b == EntryLines(entries, Removed)
    ensures GroupedTo(g', entries, next, oldLine', newLine', entries[i].lines, context, a, b)
    ensures g' == NextGroup(g, entries[i], prevLines, i >= |entries| - 2, context, oldLine, newLine)
  {
    NextEntry(entries, i, next, a, b);
    g', oldLine', newLine' := GroupEntry(g, entries[i], prevLines, i >= |entries| - 2, context, oldLine, newLine, a, b);
  }

  method GroupAll<T>(entries: seq<Entry<T>>, context: nat, ghost a: seq<T>, ghost b: seq<T>) returns (g: Group<T>)
    requires entries != [] && Last(entries).kind == Same
    requires a == EntryLines(entries, Added) && b == EntryLines(entries, Removed)
    ensures Tracks(g, LineAt(entries, Added, |entries|), LineAt(entries, Removed, |entries|), a, b)
            && g.oldRangeStart == 0
    ensures g == Grouping(entries, context, |entries|)
  {
    g := Group([], 0, 0, []);
    var oldLine, newLine := 1, 1;
    var prevLines: seq<T> := [];
    for i := 0 to |entries|
      invariant GroupedTo(g, entries, i, oldLine, newLine, prevLines, context, a, b)
      invariant prevLines == PrevLines(entries, i) && g == Grouping(entries, context, i)
    {
      GroupingNext(entries, context, i, i + 1);
      GroupStepIs(g, entries, i, entries[i], prevLines, i >= |entries| - 2, context, oldLine, newLine);
      g, oldLine, newLine := GroupNext(g, entries, i, i + 1, oldLine, newLine, prevLines, context, a, b);
      prevLines := entries[i].lines;
    }
  }

  /** The hunks for the entries of a diff, whose last entry is empty, apply to its
      old lines and yield its new ones. */
  method GroupEntries<T>(entries: seq<Entry<T>>, context: nat) returns (hunks: seq<Hunk<T>>)
    requires entries != [] && Last(entries) == Entry(Same, [])
    ensures Yields(EntryLines(entries, Added), Blocks(hunks), EntryLines(entries, Removed))
    ensures hunks == Grouping(entries, context, |entries|).hunks
            && Grouping(entries, context, |entries|).oldRangeStart == 0
  {
    ghost var a, b := EntryLines(entries, Added), EntryLines(entries, Removed);
    var g := GroupAll(entries, context, a, b);
    PosEnd(entries, Added);
    PosEnd(entries, Removed);
    Complete(a, b, Blocks(g.hunks), g.newRangeStart, Side(g.curRange, Added), Side(g.curRange, Removed));
    hunks := g.hunks;
  }
}
