/** Hunks hold all the context asked for: less of it only where a file begins or ends. */
module HunkContext {
  import opened Text
  import opened MyersSearch
  import opened PatchReplay
  import opened HunkShape

  /** The unchanged lines in front. */
  ghost function LeadingSame<T>(ls: seq<Tagged<T>>): (n: nat)
    ensures n <= |ls|
  {
    if ls == [] then 0
    else
      var n := LeadingSame(Init(ls));
      if n == |ls| - 1 && Last(ls).kind == Same then |ls| else n
  }

  /** Behind the last line of either file. */
  datatype Ends = Ends(oldEnd: int, newEnd: int)

  /** `context` unchanged lines in front, unless the hunk begins with both files, and as many
      at the end, unless it ends with both. */
  ghost predicate Surrounded<T>(h: Hunk<T>, context: nat, ends: Ends) {
    && (LeadingSame(h.lines) == context || (h.oldStart == 1 && h.newStart == 1))
    && (TrailingSame(h.lines) == context
        || (h.oldStart + h.oldLines == ends.oldEnd && h.newStart + h.newLines == ends.newEnd))
  }

  ghost predicate AllSurrounded<T>(hs: seq<Hunk<T>>, context: nat, ends: Ends) {
    hs == [] || (AllSurrounded(Init(hs), context, ends) && Surrounded(Last(hs), context, ends))
  }

  /** The open hunk begins with all the context there is. */
  ghost predicate OpensFull<T>(g: Group<T>, context: nat) {
    && LeadingSame(g.curRange) < |g.curRange|
    && (LeadingSame(g.curRange) == context || (g.oldRangeStart == 1 && g.newRangeStart == 1))
  }

  /** The run before the line is as long as the context, or begins with both files. */
  ghost predicate Behind<T>(prevLines: seq<T>, context: nat, oldLine: int, newLine: int) {
    |prevLines| < oldLine && (|prevLines| >= context || (oldLine - |prevLines| == 1 && newLine - |prevLines| == 1))
  }

  ghost predicate FullSoFar<T>(g: Group<T>, prevLines: seq<T>, more: bool, context: nat, oldLine: int, newLine: int,
                               ends: Ends) {
    && AllSurrounded(g.hunks, context, ends)
    && if g.oldRangeStart != 0 then OpensFull(g, context) else more ==> Behind(prevLines, context, oldLine, newLine)
  }

  lemma {:induction false} LeadingAll<T>(lines: seq<T>)
    ensures LeadingSame(Prefixed(lines, Same)) == |lines|
  {
    if lines != [] {
      LeadingAll(Init(lines));
      InitPush(Prefixed(Init(lines), Same), Tagged(Same, Last(lines)));
    }
  }

  /** Behind a change, more lines do not matter. */
  lemma {:induction false} LeadingKept<T>(cur: seq<Tagged<T>>, lines: seq<T>, kind: Kind)
    requires LeadingSame(cur) < |cur| || (kind != Same && lines != [])
    ensures var r := cur + Prefixed(lines, kind); LeadingSame(r) == LeadingSame(cur) < |r|
    decreases |lines|
  {
    if lines == [] {
      Nil(cur);
    } else {
      var init, l := Init(lines), Tagged(kind, Last(lines));
      if LeadingSame(cur) < |cur| || init != [] {
        LeadingKept(cur, init, kind);
      } else {
        Nil(cur);
      }
      Assoc(cur, Prefixed(init, kind), [l]);
      InitPush(cur + Prefixed(init, kind), l);
    }
  }

  lemma OpenedFull<T>(g: Group<T>, e: Entry<T>, prevLines: seq<T>, context: nat, oldLine: int, newLine: int)
    requires Behind(prevLines, context, oldLine, newLine) && e.kind != Same && e.lines != []
    ensures OpensFull(WithLines(OpenedRange(g, prevLines, context, oldLine, newLine), e), context)
  {
    var ctx := prevLines[ContextStart(prevLines, context)..];
    LeadingAll(ctx);
    LeadingKept(Prefixed(ctx, Same), e.lines, e.kind);
  }

  lemma {:induction false} ClosedFull<T>(g: Group<T>, lines: seq<T>, last: bool, context: nat, oldLine: int,
                                         newLine: int, ends: Ends)
    requires AllSurrounded(g.hunks, context, ends) && OpensFull(g, context)
    requires Compact(g.curRange, context) && g.curRange != [] && TrailingSame(g.curRange) == 0
    requires if last then oldLine + |lines| == ends.oldEnd && newLine + |lines| == ends.newEnd
             else |lines| > context * 2
    ensures AllSurrounded(ClosedRange(g, lines, context, oldLine, newLine).hunks, context, ends)
  {
    var c := ContextSize(lines, context);
    var h := Last(ClosedRange(g, lines, context, oldLine, newLine).hunks);
    ClosedLines(g.curRange, lines[..c], context, h.lines);
    ClosedHunk(g, |lines|, c, last, context, oldLine, newLine, ends, h);
    InitPush(g.hunks, h);
  }

  lemma {:induction false} ClosedLines<T>(cur: seq<Tagged<T>>, lines: seq<T>, context: nat, all: seq<Tagged<T>>)
    requires LeadingSame(cur) < |cur| && Compact(cur, context) && TrailingSame(cur) == 0 && |lines| <= context
    requires all == cur + Prefixed(lines, Same)
    ensures LeadingSame(all) == LeadingSame(cur) && TrailingSame(all) == |lines|
  {
    LeadingKept(cur, lines, Same);
    CompactSame(cur, lines, context);
  }

  lemma ClosedHunk<T>(g: Group<T>, n: nat, c: nat, last: bool, context: nat, oldLine: int, newLine: int, ends: Ends,
                      h: Hunk<T>)
    requires OpensFull(g, context) && c == (if context < n then context else n)
    requires if last then oldLine + n == ends.oldEnd && newLine + n == ends.newEnd else n > context * 2
    requires h.oldStart == g.oldRangeStart && h.newStart == g.newRangeStart
    requires h.oldLines == oldLine - h.oldStart + c && h.newLines == newLine - h.newStart + c
    requires LeadingSame(h.lines) == LeadingSame(g.curRange) && TrailingSame(h.lines) == c
    ensures Surrounded(h, context, ends)
  {
  }

  lemma NextFull<T>(g: Group<T>, e: Entry<T>, changed: bool, prevLines: seq<T>, more: bool, last: bool, context: nat,
                    oldLine: int, newLine: int, oldLine': int, newLine': int, ends: Ends)
    requires FullSoFar(g, prevLines, more, context, oldLine, newLine, ends) && TrimOk(g, changed, context)
    requires oldLine >= 1 && (e.kind != Same ==> e.lines != [] && more)
    requires e.kind == Same ==> if g.oldRangeStart != 0 then changed else last || (oldLine == 1 && newLine == 1)
    requires e.kind == Same ==> oldLine' == oldLine + |e.lines| && newLine' == newLine + |e.lines|
    requires e.kind == Same && last ==> oldLine' == ends.oldEnd && newLine' == ends.newEnd
    ensures FullSoFar(NextGroup(g, e, prevLines, last, context, oldLine, newLine), e.lines, !last, context, oldLine',
                      newLine', ends)
    ensures e.kind != Same ==> NextGroup(g, e, prevLines, last, context, oldLine, newLine).oldRangeStart != 0
  {
    if e.kind != Same {
      if g.oldRangeStart == 0 {
        OpenedFull(g, e, prevLines, context, oldLine, newLine);
      } else {
        LeadingKept(g.curRange, e.lines, e.kind);
      }
    } else if g.oldRangeStart != 0 {
      if |e.lines| <= context * 2 && !last {
        LeadingKept(g.curRange, e.lines, Same);
      } else {
        ClosedFull(g, e.lines, last, context, oldLine, newLine, ends);
      }
    }
  }

  lemma {:induction false} LinesPass<T>(es: seq<Entry<T>>, j: nat, i: nat)
    requires j < |es| && i == j + 1
    ensures LineAt(es, Added, j) >= 1
    ensures es[j].kind == Same ==> LineAt(es, Added, i) == LineAt(es, Added, j) + |es[j].lines|
                                   && LineAt(es, Removed, i) == LineAt(es, Removed, j) + |es[j].lines|
  {
    PosNext(es, Added, j, i);
    PosNext(es, Removed, j, i);
  }

  lemma {:induction false} LastLines<T>(es: seq<Entry<T>>, j: nat, i: nat, skip: Kind)
    requires j < |es| && i == j + 1 && j >= |es| - 2 && Last(es) == Entry(Same, [])
    ensures LineAt(es, skip, i) == LineAt(es, skip, |es|)
  {
    if i < |es| {
      PosNext(es, skip, i, |es|);
    }
  }

  lemma {:induction false} GroupingFullOn<T>(es: seq<Entry<T>>, context: nat, j: nat, i: nat, ends: Ends, g: Group<T>,
                                             changed: bool, more: bool, last: bool)
    requires j < |es| && i == j + 1 && Alternates(es) && Last(es) == Entry(Same, []) && g == Grouping(es, context, j)
    requires ends == Ends(LineAt(es, Added, |es|), LineAt(es, Removed, |es|))
    requires FullSoFar(g, PrevLines(es, j), more, context, LineAt(es, Added, j), LineAt(es, Removed, j), ends)
    requires TrimOk(g, changed, context) && (changed <==> j > 0 && es[j - 1].kind != Same)
    requires (changed ==> g.oldRangeStart != 0) && (g.oldRangeStart != 0 ==> changed || j - 1 < |es| - 2)
    requires (g.oldRangeStart != 0 ==> j > 0) && (more <==> j < |es| - 1) && (last <==> j >= |es| - 2)
    ensures FullSoFar(Grouping(es, context, i), PrevLines(es, i), i < |es| - 1, context, LineAt(es, Added, i),
                      LineAt(es, Removed, i), ends)
    ensures es[j].kind != Same ==> Grouping(es, context, i).oldRangeStart != 0
  {
    LinesPass(es, j, i);
    if last {
      LastLines(es, j, i, Added);
      LastLines(es, j, i, Removed);
    }
    NextFull(g, es[j], changed, PrevLines(es, j), more, last, context, LineAt(es, Added, j), LineAt(es, Removed, j),
             LineAt(es, Added, i), LineAt(es, Removed, i), ends);
  }

  lemma {:induction false} GroupingFull<T>(es: seq<Entry<T>>, context: nat, i: nat, ends: Ends)
    requires i <= |es| && Alternates(es) && es != [] && Last(es) == Entry(Same, [])
    requires ends == Ends(LineAt(es, Added, |es|), LineAt(es, Removed, |es|))
    ensures FullSoFar(Grouping(es, context, i), PrevLines(es, i), i < |es| - 1, context, LineAt(es, Added, i),
                      LineAt(es, Removed, i), ends)
    ensures i > 0 && es[i - 1].kind != Same ==> Grouping(es, context, i).oldRangeStart != 0
  {
    if i > 0 {
      var j := i - 1;
      GroupingFull(es, context, j, ends);
      GroupingTrim(es, context, j);
      GroupingFullOn(es, context, j, i, ends, Grouping(es, context, j), j > 0 && es[j - 1].kind != Same,
                     j < |es| - 1, j >= |es| - 2);
    }
  }

  /** The hunks of a diff whose runs alternate have all the context asked for. */
  lemma {:induction false} HunksFull<T>(es: seq<Entry<T>>, context: nat, hunks: seq<Hunk<T>>, ends: Ends)
    requires Alternates(es) && es != [] && Last(es) == Entry(Same, [])
    requires ends == Ends(|EntryLines(es, Added)| + 1, |EntryLines(es, Removed)| + 1)
    requires hunks == Grouping(es, context, |es|).hunks
    ensures AllSurrounded(hunks, context, ends)
  {
    PosEnd(es, Added);
    PosEnd(es, Removed);
    GroupingFull(es, context, |es|, ends);
  }
}
