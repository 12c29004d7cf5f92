/** What hunks hold: the changed lines of the diff, and no more unchanged lines around
    them than the context asks for. */
module HunkShape {
  import opened Text
  import opened MyersSearch
  import opened PatchReplay

  // ----- the changed lines --------------------------------------------------

  ghost function ChangedOf<T>(ls: seq<Tagged<T>>): seq<Tagged<T>> {
    if ls == [] then [] else ChangedOf(Init(ls)) + if Last(ls).kind == Same then [] else [Last(ls)]
  }

  /** All added and removed lines of the hunks, in order. */
  ghost function ChangedIn<T>(hs: seq<Hunk<T>>): seq<Tagged<T>> {
    if hs == [] then [] else ChangedIn(Init(hs)) + ChangedOf(Last(hs).lines)
  }

  ghost function EntryChanges<T>(e: Entry<T>): seq<Tagged<T>> {
    if e.kind == Same then [] else Prefixed(e.lines, e.kind)
  }

  /** Those of the first i entries of a diff. */
  ghost function ChangesTo<T>(es: seq<Entry<T>>, i: nat): seq<Tagged<T>>
    requires i <= |es|
  {
    if i == 0 then [] else ChangesTo(es, i - 1) + EntryChanges(es[i - 1])
  }

  lemma {:induction false} ChangedPush<T>(cur: seq<Tagged<T>>, lines: seq<T>, kind: Kind)
    ensures ChangedOf(cur + Prefixed(lines, kind)) == ChangedOf(cur) + EntryChanges(Entry(kind, lines))
    decreases |lines|
  {
    Nil(ChangedOf(cur));
    if lines == [] {
      Nil(cur);
    } else {
      var init, l := Init(lines), Tagged(kind, Last(lines));
      ChangedPush(cur, init, kind);
      Assoc(cur, Prefixed(init, kind), [l]);
      InitPush(cur + Prefixed(init, kind), l);
      Assoc(ChangedOf(cur), Prefixed(init, kind), [l]);
    }
  }

  /** What is in the hunks so far and in the open one. */
  ghost function ChangedSoFar<T>(g: Group<T>): seq<Tagged<T>> {
    ChangedIn(g.hunks) + ChangedOf(g.curRange)
  }

  ghost predicate ClosedEmpty<T>(g: Group<T>) {
    g.oldRangeStart == 0 ==> g.curRange == []
  }

  lemma OpenedChanges<T>(g: Group<T>, prevLines: seq<T>, context: nat, oldLine: int, newLine: int)
    requires g.curRange == []
    ensures ChangedSoFar(OpenedRange(g, prevLines, context, oldLine, newLine)) == ChangedSoFar(g)
  {
    var lines := prevLines[ContextStart(prevLines, context)..];
    ChangedPush([], lines, Same);
    Nil(Prefixed(lines, Same));
  }

  lemma TakenChanges<T>(g: Group<T>, e: Entry<T>)
    ensures ChangedSoFar(WithLines(g, e)) == ChangedSoFar(g) + EntryChanges(e)
  {
    ChangedPush(g.curRange, e.lines, e.kind);
    Assoc(ChangedIn(g.hunks), ChangedOf(g.curRange), EntryChanges(e));
  }

  lemma ClosedChanges<T>(g: Group<T>, lines: seq<T>, context: nat, oldLine: int, newLine: int)
    ensures ChangedSoFar(ClosedRange(g, lines, context, oldLine, newLine)) == ChangedSoFar(g)
  {
    var c := ContextSize(lines, context);
    var h := Last(ClosedRange(g, lines, context, oldLine, newLine).hunks);
    InitPush(g.hunks, h);
    ChangedPush(g.curRange, lines[..c], Same);
    Nil(ChangedOf(g.curRange));
    Nil(ChangedIn(g.hunks) + ChangedOf(g.curRange));
  }

  lemma NextChanges<T>(g: Group<T>, e: Entry<T>, prevLines: seq<T>, last: bool, context: nat, oldLine: int,
                       newLine: int)
    requires ClosedEmpty(g)
    ensures var g' := NextGroup(g, e, prevLines, last, context, oldLine, newLine);
            ChangedSoFar(g') == ChangedSoFar(g) + EntryChanges(e)
  {
    Nil(ChangedSoFar(g));
    if e.kind != Same && g.oldRangeStart == 0 {
      OpenedChanges(g, prevLines, context, oldLine, newLine);
      TakenChanges(OpenedRange(g, prevLines, context, oldLine, newLine), e);
    } else if e.kind != Same || (|e.lines| <= context * 2 && !last) {
      TakenChanges(g, e);
    } else {
      ClosedChanges(g, e.lines, context, oldLine, newLine);
    }
  }

  // ----- places -------------------------------------------------------------

  /** The old line behind the last hunk, and 0 before any. */
  ghost function EndOf<T>(hs: seq<Hunk<T>>): int {
    if hs == [] then 0 else Last(hs).oldStart + Last(hs).oldLines
  }

  /** Between two hunks lies at least one line that is in neither. */
  ghost predicate Separate<T>(hs: seq<Hunk<T>>) {
    hs == [] || (Separate(Init(hs)) && EndOf(Init(hs)) < Last(hs).oldStart)
  }

  ghost predicate PlacesOk<T>(g: Group<T>, prevLines: seq<T>, more: bool, context: nat, oldLine: int) {
    && ClosedEmpty(g) && Separate(g.hunks) && 0 <= EndOf(g.hunks) && oldLine >= 1
    && (g.oldRangeStart == 0 && more ==> EndOf(g.hunks) + ContextSize(prevLines, context) < oldLine)
    && (g.oldRangeStart != 0 ==> EndOf(g.hunks) < g.oldRangeStart <= oldLine)
  }

  lemma {:induction false} SeparatePush<T>(hs: seq<Hunk<T>>, h: Hunk<T>)
    requires Separate(hs) && EndOf(hs) < h.oldStart
    ensures Separate(hs + [h]) && EndOf(hs + [h]) == h.oldStart + h.oldLines
  {
    InitPush(hs, h);
  }

  lemma ClosedPlaces<T>(g: Group<T>, lines: seq<T>, more: bool, context: nat, oldLine: int, newLine: int, oldLine': int)
    requires Separate(g.hunks) && 0 <= EndOf(g.hunks) < g.oldRangeStart <= oldLine && oldLine' == oldLine + |lines|
    requires more ==> |lines| > context * 2
    ensures PlacesOk(ClosedRange(g, lines, context, oldLine, newLine), lines, more, context, oldLine')
  {
    SeparatePush(g.hunks, Last(ClosedRange(g, lines, context, oldLine, newLine).hunks));
  }

  lemma NextPlaces<T>(g: Group<T>, e: Entry<T>, prevLines: seq<T>, last: bool, context: nat, oldLine: int,
                      newLine: int, oldLine': int)
    requires PlacesOk(g, prevLines, !last || e.kind != Same, context, oldLine)
             && oldLine' == oldLine + |EntryBut(e, Added)|
    ensures PlacesOk(NextGroup(g, e, prevLines, last, context, oldLine, newLine), e.lines, !last, context, oldLine')
  {
    if e.kind == Same && g.oldRangeStart != 0 && !(|e.lines| <= context * 2 && !last) {
      ClosedPlaces(g, e.lines, !last, context, oldLine, newLine, oldLine');
    }
  }

  // ----- context ------------------------------------------------------------

  /** The unchanged lines at the end. */
  ghost function TrailingSame<T>(ls: seq<Tagged<T>>): (n: nat)
    ensures n <= |ls|
  {
    if ls == [] || Last(ls).kind != Same then 0 else TrailingSame(Init(ls)) + 1
  }

  /** At most c unchanged lines in front, and at most 2c in a row behind a change. */
  ghost predicate Compact<T>(ls: seq<Tagged<T>>, c: nat) {
    ls == [] || (Compact(Init(ls), c) && TrailingSame(ls) <= if TrailingSame(ls) == |ls| then c else 2 * c)
  }

  /** A hunk has a change, and at most c unchanged lines at either end. */
  ghost predicate Trimmed<T>(ls: seq<Tagged<T>>, c: nat) {
    Compact(ls, c) && TrailingSame(ls) <= c && TrailingSame(ls) < |ls|
  }

  ghost predicate AllTrimmed<T>(hs: seq<Hunk<T>>, c: nat) {
    hs == [] || (AllTrimmed(Init(hs), c) && Trimmed(Last(hs).lines, c))
  }

  lemma {:induction false} CompactContext<T>(lines: seq<T>, c: nat)
    requires |lines| <= c
    ensures Compact(Prefixed(lines, Same), c) && TrailingSame(Prefixed(lines, Same)) == |lines|
  {
    if lines != [] {
      CompactContext(Init(lines), c);
      InitPush(Prefixed(Init(lines), Same), Tagged(Same, Last(lines)));
    }
  }

  lemma {:induction false} CompactSame<T>(cur: seq<Tagged<T>>, lines: seq<T>, c: nat)
    requires Compact(cur, c) && cur != [] && TrailingSame(cur) == 0 && |lines| <= 2 * c
    ensures var r := cur + Prefixed(lines, Same); Compact(r, c) && TrailingSame(r) == |lines| < |r|
    decreases |lines|
  {
    if lines == [] {
      Nil(cur);
    } else {
      var init, l := Init(lines), Tagged(Same, Last(lines));
      CompactSame(cur, init, c);
      Assoc(cur, Prefixed(init, Same), [l]);
      InitPush(cur + Prefixed(init, Same), l);
    }
  }

  lemma {:induction false} CompactChanged<T>(cur: seq<Tagged<T>>, lines: seq<T>, kind: Kind, c: nat)
    requires Compact(cur, c) && kind != Same && lines != []
    ensures var r := cur + Prefixed(lines, kind); Compact(r, c) && TrailingSame(r) == 0 < |r|
    decreases |lines|
  {
    var init, l := Init(lines), Tagged(kind, Last(lines));
    Assoc(cur, Prefixed(init, kind), [l]);
    InitPush(cur + Prefixed(init, kind), l);
    if init == [] {
      Nil(cur);
    } else {
      CompactChanged(cur, init, kind, c);
    }
  }

  /** No changed run is empty, and no two unchanged runs meet but for the empty one at
      the end. */
  ghost predicate Alternates<T>(es: seq<Entry<T>>) {
    && (forall i :: 0 <= i < |es| ==> es[i].kind != Same ==> es[i].lines != [])
    && (forall i :: 0 < i < |es| - 1 ==> es[i - 1].kind == Same ==> es[i].kind != Same)
  }

  /** The open hunk may still take unchanged lines; `changed` tells that it ends in a
      change. */
  ghost predicate TrimOk<T>(g: Group<T>, changed: bool, context: nat) {
    && AllTrimmed(g.hunks, context)
    && (g.oldRangeStart != 0 ==>
          Compact(g.curRange, context) && g.curRange != [] && (changed ==> TrailingSame(g.curRange) == 0))
  }

  lemma NextTrim<T>(g: Group<T>, e: Entry<T>, changed: bool, prevLines: seq<T>, last: bool, context: nat,
                    oldLine: int, newLine: int)
    requires TrimOk(g, changed, context)
    requires e.kind != Same ==> e.lines != []
    requires e.kind == Same && g.oldRangeStart != 0 ==> changed
    ensures TrimOk(NextGroup(g, e, prevLines, last, context, oldLine, newLine), e.kind != Same, context)
  {
    if e.kind != Same {
      if g.oldRangeStart == 0 {
        var ctx := prevLines[ContextStart(prevLines, context)..];
        CompactContext(ctx, context);
        CompactChanged(Prefixed(ctx, Same), e.lines, e.kind, context);
      } else {
        CompactChanged(g.curRange, e.lines, e.kind, context);
      }
    } else if g.oldRangeStart != 0 {
      if |e.lines| <= context * 2 && !last {
        CompactSame(g.curRange, e.lines, context);
      } else {
        var c := ContextSize(e.lines, context);
        CompactSame(g.curRange, e.lines[..c], context);
        InitPush(g.hunks, Last(ClosedRange(g, e.lines, context, oldLine, newLine).hunks));
      }
    }
  }

  lemma StepChanges<T>(g: Group<T>, es: seq<Entry<T>>, i: nat, context: nat)
    requires i < |es| && ClosedEmpty(g)
    ensures ChangedSoFar(GroupStep(g, es, i, context)) == ChangedSoFar(g) + EntryChanges(es[i])
  {
    NextChanges(g, es[i], PrevLines(es, i), i >= |es| - 2, context, LineAt(es, Added, i), LineAt(es, Removed, i));
  }

  // ----- which lines a hunk holds -------------------------------------------

  ghost predicate AllOf<T>(lines: seq<T>, ok: T -> bool) {
    forall i :: 0 <= i < |lines| ==> ok(lines[i])
  }

  ghost predicate HoldsOnly<T>(ls: seq<Tagged<T>>, ok: T -> bool) {
    forall i :: 0 <= i < |ls| ==> ok(ls[i].line)
  }

  ghost predicate AllHoldOnly<T>(hs: seq<Hunk<T>>, ok: T -> bool) {
    forall i :: 0 <= i < |hs| ==> HoldsOnly(hs[i].lines, ok)
  }

  ghost predicate EntriesHold<T>(es: seq<Entry<T>>, ok: T -> bool) {
    forall i :: 0 <= i < |es| ==> AllOf(es[i].lines, ok)
  }

  ghost predicate GroupHolds<T>(g: Group<T>, ok: T -> bool) {
    AllHoldOnly(g.hunks, ok) && HoldsOnly(g.curRange, ok)
  }

  lemma {:induction false} PrefixedHolds<T>(cur: seq<Tagged<T>>, lines: seq<T>, kind: Kind, ok: T -> bool)
    requires HoldsOnly(cur, ok) && AllOf(lines, ok)
    ensures HoldsOnly(cur + Prefixed(lines, kind), ok)
    decreases |lines|
  {
    if lines != [] {
      PrefixedHolds(cur, Init(lines), kind, ok);
      Assoc(cur, Prefixed(Init(lines), kind), [Tagged(kind, Last(lines))]);
    } else {
      Nil(cur);
    }
  }

  lemma NextHolds<T>(g: Group<T>, e: Entry<T>, prevLines: seq<T>, last: bool, context: nat, oldLine: int,
                     newLine: int, ok: T -> bool)
    requires GroupHolds(g, ok) && AllOf(e.lines, ok) && AllOf(prevLines, ok)
    ensures GroupHolds(NextGroup(g, e, prevLines, last, context, oldLine, newLine), ok)
  {
    if e.kind != Same {
      var ctx := prevLines[ContextStart(prevLines, context)..];
      PrefixedHolds([], ctx, Same, ok);
      Nil(Prefixed(ctx, Same));
      PrefixedHolds(Prefixed(ctx, Same), e.lines, e.kind, ok);
      PrefixedHolds(g.curRange, e.lines, e.kind, ok);
    } else if g.oldRangeStart != 0 {
      PrefixedHolds(g.curRange, e.lines, e.kind, ok);
      PrefixedHolds(g.curRange, e.lines[..ContextSize(e.lines, context)], Same, ok);
    }
  }

  // ----- removed before added -----------------------------------------------

  /** No added line is directly followed by a removed one. */
  ghost predicate RemovedLead<T>(ls: seq<Tagged<T>>) {
    forall i :: 0 < i < |ls| ==> !(ls[i - 1].kind == Added && ls[i].kind == Removed)
  }

  ghost predicate AllRemovedLead<T>(hs: seq<Hunk<T>>) {
    forall i :: 0 <= i < |hs| ==> RemovedLead(hs[i].lines)
  }

  /** Nor an added run by a removed one; no run is empty but for the last. */
  ghost predicate EntriesLead<T>(es: seq<Entry<T>>) {
    && (forall i :: 0 < i < |es| ==> !(es[i - 1].kind == Added && es[i].kind == Removed))
    && (forall i :: 0 <= i < |es| - 1 ==> es[i].lines != [])
  }

  ghost predicate EndsAdded<T>(ls: seq<Tagged<T>>) {
    ls != [] && Last(ls).kind == Added
  }

  /** The open hunk ends in an added line only behind an added run. */
  ghost predicate OrderOk<T>(g: Group<T>, added: bool) {
    AllRemovedLead(g.hunks) && (g.oldRangeStart != 0 ==> RemovedLead(g.curRange) && (EndsAdded(g.curRange) ==> added))
  }

  lemma {:induction false} LeadPrefixed<T>(cur: seq<Tagged<T>>, lines: seq<T>, kind: Kind)
    requires RemovedLead(cur) && (EndsAdded(cur) ==> kind != Removed)
    ensures var r := cur + Prefixed(lines, kind);
            RemovedLead(r) && (EndsAdded(r) ==> if lines == [] then EndsAdded(cur) else kind == Added)
    decreases |lines|
  {
    if lines == [] {
      Nil(cur);
    } else {
      var init, l := Init(lines), Tagged(kind, Last(lines));
      LeadPrefixed(cur, init, kind);
      Assoc(cur, Prefixed(init, kind), [l]);
      InitPush(cur + Prefixed(init, kind), l);
    }
  }

  lemma NextOrder<T>(g: Group<T>, e: Entry<T>, added: bool, prevLines: seq<T>, last: bool, context: nat, oldLine: int,
                     newLine: int)
    requires OrderOk(g, added) && (added ==> e.kind != Removed) && (e.lines == [] ==> e.kind == Same && last)
    ensures OrderOk(NextGroup(g, e, prevLines, last, context, oldLine, newLine), e.kind == Added)
  {
    if e.kind != Same {
      var ctx := prevLines[ContextStart(prevLines, context)..];
      LeadPrefixed([], ctx, Same);
      Nil(Prefixed(ctx, Same));
      LeadPrefixed(if g.oldRangeStart == 0 then Prefixed(ctx, Same) else g.curRange, e.lines, e.kind);
    } else if g.oldRangeStart != 0 {
      LeadPrefixed(g.curRange, e.lines, Same);
      LeadPrefixed(g.curRange, e.lines[..ContextSize(e.lines, context)], Same);
    }
  }

  // ----- all hunks ----------------------------------------------------------

  lemma {:induction false} GroupingClosed<T>(es: seq<Entry<T>>, context: nat, i: nat)
    requires i <= |es| && (es != [] ==> Last(es).kind == Same)
    ensures ClosedEmpty(Grouping(es, context, i))
  {
    GroupingPlaces(es, context, i, LineAt(es, Added, i));
  }

  lemma {:induction false} ChangesOn<T>(es: seq<Entry<T>>, context: nat, j: nat, i: nat, g: Group<T>, g': Group<T>)
    requires j < |es| && i == j + 1 && ClosedEmpty(g) && g' == GroupStep(g, es, j, context)
    requires ChangedSoFar(g) == ChangesTo(es, j)
    ensures ChangedSoFar(g') == ChangesTo(es, i)
  {
    StepChanges(g, es, j, context);
  }

  lemma {:induction false} GroupingPlaces<T>(es: seq<Entry<T>>, context: nat, i: nat, oldLine: int)
    requires i <= |es| && (es != [] ==> Last(es).kind == Same) && oldLine == LineAt(es, Added, i)
    ensures PlacesOk(Grouping(es, context, i), PrevLines(es, i), i + 1 < |es|, context, oldLine)
  {
    if i > 0 {
      var before := LineAt(es, Added, i - 1);
      GroupingPlaces(es, context, i - 1, before);
      NextPlaces(Grouping(es, context, i - 1), es[i - 1], PrevLines(es, i - 1), i - 1 >= |es| - 2, context,
                 before, LineAt(es, Removed, i - 1), oldLine);
    }
  }

  lemma {:induction false} GroupingChangesOn<T>(es: seq<Entry<T>>, context: nat, j: nat, i: nat)
    requires j < |es| && i == j + 1 && Last(es).kind == Same
    requires ChangedSoFar(Grouping(es, context, j)) == ChangesTo(es, j)
    ensures ChangedSoFar(Grouping(es, context, i)) == ChangesTo(es, i)
  {
    GroupingClosed(es, context, j);
    ChangesOn(es, context, j, i, Grouping(es, context, j), Grouping(es, context, i));
  }

  lemma {:induction false} GroupingChanges<T>(es: seq<Entry<T>>, context: nat, i: nat)
    requires i <= |es| && (es != [] ==> Last(es).kind == Same)
    ensures ChangedSoFar(Grouping(es, context, i)) == ChangesTo(es, i)
  {
    if i > 0 {
      var j := i - 1;
      GroupingChanges(es, context, j);
      GroupingChangesOn(es, context, j, i);
    }
  }

  lemma {:induction false} GroupingTrim<T>(es: seq<Entry<T>>, context: nat, i: nat)
    requires i <= |es| && Alternates(es) && es != [] && Last(es).kind == Same
    ensures TrimOk(Grouping(es, context, i), i > 0 && es[i - 1].kind != Same, context)
    ensures Grouping(es, context, i).oldRangeStart != 0 ==> i > 0 && (es[i - 1].kind != Same || i - 1 < |es| - 2)
  {
    if i > 0 {
      GroupingTrim(es, context, i - 1);
      NextTrim(Grouping(es, context, i - 1), es[i - 1], i - 1 > 0
               && es[i - 2].kind != Same, PrevLines(es, i - 1), i - 1 >= |es| - 2,
               context, LineAt(es, Added, i - 1), LineAt(es, Removed, i - 1));
    }
  }

  lemma {:induction false} GroupingHolds<T>(es: seq<Entry<T>>, context: nat, i: nat, ok: T -> bool)
    requires i <= |es| && EntriesHold(es, ok)
    ensures GroupHolds(Grouping(es, context, i), ok)
  {
    if i > 0 {
      GroupingHolds(es, context, i - 1, ok);
      assert AllOf(es[i - 1].lines, ok) && AllOf(PrevLines(es, i - 1), ok);
      NextHolds(Grouping(es, context, i - 1), es[i - 1], PrevLines(es, i - 1), i - 1 >= |es| - 2, context,
                LineAt(es, Added, i - 1), LineAt(es, Removed, i - 1), ok);
    }
  }

  lemma {:induction false} GroupingOrder<T>(es: seq<Entry<T>>, context: nat, i: nat)
    requires i <= |es| && EntriesLead(es) && es != [] && Last(es).kind == Same
    ensures OrderOk(Grouping(es, context, i), i > 0 && es[i - 1].kind == Added)
  {
    if i > 0 {
      var j := i - 1;
      GroupingOrder(es, context, j);
      NextOrder(Grouping(es, context, j), es[j], j > 0 && es[j - 1].kind == Added, PrevLines(es, j), j >= |es| - 2,
                context, LineAt(es, Added, j), LineAt(es, Removed, j));
    }
  }

  /** The hunks of any diff hold exactly its changed lines, and lie apart. */
  lemma {:induction false} HunksChange<T>(es: seq<Entry<T>>, context: nat, hunks: seq<Hunk<T>>)
    requires es != [] && Last(es).kind == Same && Grouping(es, context, |es|).oldRangeStart == 0
    requires hunks == Grouping(es, context, |es|).hunks
    ensures ChangedIn(hunks) == ChangesTo(es, |es|) && Separate(hunks)
  {
    GroupingChanges(es, context, |es|);
    GroupingPlaces(es, context, |es|, LineAt(es, Added, |es|));
    Nil(ChangedIn(hunks));
  }

  /** Those of a diff whose runs alternate have no more context than asked for. */
  lemma {:induction false} HunksTrimmed<T>(es: seq<Entry<T>>, context: nat, hunks: seq<Hunk<T>>)
    requires es != [] && Last(es).kind == Same && Alternates(es)
    requires hunks == Grouping(es, context, |es|).hunks
    ensures AllTrimmed(hunks, context)
  {
    GroupingTrim(es, context, |es|);
  }
}
