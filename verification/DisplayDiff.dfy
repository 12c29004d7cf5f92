/** The line-numbered diff shown to people: which rows it has, and that the rows
    with their numbers still tell the whole change. */
module DisplayDiff {
  import opened Text
  import opened EditDistance
  import opened MyersSearch
  import opened LineDiff
  import opened Numbers
  import opened PatchReplay

  const CONTEXT_LINES: nat := 4

  /** "+num line", "-num line", " num line" (by kind) or " ...". */
  datatype Row<T> = Row(kind: Kind, num: int, line: T) | Gap

  // ----- which rows are shown -----------------------------------------------

  /** A run of a diff that follows x old and y new lines. If it is unchanged, its
      lines from h to m are hidden, behind a gap if there is one. */
  datatype Run<T> = Run(kind: Kind, lines: seq<T>, x: nat, y: nat, h: int, m: int, gap: bool)

  predicate Changed<T>(es: seq<Entry<T>>, i: int) {
    0 <= i < |es| && es[i].kind != Same
  }

  /** Of an unchanged run, the lines next to a change are shown, and the rest
      leaves a gap there. */
  ghost function Window<T>(kind: Kind, lines: seq<T>, x: nat, y: nat, afterChange: bool, beforeChange: bool): Run<T> {
    var n := |lines|;
    var h := if afterChange then Min(CONTEXT_LINES, n) else 0;
    var t := if beforeChange then Min(CONTEXT_LINES, n - h) else 0;
    Run(kind, lines, x, y, h, n - t, afterChange || beforeChange)
  }

  ghost function RunOf<T>(es: seq<Entry<T>>, i: nat): Run<T>
    requires i < |es|
  {
    Window(es[i].kind, es[i].lines, Pos(es, Added, i), Pos(es, Removed, i), Changed(es, i - 1), Changed(es, i + 1))
  }

  /** What line k of a run shows: a changed line is numbered in its own file, an
      unchanged one in the old file. */
  ghost function LineRows<T>(q: Run<T>, k: nat): seq<Row<T>>
    requires k < |q.lines|
  {
    match q.kind
    case Added => [Row(Added, q.y + k + 1, q.lines[k])]
    case Removed => [Row(Removed, q.x + k + 1, q.lines[k])]
    case Same =>
      if !(q.h <= k < q.m) then [Row(Same, q.x + k + 1, q.lines[k])]
      else if k == q.h && q.gap then [Gap] else []
  }

  ghost function RunRows<T>(q: Run<T>, k: nat): seq<Row<T>>
    requires k <= |q.lines|
  {
    if k == 0 then [] else RunRows(q, k - 1) + LineRows(q, k - 1)
  }

  ghost function DiffRows<T>(es: seq<Entry<T>>, i: nat): seq<Row<T>>
    requires i <= |es|
  {
    if i == 0 then [] else DiffRows(es, i - 1) + RunRows(RunOf(es, i - 1), |es[i - 1].lines|)
  }

  /** A line of an unchanged run is shown exactly if it is one of the four behind a change,
      or of the four before one; the first of the others leaves a gap if a change is next to
      the run. */
  lemma {:induction false} ShownNearChange<T>(es: seq<Entry<T>>, i: nat, k: nat)
    requires i < |es| && es[i].kind == Same && k < |es[i].lines|
    ensures var rows, near := LineRows(RunOf(es, i), k),
                              (Changed(es, i - 1) && k < 4) || (Changed(es, i + 1) && k >= |es[i].lines| - 4);
            if near then rows == [Row(Same, Pos(es, Added, i) + k + 1, es[i].lines[k])]
            else rows == if (Changed(es, i - 1) && k == 4) || (!Changed(es, i - 1) && Changed(es, i + 1) && k == 0)
                         then [Gap] else []
  {
  }

  // ----- what the rows say --------------------------------------------------

  /** Follows one row: the lines up to its number are carried over, and then the
      line is dropped, added or kept. Rejected if the number goes back or the old
      file has another line there. */
  ghost function Follow<T>(a: seq<T>, r: Applied<T>, row: Row<T>): Applied<T> {
    if r.Rejected? || row.Gap? then r
    else if row.kind == Added then
      var k := row.num - 1 - |r.out|;
      if 0 <= k && r.next + k <= |a| then Done(r.next + k, r.out + Span(a, r.next, r.next + k) + [row.line])
        else Rejected
    else
      var k := row.num - 1;
      if r.next <= k < |a| && a[k] == row.line then
        Done(row.num, r.out + Span(a, r.next, if row.kind == Same then k + 1 else k))
      else Rejected
  }

  ghost function FollowAll<T>(a: seq<T>, r: Applied<T>, rows: seq<Row<T>>): Applied<T> {
    if rows == [] then r else Follow(a, FollowAll(a, r, Init(rows)), Last(rows))
  }

  /** Following all rows through the old lines, and keeping what is left, gives
      the new lines. */
  ghost predicate Tells<T>(a: seq<T>, rows: seq<Row<T>>, b: seq<T>) {
    var r := FollowAll(a, Done(0, []), rows);
    r.Done? && r.next <= |a| && r.out + Span(a, r.next, |a|) == b
  }

  lemma {:induction false} FollowAppend<T>(a: seq<T>, r: Applied<T>, u: seq<Row<T>>, v: seq<Row<T>>)
    ensures FollowAll(a, r, u + v) == FollowAll(a, FollowAll(a, r, u), v)
  {
    if v == [] {
      Nil(u);
    } else {
      InitAppend(u, v);
      FollowAppend(a, r, u, Init(v));
    }
  }

  lemma {:induction false} FollowOne<T>(a: seq<T>, r: Applied<T>, row: Row<T>)
    ensures FollowAll(a, r, [row]) == Follow(a, r, row)
  {
    assert Init([row]) == [] && Last([row]) == row;
  }

  /** r accounts for x old and y new lines. */
  ghost predicate Told<T>(a: seq<T>, b: seq<T>, r: Applied<T>, x: int, y: int) {
    r.Done? && x >= 0 && y >= 0 && Closed(a, b, r.next, r.out, x, y)
  }

  lemma FollowAdded<T>(a: seq<T>, b: seq<T>, r: Applied<T>, x: nat, y: nat, line: T)
    requires Told(a, b, r, x, y) && y < |b| && line == b[y]
    ensures Told(a, b, Follow(a, r, Row(Added, y + 1, line)), x, y + 1)
  {
    assert |r.out + Span(a, r.next, x)| == y;
    Nil(Span(b, 0, y + 1));
  }

  lemma FollowRemoved<T>(a: seq<T>, b: seq<T>, r: Applied<T>, x: nat, y: nat, line: T)
    requires Told(a, b, r, x, y) && x < |a| && line == a[x]
    ensures Told(a, b, Follow(a, r, Row(Removed, x + 1, line)), x + 1, y)
  {
    Nil(Span(b, 0, y));
  }

  lemma FollowSame<T>(a: seq<T>, b: seq<T>, r: Applied<T>, x: nat, y: nat, line: T)
    requires Told(a, b, r, x, y) && x < |a| && y < |b| && line == a[x] == b[y]
    ensures Told(a, b, Follow(a, r, Row(Same, x + 1, line)), x + 1, y + 1)
    ensures Told(a, b, r, x + 1, y + 1)
  {
    Assoc(r.out, Span(a, r.next, x), [a[x]]);
    Nil(Span(b, 0, y + 1));
  }

  /** Line k of the run stands at its place in the old and in the new file. */
  predicate Placed<T(==)>(a: seq<T>, b: seq<T>, q: Run<T>, k: int) {
    && 0 <= k < |q.lines|
    && (q.kind != Added ==> q.x + k < |a| && a[q.x + k] == q.lines[k])
    && (q.kind != Removed ==> q.y + k < |b| && b[q.y + k] == q.lines[k])
  }

  function OldAt<T>(q: Run<T>, k: nat): nat { if q.kind == Added then q.x else q.x + k }
  function NewAt<T>(q: Run<T>, k: nat): nat { if q.kind == Removed then q.y else q.y + k }

  /** The rows of one line, if any, account for that line ... */
  lemma {:induction false} LineTold<T>(a: seq<T>, b: seq<T>, r: Applied<T>, q: Run<T>, k: nat)
    requires Placed(a, b, q, k) && Told(a, b, r, OldAt(q, k), NewAt(q, k))
    ensures Told(a, b, FollowAll(a, r, LineRows(q, k)), OldAt(q, k + 1), NewAt(q, k + 1))
  {
    var rows, x, y, line := LineRows(q, k), OldAt(q, k), NewAt(q, k), q.lines[k];
    if rows != [] {
      FollowOne(a, r, rows[0]);
    }
    match q.kind
    case Added => FollowAdded(a, b, r, x, y, line);
    case Removed => FollowRemoved(a, b, r, x, y, line);
    case Same => FollowSame(a, b, r, x, y, line);
  }

  /** ... and so those of a run account for the run. */
  lemma {:induction false} RunTold<T>(a: seq<T>, b: seq<T>, r: Applied<T>, q: Run<T>, k: nat)
    requires k <= |q.lines| && forall i :: 0 <= i < k ==> Placed(a, b, q, i)
    requires Told(a, b, r, q.x, q.y)
    ensures Told(a, b, FollowAll(a, r, RunRows(q, k)), OldAt(q, k), NewAt(q, k))
  {
    if k > 0 {
      RunTold(a, b, r, q, k - 1);
      LineTold(a, b, FollowAll(a, r, RunRows(q, k - 1)), q, k - 1);
      FollowAppend(a, r, RunRows(q, k - 1), LineRows(q, k - 1));
    }
  }

  lemma AtEach<T>(a: seq<T>, x: nat, p: seq<T>, k: nat)
    requires At(a, x, p) && k < |p|
    ensures a[x + k] == p[k]
  {
    AtSlice(a, x, p);
    assert a[x..x + |p|][k] == a[x + k];
  }

  lemma RunPlaced<T>(a: seq<T>, b: seq<T>, q: Run<T>, k: nat)
    requires q.kind != Added ==> At(a, q.x, q.lines)
    requires q.kind != Removed ==> At(b, q.y, q.lines)
    requires k < |q.lines|
    ensures Placed(a, b, q, k)
  {
    if q.kind != Added {
      AtEach(a, q.x, q.lines, k);
    }
    if q.kind != Removed {
      AtEach(b, q.y, q.lines, k);
    }
  }

  lemma {:induction false} WholeRunTold<T>(a: seq<T>, b: seq<T>, r: Applied<T>, q: Run<T>, u: nat, v: nat)
    requires q.kind != Added ==> At(a, q.x, q.lines)
    requires q.kind != Removed ==> At(b, q.y, q.lines)
    requires Told(a, b, r, q.x, q.y) && u == OldAt(q, |q.lines|) && v == NewAt(q, |q.lines|)
    ensures Told(a, b, FollowAll(a, r, RunRows(q, |q.lines|)), u, v)
  {
    forall k | 0 <= k < |q.lines| ensures Placed(a, b, q, k) {
      RunPlaced(a, b, q, k);
    }
    RunTold(a, b, r, q, |q.lines|);
  }

  lemma {:induction false} EntryTold<T>(a: seq<T>, b: seq<T>, es: seq<Entry<T>>, i: nat, next: nat, r: Applied<T>,
                                        q: Run<T>, u: nat, v: nat)
    requires i < |es| && a == EntryLines(es, Added) && b == EntryLines(es, Removed) && q == RunOf(es, i)
    requires next == i + 1 && u == Pos(es, Added, next) && v == Pos(es, Removed, next)
    requires Told(a, b, r, q.x, q.y)
    ensures Told(a, b, FollowAll(a, r, RunRows(q, |q.lines|)), u, v)
  {
    NextEntry(es, i, next, a, b);
    WholeRunTold(a, b, r, q, u, v);
  }

  lemma {:induction false} ToldJoin<T>(a: seq<T>, b: seq<T>, r: Applied<T>, u: seq<Row<T>>, v: seq<Row<T>>, x: int,
                                       y: int)
    requires Told(a, b, FollowAll(a, FollowAll(a, r, u), v), x, y)
    ensures Told(a, b, FollowAll(a, r, u + v), x, y)
  {
    FollowAppend(a, r, u, v);
  }

  lemma {:induction false} RowsNext<T>(es: seq<Entry<T>>, j: nat, i: nat, q: Run<T>)
    requires j < |es| && i == j + 1 && q == RunOf(es, j)
    ensures DiffRows(es, i) == DiffRows(es, j) + RunRows(q, |q.lines|)
  {
  }

  lemma {:induction false} NextRunTold<T>(a: seq<T>, b: seq<T>, es: seq<Entry<T>>, j: nat, i: nat, q: Run<T>,
                                          before: seq<Row<T>>, u: nat, v: nat)
    requires j < |es| && i == j + 1 && a == EntryLines(es, Added) && b == EntryLines(es, Removed) && q == RunOf(es, j)
    requires u == Pos(es, Added, i) && v == Pos(es, Removed, i)
             && Told(a, b, FollowAll(a, Done(0, []), before), q.x, q.y)
    ensures Told(a, b, FollowAll(a, Done(0, []), before + RunRows(q, |q.lines|)), u, v)
  {
    EntryTold(a, b, es, j, i, FollowAll(a, Done(0, []), before), q, u, v);
    ToldJoin(a, b, Done(0, []), before, RunRows(q, |q.lines|), u, v);
  }

  lemma {:induction false} RowsTold<T>(a: seq<T>, b: seq<T>, es: seq<Entry<T>>, i: nat, u: nat, v: nat)
    requires i <= |es| && a == EntryLines(es, Added) && b == EntryLines(es, Removed)
    requires u == Pos(es, Added, i) && v == Pos(es, Removed, i)
    ensures Told(a, b, FollowAll(a, Done(0, []), DiffRows(es, i)), u, v)
  {
    if i > 0 {
      var j := i - 1;
      var q := RunOf(es, j);
      RowsTold(a, b, es, j, q.x, q.y);
      NextRunTold(a, b, es, j, i, q, DiffRows(es, j), u, v);
      RowsNext(es, j, i, q);
    }
  }

  /** The rows of a diff, with what they hide, tell the whole change. */
  lemma {:induction false} DiffRowsTell<T>(es: seq<Entry<T>>)
    ensures Tells(EntryLines(es, Added), DiffRows(es, |es|), EntryLines(es, Removed))
  {
    var a, b := EntryLines(es, Added), EntryLines(es, Removed);
    PosEnd(es, Added);
    PosEnd(es, Removed);
    RowsTold(a, b, es, |es|, |a|, |b|);
    ToldAll(a, b, FollowAll(a, Done(0, []), DiffRows(es, |es|)));
  }

  lemma {:induction false} ToldAll<T>(a: seq<T>, b: seq<T>, r: Applied<T>)
    requires Told(a, b, r, |a|, |b|)
    ensures r.next <= |a| && r.out + Span(a, r.next, |a|) == b
  {
    SpanAll(b);
  }

  // ----- the order of the rows ----------------------------------------------

  ghost predicate IsRow<T>(row: Row<T>, kind: Kind) {
    row.Row? && row.kind == kind
  }

  /** No added line is directly followed by a removed one. */
  ghost predicate RowsLead<T>(rows: seq<Row<T>>) {
    forall i :: 0 < i < |rows| ==> !(IsRow(rows[i - 1], Added) && IsRow(rows[i], Removed))
  }

  ghost predicate LastAdded<T>(rows: seq<Row<T>>) {
    rows != [] && IsRow(Last(rows), Added)
  }

  ghost predicate OfKind<T>(rows: seq<Row<T>>, kind: Kind) {
    forall i :: 0 <= i < |rows| ==> IsRow(rows[i], kind) || (kind == Same && rows[i].Gap?)
  }

  lemma LeadAppend<T>(rows: seq<Row<T>>, more: seq<Row<T>>, kind: Kind)
    requires RowsLead(rows) && OfKind(more, kind) && (LastAdded(rows) ==> kind != Removed)
    ensures RowsLead(rows + more)
    ensures LastAdded(rows + more) ==> if more == [] then LastAdded(rows) else kind == Added
  {
    assert more != [] ==> Last(rows + more) == Last(more);
    assert more == [] ==> rows + more == rows;
  }

  lemma {:induction false} RunRowsKind<T>(q: Run<T>, k: nat)
    requires k <= |q.lines|
    ensures OfKind(RunRows(q, k), q.kind)
    ensures k > 0 && (q.kind != Same || q.h > 0) ==> RunRows(q, k) != []
  {
    if k > 0 {
      RunRowsKind(q, k - 1);
    }
  }

  ghost predicate RunsLead<T>(es: seq<Entry<T>>) {
    && (forall i :: 0 < i < |es| ==> !(es[i - 1].kind == Added && es[i].kind == Removed))
    && (forall i :: 0 <= i < |es| ==> es[i].lines != [])
  }

  lemma {:induction false} RowsInOrder<T>(es: seq<Entry<T>>, i: nat)
    requires i <= |es| && RunsLead(es)
    ensures RowsLead(DiffRows(es, i)) && (LastAdded(DiffRows(es, i)) ==> i > 0 && es[i - 1].kind == Added)
  {
    if i > 0 {
      var j := i - 1;
      var q := RunOf(es, j);
      RowsInOrder(es, j);
      RunRowsKind(q, |q.lines|);
      LeadAppend(DiffRows(es, j), RunRows(q, |q.lines|), q.kind);
    }
  }

  // ----- building the rows --------------------------------------------------

  /** Behind the first hidden line of a run, the other hidden lines show nothing. */
  lemma {:induction false} HiddenRows<T>(q: Run<T>, k: nat)
    requires q.kind == Same && 0 <= q.h <= k <= q.m <= |q.lines|
    ensures RunRows(q, k) == RunRows(q, q.h) + if q.h < k && q.gap then [Gap] else []
  {
    if q.h < k {
      HiddenRows(q, k - 1);
      Nil(RunRows(q, k - 1));
      Nil(RunRows(q, q.h));
    } else {
      Nil(RunRows(q, k));
    }
  }

  /** One row a line, numbered from num on. */
  method Show<T>(rows: seq<Row<T>>, kind: Kind, lines: seq<T>, lo: nat, hi: nat, num: int,
                 ghost before: seq<Row<T>>, ghost q: Run<T>) returns (out: seq<Row<T>>)
    requires lo <= hi <= |lines| && q.lines == lines && q.kind == kind
    requires num == (if kind == Added then q.y else q.x) + lo + 1
    requires kind == Same ==> hi <= q.h || q.m <= lo || q.m <= q.h
    requires rows == before + RunRows(q, lo)
    ensures out == before + RunRows(q, hi)
  {
    out := rows;
    for k := lo to hi
      invariant out == before + RunRows(q, k)
    {
      Assoc(before, RunRows(q, k), LineRows(q, k));
      assert LineRows(q, k) == [Row(kind, num + (k - lo), lines[k])];
      out := out + [Row(kind, num + (k - lo), lines[k])];
    }
  }

  /** The window of an unchanged run. */
  method ShowWindow<T>(rows: seq<Row<T>>, raw: seq<T>, oldLineNum: int, newLineNum: int,
                       hasLeadingChange: bool, hasTrailingChange: bool, ghost q: Run<T>) returns (out: seq<Row<T>>)
    requires oldLineNum >= 1 && newLineNum >= 1
    requires q == Window(Same, raw, oldLineNum - 1, newLineNum - 1, hasLeadingChange, hasTrailingChange)
    ensures out == rows + RunRows(q, |raw|)
  {
    var n := |raw|;
    Nil(rows);
    if hasLeadingChange && hasTrailingChange {
      if n <= CONTEXT_LINES * 2 {
        out := Show(rows, Same, raw, 0, n, oldLineNum, rows, q);
      } else {
        out := Show(rows, Same, raw, 0, CONTEXT_LINES, oldLineNum, rows, q);
        out := ShowGap(out, rows, q);
        out := Show(out, Same, raw, n - CONTEXT_LINES, n, oldLineNum + (n - CONTEXT_LINES), rows, q);
      }
    } else if hasLeadingChange {
      var shown := if n > CONTEXT_LINES then CONTEXT_LINES else n;
      out := Show(rows, Same, raw, 0, shown, oldLineNum, rows, q);
      if n - shown > 0 {
        out := ShowGap(out, rows, q);
      }
    } else if hasTrailingChange {
      var skipped := if n < CONTEXT_LINES then 0 else n - CONTEXT_LINES;
      out := rows;
      if skipped > 0 {
        out := ShowGap(out, rows, q);
      }
      out := Show(out, Same, raw, skipped, n, oldLineNum + skipped, rows, q);
    } else {
      out := rows;
      HiddenRows(q, n);
    }
  }

  method ShowGap<T>(rows: seq<Row<T>>, ghost before: seq<Row<T>>, ghost q: Run<T>) returns (out: seq<Row<T>>)
    requires q.kind == Same && 0 <= q.h < q.m <= |q.lines| && q.gap
    requires rows == before + RunRows(q, q.h)
    ensures out == before + RunRows(q, q.m)
  {
    HiddenRows(q, q.m);
    Assoc(before, RunRows(q, q.h), [Gap]);
    out := rows + [Gap];
  }

  /** A run as it is displayed: its lines without their newlines. */
  ghost function Shown(p: Component): Entry<Bytes> {
    Entry(p.kind, ChompAll(Lines(p.value)))
  }

  ghost function ShownAll(parts: seq<Component>): (es: seq<Entry<Bytes>>)
    ensures |es| == |parts|
  {
    if parts == [] then [] else ShownAll(Init(parts)) + [Shown(Last(parts))]
  }

  lemma {:induction false} ShownAt(parts: seq<Component>, i: nat)
    requires i < |parts|
    ensures ShownAll(parts)[i] == Shown(parts[i])
  {
    if i < |parts| - 1 {
      ShownAt(Init(parts), i);
    }
  }

  lemma ChompAllAppend(a: seq<Bytes>, b: seq<Bytes>)
    ensures ChompAll(a + b) == ChompAll(a) + ChompAll(b)
  {
  }

  lemma {:induction false} ShownLines(parts: seq<Component>, skip: Kind)
    ensures EntryLines(ShownAll(parts), skip) == ChompAll(LinesBut(parts, skip))
  {
    if parts != [] {
      ShownLines(Init(parts), skip);
      InitPush(ShownAll(Init(parts)), Shown(Last(parts)));
      ChompAllAppend(LinesBut(Init(parts), skip), RunBut(Last(parts), skip));
    }
  }

  /** strings.Split without the empty field after a final newline. */
  method RawLines(value: Bytes) returns (raw: seq<Bytes>)
    ensures raw == ChompAll(Lines(value))
  {
    raw := Split(value);
    SplitIsLines(value);
    LinesSound(value);
    var ls := Lines(value);
    if value == [] || Terminated(value) {
      InitPush(ChompAll(ls), []);
    } else {
      Nil(ChompAll(ls));
      assert !Terminated(Last(ls)) && Last(ls) == Chomp(Last(ls)) == Last(raw);
      assert IsLine(Last(ls));
    }
    if Last(raw) == [] {
      raw := Init(raw);
    }
  }

  // ----- the first changed line ---------------------------------------------

  /** n is the number of lines the two lists begin with in common. */
  ghost predicate CommonPrefix<T>(a: seq<T>, b: seq<T>, n: int) {
    0 <= n <= |a| && n <= |b| && a[..n] == b[..n] && Stopped(a, b, n, n)
  }

  /** The first n runs are unchanged. */
  ghost predicate AllSame(parts: seq<Component>, n: int) {
    forall i :: 0 <= i < |parts| && i < n ==> parts[i].kind == Same
  }

  lemma AllSameNext(parts: seq<Component>, i: nat)
    requires i < |parts|
    ensures AllSame(parts, i + 1) <==> AllSame(parts, i) && parts[i].kind == Same
  {
  }

  lemma {:induction false} AllSameKeeps(parts: seq<Component>)
    requires AllSame(parts, |parts|)
    ensures OldText(parts) == NewText(parts)
  {
    if parts != [] {
      AllSameKeeps(Init(parts));
    }
  }

  lemma {:induction false} NoChanges(parts: seq<Component>)
    requires Changes(parts) == 0 && Neat(parts)
    ensures AllSame(parts, |parts|)
  {
    if parts != [] {
      NoChanges(Init(parts));
      LinesSound(Last(parts).value);
    }
  }

  /** A least diff marks a change exactly if the texts differ. */
  lemma {:induction false} MarksChange(parts: seq<Component>, oldText: Bytes, newText: Bytes)
    requires IsDiff(parts, oldText, newText) && Neat(parts) && Changes(parts) == LineDistance(oldText, newText)
    ensures AllSame(parts, |parts|) <==> oldText == newText
  {
    if AllSame(parts, |parts|) {
      AllSameKeeps(parts);
      DiffJoinsBack(parts, oldText, newText);
    } else if oldText == newText {
      var same := Component(Same, oldText);
      LinesButPush([], same, Added);
      LinesButPush([], same, Removed);
      Nil([same]);
      Nil(Lines(oldText));
      NoDiffIsShorter([same], oldText, newText);
      NoChanges(parts);
    }
  }

  lemma {:induction false} FirstRun(parts: seq<Component>, skip: Kind)
    requires parts != [] && parts[0].kind != skip
    ensures Lines(parts[0].value) <= LinesBut(parts, skip)
  {
    if |parts| == 1 {
      Nil(Lines(parts[0].value));
    } else {
      FirstRun(Init(parts), skip);
    }
  }

  /** How far the two line lists agree, read off the first run. */
  ghost function Kept(parts: seq<Component>): nat {
    if parts != [] && parts[0].kind == Same then |Lines(parts[0].value)| else 0
  }

  lemma {:induction false} KeptIsPrefix(parts: seq<Component>, oldText: Bytes, newText: Bytes)
    requires parts != [] && IsDiff(parts, oldText, newText)
             && OpensWithCommonPrefix(parts, Lines(oldText), Lines(newText))
    ensures CommonPrefix(Lines(oldText), Lines(newText), Kept(parts))
  {
    if parts[0].kind == Same {
      FirstRun(parts, Added);
      FirstRun(parts, Removed);
    }
  }

  lemma Alternates(parts: seq<Component>, i: nat)
    requires Neat(parts) && 0 < i < |parts|
    ensures parts[i - 1].kind != parts[i].kind
  {
  }

  /** In a neat diff the first change is the first or the second run. */
  lemma {:induction false} FirstChange(parts: seq<Component>, i: nat)
    requires Neat(parts) && i < |parts| && AllSame(parts, i) && parts[i].kind != Same
    ensures Pos(ShownAll(parts), Removed, i) == Kept(parts)
  {
    if i >= 2 {
      Alternates(parts, 1);
    } else if i == 1 {
      ShownAt(parts, 0);
      assert Pos(ShownAll(parts), Removed, 0) == 0;
    }
  }

  /** What the loop over the runs knows before run i. */
  ghost predicate Showing<T>(es: seq<Entry<T>>, i: nat, rows: seq<Row<T>>, oldLineNum: int, newLineNum: int,
                             lastWasChange: bool) {
    && i <= |es| && rows == DiffRows(es, i) && lastWasChange == Changed(es, i - 1)
    && oldLineNum == Pos(es, Added, i) + 1 && newLineNum == Pos(es, Removed, i) + 1
  }

  /** The rows of one run more. */
  method ShowEntry<T>(rows: seq<Row<T>>, kind: Kind, raw: seq<T>, oldLineNum: int, newLineNum: int,
                      lastWasChange: bool, nextPartIsChange: bool, ghost es: seq<Entry<T>>, ghost i: nat,
                        ghost next: nat)
    returns (out: seq<Row<T>>, oldNext: int, newNext: int)
    requires i < |es| && next == i + 1 && es[i] == Entry(kind, raw)
    requires Showing(es, i, rows, oldLineNum, newLineNum, lastWasChange) && nextPartIsChange == Changed(es, next)
    ensures Showing(es, next, out, oldNext, newNext, kind != Same)
  {
    ghost var q := RunOf(es, i);
    var n := |raw|;
    if kind != Same {
      var num := if kind == Added then newLineNum else oldLineNum;
      Nil(rows);
      out := Show(rows, kind, raw, 0, n, num, rows, q);
    } else {
      out := ShowWindow(rows, raw, oldLineNum, newLineNum, lastWasChange, nextPartIsChange, q);
    }
    oldNext := if kind == Added then oldLineNum else oldLineNum + n;
    newNext := if kind == Removed then newLineNum else newLineNum + n;
  }

  lemma {:induction false} ShownChanged(parts: seq<Component>, i: int)
    ensures Changed(ShownAll(parts), i) <==> 0 <= i < |parts| && parts[i].kind != Same
  {
    if 0 <= i < |parts| {
      ShownAt(parts, i);
    }
  }

  lemma {:induction false} ShownStep(parts: seq<Component>, i: nat, next: nat)
    requires i < |parts| && next == i + 1
    ensures ShownAll(parts)[i] == Shown(parts[i])
    ensures Changed(ShownAll(parts), i) <==> parts[i].kind != Same
    ensures Changed(ShownAll(parts), next) <==> next < |parts| && parts[next].kind != Same
  {
    ShownAt(parts, i);
    ShownChanged(parts, i);
    ShownChanged(parts, next);
  }

  /** What is known of the first change after the first n runs. */
  ghost predicate FirstIs(parts: seq<Component>, n: nat, firstChangedLine: int) {
    firstChangedLine == if AllSame(parts, n) then 0 else Kept(parts) + 1
  }

  lemma {:induction false} FirstNext(parts: seq<Component>, i: nat, next: nat, first: int, newLineNum: int)
    requires Neat(parts) && i < |parts| && next == i + 1 && FirstIs(parts, i, first)
    requires newLineNum == Pos(ShownAll(parts), Removed, i) + 1
    ensures FirstIs(parts, next, if parts[i].kind != Same && first == 0 then newLineNum else first)
  {
    AllSameNext(parts, i);
    if parts[i].kind != Same && first == 0 {
      FirstChange(parts, i);
    }
  }

  method ShowPart(parts: seq<Component>, i: nat, rows: seq<Row<Bytes>>, oldLineNum: int, newLineNum: int,
                  lastWasChange: bool, firstChangedLine: int, ghost es: seq<Entry<Bytes>>, ghost next: nat)
    returns (out: seq<Row<Bytes>>, oldNext: int, newNext: int, change: bool, first: int)
    requires Neat(parts) && es == ShownAll(parts) && i < |parts| && next == i + 1
    requires Showing(es, i, rows, oldLineNum, newLineNum, lastWasChange) && FirstIs(parts, i, firstChangedLine)
    ensures Showing(es, next, out, oldNext, newNext, change) && FirstIs(parts, next, first)
  {
    var raw := RawLines(parts[i].value);
    FirstNext(parts, i, next, firstChangedLine, newLineNum);
    first := if parts[i].kind != Same && firstChangedLine == 0 then newLineNum else firstChangedLine;
    ShownStep(parts, i, next);
    var nextPartIsChange := i < |parts| - 1 && parts[i + 1].kind != Same;
    out, oldNext, newNext :=
      ShowEntry(rows, parts[i].kind, raw, oldLineNum, newLineNum, lastWasChange, nextPartIsChange, es, i, next);
    change := parts[i].kind != Same;
  }

  /** All rows of a diff, and where its first change is. */
  method ShowParts(parts: seq<Component>) returns (rows: seq<Row<Bytes>>, firstChangedLine: int)
    requires Neat(parts)
    ensures rows == DiffRows(ShownAll(parts), |parts|)
    ensures firstChangedLine == if AllSame(parts, |parts|) then 0 else Kept(parts) + 1
  {
    ghost var es := ShownAll(parts);
    rows, firstChangedLine := [], 0;
    var oldLineNum, newLineNum, lastWasChange := 1, 1, false;
    for i := 0 to |parts|
      invariant Showing(es, i, rows, oldLineNum, newLineNum, lastWasChange) && FirstIs(parts, i, firstChangedLine)
    {
      rows, oldLineNum, newLineNum, lastWasChange, firstChangedLine :=
        ShowPart(parts, i, rows, oldLineNum, newLineNum, lastWasChange, firstChangedLine, es, i + 1);
    }
  }

  lemma {:induction false} ShownInOrder(parts: seq<Component>)
    requires Neat(parts) && RemovedFirst(parts)
    ensures RunsLead(ShownAll(parts))
  {
    forall i | 0 <= i < |parts| ensures ShownAll(parts)[i] == Shown(parts[i]) && ShownAll(parts)[i].lines != [] {
      ShownAt(parts, i);
      LinesSound(parts[i].value);
    }
  }

  /** Rows of a least diff that tell the whole change between the two texts, and
      the line where they begin to differ (0 if they do not). */
  method GenerateDiffString(oldContent: Bytes, newContent: Bytes) returns (rows: seq<Row<Bytes>>, firstChangedLine: int)
    requires |Lines(oldContent)| <= SENTINEL && |Lines(newContent)| <= SENTINEL
    ensures Tells(ChompAll(Lines(oldContent)), rows, ChompAll(Lines(newContent)))
    ensures exists parts ::
              && IsDiff(parts, oldContent, newContent) && Changes(parts) == LineDistance(oldContent, newContent)
              && ChosenDiff(parts, oldContent, newContent) && rows == DiffRows(ShownAll(parts), |parts|)
    ensures RowsLead(rows)
    ensures firstChangedLine >= 0 && (firstChangedLine == 0 <==> oldContent == newContent)
    ensures firstChangedLine > 0 ==> CommonPrefix(Lines(oldContent), Lines(newContent), firstChangedLine - 1)
  {
    var parts := ComputeLineDiff(oldContent, newContent);
    rows, firstChangedLine := ShowParts(parts);
    DiffRowsTell(ShownAll(parts));
    ShownLines(parts, Added);
    ShownLines(parts, Removed);
    ShownInOrder(parts);
    RowsInOrder(ShownAll(parts), |parts|);
    MarksChange(parts, oldContent, newContent);
    if firstChangedLine > 0 {
      KeptIsPrefix(parts, oldContent, newContent);
    }
  }
}
