/** The context sent to the model once parts of a transcript have summaries, and the
    place where a compaction cuts a transcript. */
module Compaction {
  import opened Text

  datatype Kind = PlainText | ToolCall | ToolResult | ActiveToolsChange | BranchSummaryKind | Custom(name: string)

  /** A message by the sizes its token estimate is taken from; `content` stands for
      everything else. */
  datatype Message = Message(kind: Kind, bodyBytes: nat, labelBytes: nat, images: nat, content: string)

  datatype BranchSummary = BranchSummary(startIdx: int, endIdx: int, summary: string)

  /** Its body is the summary in quotes (escapes are not counted), its labels "system" and
      "branch_summary". */
  function NewBranchSummaryMessage(summary: string): Message {
    Message(BranchSummaryKind, |summary| + 2, 20, 0, summary)
  }

  // ----- the exchange sort --------------------------------------------------

  function Swap<T>(s: seq<T>, i: nat, j: nat): (r: seq<T>)
    requires i < |s| && j < |s|
    ensures |r| == |s|
  {
    s[i := s[j]][j := s[i]]
  }

  /** Compares element i with those from j on, and exchanges it with each smaller. */
  function Pass(s: seq<BranchSummary>, i: nat, j: nat): (r: seq<BranchSummary>)
    requires i < j <= |s|
    ensures |r| == |s|
    decreases |s| - j
  {
    if j == |s| then s else Pass(if s[j].startIdx < s[i].startIdx then Swap(s, i, j) else s, i, j + 1)
  }

  function SortFrom(s: seq<BranchSummary>, i: nat): (r: seq<BranchSummary>)
    requires i <= |s|
    ensures |r| == |s|
    decreases |s| - i
  {
    if i + 1 >= |s| then s else SortFrom(Pass(s, i, i + 1), i + 1)
  }

  function ExchangeSort(s: seq<BranchSummary>): seq<BranchSummary> {
    SortFrom(s, 0)
  }

  lemma SwapPermutes<T>(s: seq<T>, i: nat, j: nat)
    requires i < |s| && j < |s|
    ensures multiset(Swap(s, i, j)) == multiset(s)
  {
  }

  lemma {:induction false} PassPermutes(s: seq<BranchSummary>, i: nat, j: nat)
    requires i < j <= |s|
    ensures multiset(Pass(s, i, j)) == multiset(s)
    decreases |s| - j
  {
    if j < |s| {
      var r := PassBegins(s, i, j, j + 1);
      PassPermutes(r, i, j + 1);
    }
  }

  lemma {:induction false} PassBegins(s: seq<BranchSummary>, i: nat, j: nat, next: nat) returns (r: seq<BranchSummary>)
    requires i < j < |s| && next == j + 1
    ensures |r| == |s| && multiset(r) == multiset(s) && Pass(s, i, j) == Pass(r, i, next)
  {
    r := if s[j].startIdx < s[i].startIdx then Swap(s, i, j) else s;
    SwapPermutes(s, i, j);
  }

  /** After a pass, element i is least among itself and those behind it, and the
      elements before it stay ... */
  lemma {:induction false} PassLeast(s: seq<BranchSummary>, i: nat, j: nat)
    requires i < j <= |s| && forall k :: i < k < j ==> s[i].startIdx <= s[k].startIdx
    ensures var r := Pass(s, i, j);
            (forall k :: 0 <= k < i ==> r[k] == s[k]) && (forall k :: i < k < |r| ==> r[i].startIdx <= r[k].startIdx)
    decreases |s| - j
  {
    if j < |s| {
      PassLeast(if s[j].startIdx < s[i].startIdx then Swap(s, i, j) else s, i, j + 1);
    }
  }

  /** ... and nothing smaller comes behind them. */
  lemma {:induction false} PassBound(s: seq<BranchSummary>, i: nat, j: nat, bound: int)
    requires i < j <= |s| && forall k :: i <= k < |s| ==> bound <= s[k].startIdx
    ensures forall k :: i <= k < |s| ==> bound <= Pass(s, i, j)[k].startIdx
    decreases |s| - j
  {
    if j < |s| {
      PassBound(if s[j].startIdx < s[i].startIdx then Swap(s, i, j) else s, i, j + 1, bound);
    }
  }

  /** The first i are in their final places. */
  ghost predicate Placed(s: seq<BranchSummary>, i: nat) {
    forall k, l :: 0 <= k < i && k < l < |s| ==> s[k].startIdx <= s[l].startIdx
  }

  lemma PassPlaces(s: seq<BranchSummary>, i: nat)
    requires i + 1 < |s| && Placed(s, i)
    ensures Placed(Pass(s, i, i + 1), i + 1)
  {
    var r := Pass(s, i, i + 1);
    forall k, l | 0 <= k < i + 1 && k < l < |r| ensures r[k].startIdx <= r[l].startIdx {
      PassOrders(s, i, k, l);
    }
  }

  lemma {:induction false} PassOrders(s: seq<BranchSummary>, i: nat, k: nat, l: nat)
    requires i + 1 < |s| && Placed(s, i) && k <= i && k < l < |s|
    ensures Pass(s, i, i + 1)[k].startIdx <= Pass(s, i, i + 1)[l].startIdx
  {
    var r := Pass(s, i, i + 1);
    PassLeast(s, i, i + 1);
    if k < i {
      assert r[k] == s[k];
      if l < i {
        assert r[l] == s[l];
      } else {
        PassBound(s, i, i + 1, s[k].startIdx);
      }
    } else {
      assert k == i && i < l;
    }
  }

  lemma {:induction false} SortSound(s: seq<BranchSummary>, i: nat)
    requires i <= |s| && Placed(s, i)
    ensures var r := SortFrom(s, i); multiset(r) == multiset(s) && Placed(r, |r|)
    decreases |s| - i
  {
    if i + 1 < |s| {
      PassPermutes(s, i, i + 1);
      PassPlaces(s, i);
      SortSound(Pass(s, i, i + 1), i + 1);
    }
  }

  /** The sort is not stable: equal starts may change places. */
  lemma NotStable()
    ensures var a, b, c := BranchSummary(1, 1, "a"), BranchSummary(1, 1, "b"), BranchSummary(0, 0, "c");
            ExchangeSort([a, b, c]) == [c, b, a]
  {
    var a, b, c := BranchSummary(1, 1, "a"), BranchSummary(1, 1, "b"), BranchSummary(0, 0, "c");
    assert Pass([a, b, c], 0, 1) == Pass([a, b, c], 0, 2) == Pass([c, b, a], 0, 3) == [c, b, a];
    assert Pass([c, b, a], 1, 2) == Pass([c, b, a], 1, 3) == [c, b, a];
    assert SortFrom([c, b, a], 1) == SortFrom([c, b, a], 2) == [c, b, a];
  }

  /** s[m] is the first of the least. */
  ghost predicate FirstLeast(s: seq<BranchSummary>, m: nat) {
    && m < |s| && (forall k :: 0 <= k < |s| ==> s[m].startIdx <= s[k].startIdx)
    && (forall k :: 0 <= k < m ==> s[m].startIdx < s[k].startIdx)
  }

  lemma {:induction false} PassKeepsFirst(s: seq<BranchSummary>, j: nat, x: BranchSummary, m: nat)
    requires 0 < j <= |s| && m < |s| && s[m] == x && (m == 0 || m >= j)
    requires forall k :: 0 <= k < |s| ==> x.startIdx <= s[k].startIdx
    requires m > 0 ==> x.startIdx < s[0].startIdx && forall k :: j <= k < m ==> x.startIdx < s[k].startIdx
    ensures Pass(s, 0, j)[0] == x
    decreases |s| - j
  {
    if j < |s| {
      if s[j].startIdx < s[0].startIdx {
        PassKeepsFirst(Swap(s, 0, j), j + 1, x, if m == j then 0 else m);
      } else {
        PassKeepsFirst(s, j + 1, x, m);
      }
    }
  }

  lemma {:induction false} SortKeepsFront(s: seq<BranchSummary>, i: nat)
    requires 0 < i <= |s|
    ensures SortFrom(s, i)[0] == s[0]
    decreases |s| - i
  {
    if i + 1 < |s| {
      PassKeepsFront(s, i, i + 1);
      SortKeepsFront(Pass(s, i, i + 1), i + 1);
    }
  }

  lemma {:induction false} PassKeepsFront(s: seq<BranchSummary>, i: nat, j: nat)
    requires 0 < i < j <= |s|
    ensures Pass(s, i, j)[0] == s[0]
    decreases |s| - j
  {
    if j < |s| {
      PassKeepsFront(if s[j].startIdx < s[i].startIdx then Swap(s, i, j) else s, i, j + 1);
    }
  }

  /** Of several summaries with the least start, the one recorded first comes first. */
  lemma FirstRecordedLeads(s: seq<BranchSummary>, m: nat)
    requires FirstLeast(s, m)
    ensures ExchangeSort(s)[0] == s[m]
  {
    if |s| > 1 {
      PassKeepsFirst(s, 1, s[m], m);
      SortKeepsFront(Pass(s, 0, 1), 1);
    }
  }

  // ----- substituting summaries ---------------------------------------------

  function LastEnd(cs: seq<BranchSummary>): int {
    if cs == [] then 0 else Last(cs).endIdx
  }

  /** Of the sorted summaries, each that does not begin inside the one before. */
  function Chosen(sorted: seq<BranchSummary>): seq<BranchSummary> {
    if sorted == [] then []
    else
      var cs := Chosen(Init(sorted));
      if Last(sorted).startIdx < LastEnd(cs) then cs else cs + [Last(sorted)]
  }

  function Between(t: seq<Message>, i: int, j: int): seq<Message> {
    if 0 <= i < j <= |t| then Span(t, i, j) else []
  }

  function Woven(t: seq<Message>, cs: seq<BranchSummary>): seq<Message> {
    if cs == [] then []
    else Woven(t, Init(cs)) + Between(t, LastEnd(Init(cs)), Last(cs).startIdx)
         + [NewBranchSummaryMessage(Last(cs).summary)]
  }

  function Context(t: seq<Message>, cs: seq<BranchSummary>): seq<Message> {
    Woven(t, cs) + Between(t, LastEnd(cs), |t|)
  }

  function WithoutBookkeeping(ms: seq<Message>): seq<Message> {
    if ms == [] then []
    else WithoutBookkeeping(Init(ms)) + if Last(ms).kind.ActiveToolsChange? then [] else [Last(ms)]
  }

  lemma {:induction false} WithoutAppend(a: seq<Message>, b: seq<Message>)
    ensures WithoutBookkeeping(a + b) == WithoutBookkeeping(a) + WithoutBookkeeping(b)
  {
    if b == [] {
      Nil(a);
      Nil(WithoutBookkeeping(a));
    } else {
      InitAppend(a, b);
      WithoutAppend(a, Init(b));
      Assoc(WithoutBookkeeping(a), WithoutBookkeeping(Init(b)), if Last(b).kind.ActiveToolsChange? then []
            else [Last(b)]);
    }
  }

  // ----- what the context is, index by index --------------------------------

  /** The ranges follow each other inside a transcript of n messages. */
  ghost predicate Apart(cs: seq<BranchSummary>, n: nat) {
    cs == [] || (Apart(Init(cs), n) && LastEnd(Init(cs)) <= Last(cs).startIdx <= Last(cs).endIdx <= n)
  }

  ghost predicate Covered(cs: seq<BranchSummary>, i: int) {
    cs != [] && (Covered(Init(cs), i) || Last(cs).startIdx <= i < Last(cs).endIdx)
  }

  /** The summaries that stand in place of a range from i on. */
  ghost function SummariesAt(cs: seq<BranchSummary>, i: int): seq<Message> {
    if cs == [] then []
    else SummariesAt(Init(cs), i) + if Last(cs).startIdx == i then [NewBranchSummaryMessage(Last(cs).summary)] else []
  }

  ghost function MessageAt(t: seq<Message>, cs: seq<BranchSummary>, i: nat): seq<Message>
    requires i < |t|
  {
    if Covered(cs, i) || t[i].kind.ActiveToolsChange? then [] else [t[i]]
  }

  /** What the indices below n contribute: the summaries of the ranges that begin
      there, and the messages that no range covers and are no bookkeeping. */
  ghost function Below(t: seq<Message>, cs: seq<BranchSummary>, n: nat): seq<Message>
    requires n <= |t|
  {
    if n == 0 then [] else Below(t, cs, n - 1) + SummariesAt(cs, n - 1) + MessageAt(t, cs, n - 1)
  }

  ghost function Reference(t: seq<Message>, cs: seq<BranchSummary>): seq<Message> {
    Below(t, cs, |t|) + SummariesAt(cs, |t|)
  }

  lemma {:induction false} NothingPast(cs: seq<BranchSummary>, n: nat, i: int)
    requires Apart(cs, n) && i >= LastEnd(cs)
    ensures LastEnd(cs) >= 0 && !Covered(cs, i) && (i > LastEnd(cs) ==> SummariesAt(cs, i) == [])
  {
    if cs != [] {
      NothingPast(Init(cs), n, i);
    }
  }

  lemma {:induction false} BelowSame(t: seq<Message>, cs: seq<BranchSummary>, c: BranchSummary, n: nat)
    requires n <= |t| && n <= c.startIdx
    ensures Below(t, cs + [c], n) == Below(t, cs, n)
  {
    InitPush(cs, c);
    if n > 0 {
      var i := n - 1;
      BelowSame(t, cs, c, i);
      Nil(SummariesAt(cs, i));
      BelowNext(t, cs, i, n, SummariesAt(cs, i), MessageAt(t, cs, i));
      BelowNext(t, cs + [c], i, n, SummariesAt(cs, i), MessageAt(t, cs, i));
    }
  }

  lemma {:induction false} BelowNext(t: seq<Message>, cs: seq<BranchSummary>, i: nat, next: nat, ss: seq<Message>,
                                     ms: seq<Message>)
    requires i < |t| && next == i + 1 && SummariesAt(cs, i) == ss && MessageAt(t, cs, i) == ms
    ensures Below(t, cs, next) == Below(t, cs, i) + ss + ms
  {
  }

  /** The messages from e to n without bookkeeping. */
  ghost function Shown(t: seq<Message>, e: nat, n: nat): seq<Message>
    requires n <= |t|
  {
    if n <= e then [] else Shown(t, e, n - 1) + if t[n - 1].kind.ActiveToolsChange? then [] else [t[n - 1]]
  }

  lemma {:induction false} ShownNext(t: seq<Message>, e: nat, i: nat, next: nat, ms: seq<Message>)
    requires e <= i < |t| && next == i + 1 && ms == if t[i].kind.ActiveToolsChange? then [] else [t[i]]
    ensures Shown(t, e, next) == Shown(t, e, i) + ms
  {
  }

  lemma {:induction false} ShownIsWithout(t: seq<Message>, e: nat, n: nat)
    requires e <= n <= |t|
    ensures WithoutBookkeeping(Span(t, e, n)) == Shown(t, e, n)
  {
    if n > e {
      ShownIsWithout(t, e, n - 1);
      InitPush(Span(t, e, n - 1), t[n - 1]);
    }
  }

  /** After the last range, what is left follows as it is. */
  lemma {:induction false} BelowRun(t: seq<Message>, cs: seq<BranchSummary>, e: nat, n: nat, head: seq<Message>)
    requires Apart(cs, |t|) && e == LastEnd(cs) < n <= |t| && head == Below(t, cs, e) + SummariesAt(cs, e)
    ensures Below(t, cs, n) == head + Shown(t, e, n)
  {
    var i := n - 1;
    NothingPast(cs, |t|, i);
    if i == e {
      Nil(MessageAt(t, cs, i));
      BelowNext(t, cs, i, n, SummariesAt(cs, i), MessageAt(t, cs, i));
    } else {
      BelowRun(t, cs, e, i, head);
      BelowNext(t, cs, i, n, [], MessageAt(t, cs, i));
      Nil(Below(t, cs, i));
      ShownNext(t, e, i, n, MessageAt(t, cs, i));
      Assoc(head, Shown(t, e, i), MessageAt(t, cs, i));
    }
  }

  lemma {:induction false} CoveredRun(t: seq<Message>, cs: seq<BranchSummary>, ds: seq<BranchSummary>,
                                      c: BranchSummary, n: nat)
    requires Apart(cs, |t|) && LastEnd(cs) <= c.startIdx < n <= c.endIdx <= |t| && c.startIdx >= 0 && ds == cs + [c]
    ensures Below(t, ds, n) == Below(t, ds, c.startIdx) + SummariesAt(ds, c.startIdx)
  {
    var i := n - 1;
    InitPush(cs, c);
    NothingPast(cs, |t|, i);
    if i == c.startIdx {
      BelowNext(t, ds, i, n, SummariesAt(ds, i), []);
      Nil(Below(t, ds, i) + SummariesAt(ds, i));
    } else {
      CoveredRun(t, cs, ds, c, i);
      BelowNext(t, ds, i, n, [], []);
      Nil(Below(t, ds, i));
    }
  }

  lemma {:induction false} WovenIsBelow(t: seq<Message>, cs: seq<BranchSummary>)
    requires Apart(cs, |t|)
    ensures 0 <= LastEnd(cs) <= |t|
    ensures WithoutBookkeeping(Woven(t, cs)) == Below(t, cs, LastEnd(cs)) + SummariesAt(cs, LastEnd(cs))
  {
    if cs != [] {
      var h, c := Init(cs), Last(cs);
      var e, s, m := LastEnd(h), c.startIdx, NewBranchSummaryMessage(c.summary);
      InitLast(cs);
      WovenIsBelow(t, h);
      NothingPast(h, |t|, s);
      BelowSame(t, h, c, s);
      WithoutAppend(Woven(t, h), Between(t, e, s));
      InitPush(Woven(t, h) + Between(t, e, s), m);
      WovenStep(t, h, e, s);
      Assoc(Below(t, h, s), SummariesAt(h, s), [m]);
      if c.endIdx > s {
        CoveredRun(t, h, cs, c, c.endIdx);
        NothingPast(h, |t|, c.endIdx);
        Nil(Below(t, cs, c.endIdx));
      }
    }
  }

  lemma {:induction false} WovenStep(t: seq<Message>, cs: seq<BranchSummary>, e: nat, s: nat)
    requires Apart(cs, |t|) && e == LastEnd(cs) <= s <= |t|
    ensures Below(t, cs, e) + SummariesAt(cs, e) + WithoutBookkeeping(Between(t, e, s))
            == Below(t, cs, s) + SummariesAt(cs, s)
  {
    if e == s {
      Nil(Below(t, cs, e) + SummariesAt(cs, e));
    } else {
      BelowRun(t, cs, e, s, Below(t, cs, e) + SummariesAt(cs, e));
      ShownIsWithout(t, e, s);
      NothingPast(cs, |t|, s);
      Nil(Below(t, cs, s));
    }
  }

  /** The context is exactly the messages that no chosen range covers, in order and
      without bookkeeping, with one summary in place of each chosen range. */
  lemma {:induction false} ContextIsReference(t: seq<Message>, cs: seq<BranchSummary>)
    requires Apart(cs, |t|)
    ensures WithoutBookkeeping(Context(t, cs)) == Reference(t, cs)
  {
    WovenIsBelow(t, cs);
    WithoutAppend(Woven(t, cs), Between(t, LastEnd(cs), |t|));
    WovenStep(t, cs, LastEnd(cs), |t|);
  }

  // ----- the texts of the summaries -----------------------------------------

  /** What the summary messages say, in order. */
  function SummaryTexts(ms: seq<Message>): seq<string> {
    if ms == [] then []
    else SummaryTexts(Init(ms)) + if Last(ms).kind.BranchSummaryKind? then [Last(ms).content] else []
  }

  ghost function TextsOf(cs: seq<BranchSummary>): seq<string> {
    if cs == [] then [] else TextsOf(Init(cs)) + [Last(cs).summary]
  }

  ghost predicate NoneSummarized(ms: seq<Message>) {
    forall i :: 0 <= i < |ms| ==> !ms[i].kind.BranchSummaryKind?
  }

  lemma {:induction false} TextsAppend(a: seq<Message>, b: seq<Message>)
    ensures SummaryTexts(a + b) == SummaryTexts(a) + SummaryTexts(b)
  {
    if b == [] {
      Nil(a);
      Nil(SummaryTexts(a));
    } else {
      InitAppend(a, b);
      TextsAppend(a, Init(b));
      Assoc(SummaryTexts(a), SummaryTexts(Init(b)), if Last(b).kind.BranchSummaryKind? then [Last(b).content] else []);
    }
  }

  lemma {:induction false} NoTexts(ms: seq<Message>)
    requires NoneSummarized(ms)
    ensures SummaryTexts(ms) == []
  {
    if ms != [] {
      NoTexts(Init(ms));
    }
  }

  lemma BetweenNone(t: seq<Message>, i: int, j: int)
    requires NoneSummarized(t)
    ensures SummaryTexts(Between(t, i, j)) == []
  {
    if 0 <= i < j <= |t| {
      SpanIsSlice(t, i, j);
      NoTexts(Between(t, i, j));
    }
  }

  lemma {:induction false} WovenTexts(t: seq<Message>, cs: seq<BranchSummary>)
    requires NoneSummarized(t)
    ensures SummaryTexts(Woven(t, cs)) == TextsOf(cs)
  {
    if cs != [] {
      var h, c := Init(cs), Last(cs);
      var gap := Between(t, LastEnd(h), c.startIdx);
      WovenTexts(t, h);
      BetweenNone(t, LastEnd(h), c.startIdx);
      TextsAppend(Woven(t, h), gap);
      Nil(TextsOf(h));
      InitPush(Woven(t, h) + gap, NewBranchSummaryMessage(c.summary));
    }
  }

  lemma {:induction false} TextsStay(ms: seq<Message>)
    ensures SummaryTexts(WithoutBookkeeping(ms)) == SummaryTexts(ms)
  {
    if ms != [] {
      TextsStay(Init(ms));
      Nil(WithoutBookkeeping(Init(ms)));
      Nil(SummaryTexts(Init(ms)));
      InitPush(WithoutBookkeeping(Init(ms)), Last(ms));
    }
  }

  /** The context says the texts of the chosen summaries, in order, and no other. */
  lemma {:induction false} ContextTexts(t: seq<Message>, cs: seq<BranchSummary>)
    requires NoneSummarized(t)
    ensures SummaryTexts(WithoutBookkeeping(Context(t, cs))) == TextsOf(cs)
  {
    TextsStay(Context(t, cs));
    WovenTexts(t, cs);
    BetweenNone(t, LastEnd(cs), |t|);
    TextsAppend(Woven(t, cs), Between(t, LastEnd(cs), |t|));
    Nil(TextsOf(cs));
  }

  // ----- which summaries are chosen -----------------------------------------

  predicate InRange(s: BranchSummary, n: nat) {
    0 <= s.startIdx <= s.endIdx <= n
  }

  ghost predicate AllInRange(s: seq<BranchSummary>, n: nat) {
    s == [] || (AllInRange(Init(s), n) && InRange(Last(s), n))
  }

  lemma {:induction false} EachInRange(s: seq<BranchSummary>, n: nat)
    requires forall c :: c in s ==> InRange(c, n)
    ensures AllInRange(s, n)
  {
    if s != [] {
      assert forall c :: c in Init(s) ==> c in s;
      assert Last(s) in s;
      EachInRange(Init(s), n);
    }
  }

  lemma {:induction false} ChosenApart(sorted: seq<BranchSummary>, n: nat)
    requires AllInRange(sorted, n)
    ensures Apart(Chosen(sorted), n)
  {
    if sorted != [] {
      ChosenApart(Init(sorted), n);
      InitPush(Chosen(Init(sorted)), Last(sorted));
    }
  }

  /** A summary is chosen, or begins inside one that is. */
  lemma {:induction false} ChosenOrInside(sorted: seq<BranchSummary>, n: nat, k: nat)
    requires Placed(sorted, |sorted|) && k < |sorted| && AllInRange(sorted, n)
    ensures sorted[k] in Chosen(sorted) || Covered(Chosen(sorted), sorted[k].startIdx)
  {
    var cs := Chosen(Init(sorted));
    InitPush(cs, Last(sorted));
    if k < |sorted| - 1 {
      assert Placed(Init(sorted), |Init(sorted)|);
      ChosenOrInside(Init(sorted), n, k);
    } else if Last(sorted).startIdx < LastEnd(cs) {
      ChosenFrom(Init(sorted));
      var j :| 0 <= j < |Init(sorted)| && Init(sorted)[j] == Last(cs);
      assert sorted[j].startIdx <= sorted[k].startIdx;
    }
  }

  lemma {:induction false} ChosenFrom(sorted: seq<BranchSummary>)
    ensures Chosen(sorted) != [] ==> Last(Chosen(sorted)) in sorted
  {
    if sorted != [] {
      ChosenFrom(Init(sorted));
    }
  }

  // ----- building the context -----------------------------------------------

  method SortSummaries(summaries: seq<BranchSummary>) returns (sorted: seq<BranchSummary>)
    ensures sorted == ExchangeSort(summaries)
  {
    sorted := summaries;
    var i := 0;
    while i < |sorted| - 1
      invariant 0 <= i <= |sorted| == |summaries| && SortFrom(sorted, i) == ExchangeSort(summaries)
    {
      ghost var before := sorted;
      var j := i + 1;
      while j < |sorted|
        invariant i < j <= |sorted| == |summaries| && Pass(sorted, i, j) == Pass(before, i, i + 1)
      {
        if sorted[j].startIdx < sorted[i].startIdx {
          sorted := Swap(sorted, i, j);
        }
        j := j + 1;
      }
      i := i + 1;
    }
  }

  lemma {:induction false} NothingToStrip(ms: seq<Message>)
    requires forall k :: 0 <= k < |ms| ==> !ms[k].kind.ActiveToolsChange?
    ensures WithoutBookkeeping(ms) == ms
  {
    if ms != [] {
      NothingToStrip(Init(ms));
      InitLast(ms);
    }
  }

  method ExcludeBookkeeping(msgs: seq<Message>) returns (out: seq<Message>)
    ensures out == WithoutBookkeeping(msgs)
  {
    var i := 0;
    while i < |msgs| && !msgs[i].kind.ActiveToolsChange?
      invariant i <= |msgs| && forall k :: 0 <= k < i ==> !msgs[k].kind.ActiveToolsChange?
    {
      i := i + 1;
    }
    if i == |msgs| {
      NothingToStrip(msgs);
      return msgs;
    }
    out := [];
    for k := 0 to |msgs|
      invariant out == WithoutBookkeeping(Span(msgs, 0, k))
    {
      InitPush(Span(msgs, 0, k), msgs[k]);
      if !msgs[k].kind.ActiveToolsChange? {
        out := out + [msgs[k]];
      }
    }
    SpanIsSlice(msgs, 0, |msgs|);
    assert msgs[0..|msgs|] == msgs;
  }

  lemma {:induction false} SortedInRange(summaries: seq<BranchSummary>, n: nat)
    requires forall k :: 0 <= k < |summaries| ==> InRange(summaries[k], n)
    ensures AllInRange(ExchangeSort(summaries), n)
  {
    var sorted := ExchangeSort(summaries);
    SortSound(summaries, 0);
    forall c | c in sorted ensures InRange(c, n) {
      assert c in multiset(sorted);
      assert c in multiset(summaries);
    }
    EachInRange(sorted, n);
  }

  lemma SliceBetween(t: seq<Message>, i: int, j: int)
    requires 0 <= i < j <= |t|
    ensures Between(t, i, j) == t[i..j]
  {
    SpanIsSlice(t, i, j);
  }

  lemma SliceFrom(t: seq<Message>, i: int)
    requires 0 <= i < |t|
    ensures Between(t, i, |t|) == t[i..]
  {
    SpanIsSlice(t, i, |t|);
    assert t[i..|t|] == t[i..];
  }

  lemma {:induction false} WovenPush(t: seq<Message>, cs: seq<BranchSummary>, s: BranchSummary)
    ensures LastEnd(cs + [s]) == s.endIdx
    ensures Woven(t, cs + [s])
         == Woven(t, cs) + Between(t, LastEnd(cs), s.startIdx) + [NewBranchSummaryMessage(s.summary)]
  {
    InitPush(cs, s);
  }

  lemma {:induction false} ChosenPush(sorted: seq<BranchSummary>, s: BranchSummary)
    ensures s.startIdx < LastEnd(Chosen(sorted)) ==> Chosen(sorted + [s]) == Chosen(sorted)
    ensures s.startIdx >= LastEnd(Chosen(sorted)) ==> Chosen(sorted + [s]) == Chosen(sorted) + [s]
  {
    InitPush(sorted, s);
  }

  method WeaveSummaries(t: seq<Message>, sorted: seq<BranchSummary>) returns (out: seq<Message>)
    requires forall k :: 0 <= k < |sorted| ==> sorted[k].endIdx >= 0
    ensures out == Context(t, Chosen(sorted))
  {
    out := [];
    var lastEnd := 0;
    ghost var cs: seq<BranchSummary> := [];
    for k := 0 to |sorted|
      invariant cs == Chosen(Span(sorted, 0, k)) && out == Woven(t, cs) && lastEnd == LastEnd(cs) >= 0
    {
      var s := sorted[k];
      ChosenPush(Span(sorted, 0, k), s);
      if s.startIdx < lastEnd {
        continue;
      }
      WovenPush(t, cs, s);
      Nil(out);
      if lastEnd < s.startIdx && s.startIdx <= |t| {
        SliceBetween(t, lastEnd, s.startIdx);
        out := out + t[lastEnd..s.startIdx];
      }
      out := out + [NewBranchSummaryMessage(s.summary)];
      cs := cs + [s];
      lastEnd := s.endIdx;
    }
    SpanAll(sorted);
    Nil(out);
    if lastEnd < |t| {
      SliceFrom(t, lastEnd);
      out := out + t[lastEnd..];
    }
  }

  /** Exactly the uncovered conversation, with one summary for each chosen range. A
      range that ends before the transcript begins is an error. */
  method BuildLLMContext(transcript: seq<Message>, summaries: seq<BranchSummary>) returns (out: seq<Message>)
    requires forall k :: 0 <= k < |summaries| ==> summaries[k].endIdx >= 0
    ensures out == WithoutBookkeeping(Context(transcript, Chosen(ExchangeSort(summaries))))
    ensures (forall k :: 0 <= k < |summaries| ==> InRange(summaries[k], |transcript|)) ==>
              Apart(Chosen(ExchangeSort(summaries)), |transcript|)
              && out == Reference(transcript, Chosen(ExchangeSort(summaries)))
  {
    ghost var cs := Chosen(ExchangeSort(summaries));
    if |summaries| == 0 {
      SpanIsSlice(transcript, 0, |transcript|);
      assert transcript[0..|transcript|] == transcript;
      Nil(transcript);
      out := ExcludeBookkeeping(transcript);
    } else {
      var sorted := SortSummaries(summaries);
      SortSound(summaries, 0);
      forall k | 0 <= k < |sorted| ensures sorted[k].endIdx >= 0 {
        assert sorted[k] in multiset(summaries);
      }
      var woven := WeaveSummaries(transcript, sorted);
      out := ExcludeBookkeeping(woven);
    }
    if forall k :: 0 <= k < |summaries| ==> InRange(summaries[k], |transcript|) {
      SortedInRange(summaries, |transcript|);
      ChosenApart(ExchangeSort(summaries), |transcript|);
      ContextIsReference(transcript, cs);
    }
  }

  // ----- messages behind the summaries --------------------------------------

  lemma {:induction false} WovenGrows(t: seq<Message>, more: seq<Message>, cs: seq<BranchSummary>)
    requires Apart(cs, |t|)
    ensures Woven(t + more, cs) == Woven(t, cs) && 0 <= LastEnd(cs) <= |t|
  {
    if cs != [] {
      WovenGrows(t, more, Init(cs));
      var e, s := LastEnd(Init(cs)), Last(cs).startIdx;
      SpanAppend(t, more, e, s);
    }
  }

  lemma {:induction false} SpanEnd<T>(s: seq<T>, t: seq<T>, n: nat)
    requires n == |s + t|
    ensures Span(s + t, |s|, n) == t
  {
    SpanIsSlice(s + t, |s|, n);
  }

  lemma RestGrows(t: seq<Message>, more: seq<Message>, e: nat, n: nat)
    requires e <= |t| && n == |t + more|
    ensures Between(t + more, e, n) == Between(t, e, |t|) + more
  {
    SpanSplit(t + more, e, |t|, n);
    SpanAppend(t, more, e, |t|);
    SpanEnd(t, more, n);
  }

  /** Messages behind all summarized ranges stand in the context as they are, but for
      bookkeeping. */
  lemma {:induction false} ContextGrows(t: seq<Message>, more: seq<Message>, summaries: seq<BranchSummary>)
    requires forall k :: 0 <= k < |summaries| ==> InRange(summaries[k], |t|)
    ensures var cs := Chosen(ExchangeSort(summaries));
            WithoutBookkeeping(Context(t + more, cs)) == WithoutBookkeeping(Context(t, cs)) + WithoutBookkeeping(more)
  {
    var cs := Chosen(ExchangeSort(summaries));
    SortedInRange(summaries, |t|);
    ChosenApart(ExchangeSort(summaries), |t|);
    WovenGrows(t, more, cs);
    RestGrows(t, more, LastEnd(cs), |t + more|);
    Assoc(Woven(t, cs), Between(t, LastEnd(cs), |t|), more);
    WithoutAppend(Context(t, cs), more);
  }

  // ----- the cut point ------------------------------------------------------

  /** The least number of units of four bytes that hold the message; an image counts as
      4800 bytes. */
  function EstimateMessageTokens(m: Message): (n: nat)
    ensures var bytes := m.bodyBytes + m.labelBytes + 4800 * m.images; bytes <= 4 * n < bytes + 4
  {
    (m.bodyBytes + m.labelBytes + 4800 * m.images + 3) / 4
  }

  /** The estimate for the messages from i on. */
  function TokensFrom(msgs: seq<Message>, i: nat): nat
    requires i <= |msgs|
    decreases |msgs| - i
  {
    if i == |msgs| then 0 else EstimateMessageTokens(msgs[i]) + TokensFrom(msgs, i + 1)
  }

  predicate IsValidCutPoint(m: Message): (valid: bool)
    ensures valid <==> m.kind != ToolResult && m.kind != ActiveToolsChange
  {
    !m.kind.ToolResult? && !m.kind.ActiveToolsChange?
  }

  /** i is the last index from which on the messages reach the budget. */
  ghost predicate LastReaching(msgs: seq<Message>, keepRecentTokens: int, i: nat) {
    && i < |msgs| && TokensFrom(msgs, i) >= keepRecentTokens
    && forall j :: i < j < |msgs| ==> TokensFrom(msgs, j) < keepRecentTokens
  }

  ghost predicate NoValidFrom(msgs: seq<Message>, i: int, j: int) {
    forall k :: 0 <= k < |msgs| && i <= k < j ==> !IsValidCutPoint(msgs[k])
  }

  /** The nearest valid index at or after the last one that reaches the budget; that
      index itself if none is valid, and 0 if the budget is never reached. */
  method FindCutPoint(msgs: seq<Message>, keepRecentTokens: int) returns (cut: nat, ghost from: nat)
    ensures (exists i: nat :: LastReaching(msgs, keepRecentTokens, i)) ==>
              && LastReaching(msgs, keepRecentTokens, from) && from <= cut < |msgs| && NoValidFrom(msgs, from, cut)
              && (IsValidCutPoint(msgs[cut]) || (cut == from && NoValidFrom(msgs, from, |msgs|)))
    ensures !(exists i: nat :: LastReaching(msgs, keepRecentTokens, i)) ==>
              cut == 0 && forall i :: 0 <= i < |msgs| ==> TokensFrom(msgs, i) < keepRecentTokens
  {
    var tokens := 0;
    var i := |msgs|;
    while i > 0
      invariant 0 <= i <= |msgs| && tokens == TokensFrom(msgs, i)
      invariant forall j :: i <= j < |msgs| ==> TokensFrom(msgs, j) < keepRecentTokens
    {
      i := i - 1;
      tokens := tokens + EstimateMessageTokens(msgs[i]);
      if tokens >= keepRecentTokens {
        assert LastReaching(msgs, keepRecentTokens, i);
        var j := i;
        while j < |msgs|
          invariant i <= j <= |msgs| && NoValidFrom(msgs, i, j)
        {
          if IsValidCutPoint(msgs[j]) {
            return j, i;
          }
          j := j + 1;
        }
        return i, i;
      }
    }
    return 0, 0;
  }
}
