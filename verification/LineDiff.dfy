/** The line diff: tokenizing both texts, searching a shortest edit script and
    turning its path into runs of unchanged, added and removed lines. */
module LineDiff {
  import opened Text
  import opened EditDistance
  import opened MyersSearch
  import opened ChosenPath

  datatype Component = Component(kind: Kind, value: Bytes)

  // ----- what a line diff is ------------------------------------------------

  /** The lines of all runs but those of one kind, in order. */
  ghost function LinesBut(parts: seq<Component>, skip: Kind): seq<Bytes> {
    if parts == [] then [] else LinesBut(Init(parts), skip) + RunBut(Last(parts), skip)
  }

  ghost function RunBut(p: Component, skip: Kind): seq<Bytes> {
    if p.kind == skip then [] else Lines(p.value)
  }

  /** The bytes of all runs but those of one kind, in order. */
  ghost function TextBut(parts: seq<Component>, skip: Kind): Bytes {
    if parts == [] then [] else
    TextBut(Init(parts), skip) + if Last(parts).kind == skip then [] else Last(parts).value
  }

  /** The lines before and after the change, as the diff tells them. */
  ghost function OldLines(parts: seq<Component>): seq<Bytes> { LinesBut(parts, Added) }
  ghost function NewLines(parts: seq<Component>): seq<Bytes> { LinesBut(parts, Removed) }
  ghost function OldText(parts: seq<Component>): Bytes { TextBut(parts, Added) }
  ghost function NewText(parts: seq<Component>): Bytes { TextBut(parts, Removed) }

  /** Added plus removed lines. */
  ghost function Changes(parts: seq<Component>): nat {
    if parts == [] then 0 else Changes(Init(parts)) + RunCost(Last(parts))
  }

  ghost function RunCost(p: Component): nat {
    if p.kind == Same then 0 else |Lines(p.value)|
  }

  lemma {:induction false} LinesButPush(parts: seq<Component>, p: Component, skip: Kind)
    ensures LinesBut(parts + [p], skip) == LinesBut(parts, skip) + RunBut(p, skip)
    ensures Changes(parts + [p]) == Changes(parts) + RunCost(p)
  {
    InitPush(parts, p);
  }

  /** Any sequence of runs that tells how to get from one text to the other. */
  ghost predicate IsDiff(parts: seq<Component>, oldText: Bytes, newText: Bytes) {
    OldLines(parts) == Lines(oldText) && NewLines(parts) == Lines(newText)
  }

  /** No empty run, and neighbouring runs differ in kind. */
  ghost predicate Neat(parts: seq<Component>) {
    && (forall i :: 0 <= i < |parts| ==> parts[i].value != [])
    && (forall i :: 0 < i < |parts| ==> parts[i - 1].kind != parts[i].kind)
  }

  /** No added run is directly followed by a removed one. */
  ghost predicate RemovedFirst(parts: seq<Component>) {
    forall i :: 0 < i < |parts| ==> !(parts[i - 1].kind == Added && parts[i].kind == Removed)
  }

  /** The first run is unchanged exactly as far as the two line lists agree. */
  ghost predicate OpensWithCommonPrefix(parts: seq<Component>, a: seq<Bytes>, b: seq<Bytes>) {
    parts != [] ==>
      var n := if parts[0].kind == Same then |Lines(parts[0].value)| else 0;
      Stopped(a, b, n, n)
  }

  ghost function LineDistance(oldText: Bytes, newText: Bytes): nat {
    var a, b := Lines(oldText), Lines(newText);
    Dist(a, b, |a|, |b|)
  }

  /** The texts a diff speaks of are recovered exactly by joining its runs. */
  lemma DiffJoinsBack(parts: seq<Component>, oldText: Bytes, newText: Bytes)
    requires IsDiff(parts, oldText, newText)
    ensures OldText(parts) == oldText && NewText(parts) == newText
  {
    TextOfLines(parts, Added);
    TextOfLines(parts, Removed);
    LinesSound(oldText);
    LinesSound(newText);
  }

  lemma {:induction false} TextOfLines(parts: seq<Component>, skip: Kind)
    ensures TextBut(parts, skip) == Concat(LinesBut(parts, skip))
  {
    if parts != [] {
      TextOfLines(Init(parts), skip);
      LinesSound(Last(parts).value);
      ConcatAppend(LinesBut(Init(parts), skip), RunBut(Last(parts), skip));
    }
  }

  /** Every diff of the two texts, neat or not, has at least LineDistance changes. */
  lemma {:induction false} NoDiffIsShorter(rival: seq<Component>, oldText: Bytes, newText: Bytes)
    requires IsDiff(rival, oldText, newText)
    ensures Changes(rival) >= LineDistance(oldText, newText)
  {
    PrefixCost(rival, Lines(oldText), Lines(newText), |Lines(oldText)|, |Lines(newText)|);
  }

  lemma AppendPrefix<T>(s: seq<T>, run: seq<T>, a: seq<T>, end: nat)
    requires s + run <= a && end == |s| + |run|
    ensures s <= a && end <= |a| && a[|s|..end] == run
  {
    assert a[|s|..end] == (s + run)[|s|..];
  }

  lemma MatchRuns<T>(a: seq<T>, b: seq<T>, x: nat, y: nat, run: seq<T>, x': nat, y': nat)
    requires x <= x' <= |a| && y <= y' <= |b| && a[x..x'] == run && b[y..y'] == run
    ensures Matches(a, b, x, y, |run|)
  {
    forall i {:trigger a[i]} | x <= i < x' ensures a[i] == b[i - x + y] {
      assert a[i] == run[i - x] == b[i - x + y];
    }
  }

  lemma {:induction false} StepSame<T>(a: seq<T>, b: seq<T>, x: nat, y: nat, n: nat, x': nat, y': nat)
    requires Matches(a, b, x, y, n) && x' == x + n && y' == y + n
    ensures Dist(a, b, x', y') == Dist(a, b, x, y)
  {
    DistMatch(a, b, x, y, n);
  }

  lemma {:induction false} StepChanged<T>(a: seq<T>, b: seq<T>, x: nat, y: nat, m: nat, n: nat, x': nat, y': nat)
    requires x' == x + m <= |a| && y' == y + n <= |b|
    ensures Dist(a, b, x', y') <= Dist(a, b, x, y) + m + n
  {
    DistAdvance(a, b, x, y, m, n);
  }

  /** One run more on both sides costs at most its added or removed tokens. */
  lemma {:induction false} StepCost<T>(a: seq<T>, b: seq<T>, x: nat, y: nat, n: nat, kind: Kind, x': nat, y': nat)
    requires x' <= |a| && y' <= |b| && (kind == Same ==> Matches(a, b, x, y, n))
    requires x' == (if kind == Added then x else x + n) && y' == if kind == Removed then y else y + n
    ensures Dist(a, b, x', y') <= Dist(a, b, x, y) + if kind == Same then 0 else n
  {
    match kind
    case Same => StepSame(a, b, x, y, n, x', y');
    case Added => StepChanged(a, b, x, y, 0, n, x', y');
    case Removed => StepChanged(a, b, x, y, n, 0, x', y');
  }

  lemma {:induction false} PrefixCost(parts: seq<Component>, a: seq<Bytes>, b: seq<Bytes>, x: nat, y: nat)
    requires OldLines(parts) <= a && NewLines(parts) <= b && x == |OldLines(parts)| && y == |NewLines(parts)|
    ensures x <= |a| && y <= |b| && Dist(a, b, x, y) <= Changes(parts)
  {
    if parts != [] {
      var init, p := Init(parts), Last(parts);
      var x0, y0 := |OldLines(init)|, |NewLines(init)|;
      AppendPrefix(OldLines(init), RunBut(p, Added), a, x);
      AppendPrefix(NewLines(init), RunBut(p, Removed), b, y);
      PrefixCost(init, a, b, x0, y0);
      if p.kind == Same {
        MatchRuns(a, b, x0, y0, Lines(p.value), x, y);
      }
      StepCost(a, b, x0, y0, |Lines(p.value)|, p.kind, x, y);
    }
  }

  /** The distance is what the longest common subsequence of lines leaves over. */
  lemma DistanceIsLcs(oldText: Bytes, newText: Bytes) returns (lcs: seq<Bytes>)
    ensures Subseq(lcs, Lines(oldText)) && Subseq(lcs, Lines(newText))
    ensures forall s :: Subseq(s, Lines(oldText)) && Subseq(s, Lines(newText)) ==> |s| <= |lcs|
    ensures LineDistance(oldText, newText) == |Lines(oldText)| + |Lines(newText)| - 2 * |lcs|
  {
    var a, b := Lines(oldText), Lines(newText);
    assert a[..|a|] == a && b[..|b|] == b;
    lcs := CommonSubseqExists(a, b, |a|, |b|);
    forall s | Subseq(s, a) && Subseq(s, b) ensures |s| <= |lcs| {
      CommonSubseqBound(s, a, b, |a|, |b|);
    }
  }

  // ----- tokens -------------------------------------------------------------

  /** Even positions hold fields, odd ones separators: each pair glued. */
  ghost function Glued(parts: seq<Bytes>): seq<Bytes> {
    if |parts| < 2 then [] else
    Glued(Init(Init(parts))) + [Last(Init(parts)) + Last(parts)]
  }

  /** A separator is "\n", or "\r\n" where the newline follows a "\r". */
  ghost predicate Separates(field: Bytes, sep: Bytes) {
    NoNL(field) && (sep == [CR, NL] || (sep == [NL] && (field != [] ==> Last(field) != CR)))
  }

  ghost predicate Separated(parts: seq<Bytes>) {
    |parts| >= 2 ==> Separates(Last(Init(parts)), Last(parts)) && Separated(Init(Init(parts)))
  }

  lemma {:induction false} GluedPush(parts: seq<Bytes>, field: Bytes, sep: Bytes)
    ensures Glued(parts + [field, sep]) == Glued(parts) + [field + sep]
    ensures Separates(field, sep) && Separated(parts) ==> Separated(parts + [field, sep])
  {
    assert parts + [field, sep] == (parts + [field]) + [sep];
    InitPush(parts + [field], sep);
    InitPush(parts, field);
  }

  /** The field and the separator that a newline at i ends. */
  function FieldAt(s: Bytes, start: nat, i: nat): seq<Bytes>
    requires start <= i < |s|
  {
    if i > start && s[i - 1] == CR then [s[start..i - 1], [CR, NL]] else [s[start..i], [NL]]
  }

  lemma SeparatorAt(s: Bytes, start: nat, i: nat, pair: seq<Bytes>)
    requires start <= i < |s| && s[i] == NL && NoNL(s[start..i]) && pair == FieldAt(s, start, i)
    ensures |pair| == 2 && pair[0] + pair[1] == s[start..i + 1] && Separates(pair[0], pair[1])
  {
    SliceTo(s, start, i);
    if i > start && s[i - 1] == CR {
      var field := pair[0];
      SliceTo(s, start, i - 1);
      InitPush(field, CR);
      assert [CR] + [NL] == [CR, NL];
      Assoc(field, [CR], [NL]);
      forall j | 0 <= j < |field| ensures field[j] != NL { assert field[j] == s[start..i][j]; }
    }
  }

  /** The parts of s up to i, but for the open field. */
  function PartsTo(s: Bytes, i: nat): seq<Bytes>
    requires i <= |s|
  {
    if i == 0 then []
    else if s[i - 1] == NL then PartsTo(s, i - 1) + FieldAt(s, OpenStart(s, i - 1), i - 1)
    else PartsTo(s, i - 1)
  }

  /** The parts come in pairs that glue to the lines. */
  ghost predicate Pairs(parts: seq<Bytes>, lines: seq<Bytes>) {
    |parts| % 2 == 0 && Separated(parts) && Glued(parts) == lines
  }

  lemma PairPush(parts: seq<Bytes>, lines: seq<Bytes>, pair: seq<Bytes>, line: Bytes)
    requires Pairs(parts, lines) && |pair| == 2 && Separates(pair[0], pair[1]) && line == pair[0] + pair[1]
    ensures Pairs(parts + pair, lines + [line])
  {
    assert pair == [pair[0], pair[1]];
    GluedPush(parts, pair[0], pair[1]);
  }

  lemma {:induction false} PartsSound(s: Bytes, i: nat)
    requires i <= |s|
    ensures Pairs(PartsTo(s, i), LinesTo(s, i))
  {
    if i > 0 {
      var j := i - 1;
      PartsSound(s, j);
      if s[j] == NL {
        var start := OpenStart(s, j);
        var pair := FieldAt(s, start, j);
        ScanCuts(s, j);
        OpenHasNoNL(s, start, j, s[start..j]);
        SeparatorAt(s, start, j, pair);
        PairPush(PartsTo(s, j), LinesTo(s, j), pair, s[start..i]);
      }
    }
  }

  /** All parts of s: pairs that glue to lines, and the rest. */
  ghost predicate IsSplit(s: Bytes, parts: seq<Bytes>) {
    && |parts| % 2 == 1 && NoNL(Last(parts)) && Separated(Init(parts))
    && Lines(s) == Glued(Init(parts)) + Rest(Last(parts))
  }

  lemma {:induction false} OpenField(s: Bytes, rest: Bytes)
    requires rest == s[OpenStart(s, |s|)..]
    ensures NoNL(rest)
  {
    ScanCuts(s, |s|);
    OpenHasNoNL(s, OpenStart(s, |s|), |s|, rest);
  }

  lemma {:induction false} SplitDone(s: Bytes, parts: seq<Bytes>, lines: seq<Bytes>, rest: Bytes, all: seq<Bytes>)
    requires Pairs(parts, lines) && NoNL(rest) && Lines(s) == lines + Rest(rest) && all == parts + [rest]
    ensures IsSplit(s, all)
  {
    assert Init(all) == parts && Last(all) == rest;
  }

  /** The fields and separators of value.split(/(\n|\r\n)/). */
  method SplitOnNewlines(value: Bytes) returns (parts: seq<Bytes>)
    ensures IsSplit(value, parts)
  {
    parts := [];
    var start := 0;
    for i := 0 to |value|
      invariant start == OpenStart(value, i) && parts == PartsTo(value, i)
    {
      if value[i] != NL {
        continue;
      }
      if i > start && value[i - 1] == CR {
        parts := parts + [value[start..i - 1], [CR, NL]];
      } else {
        parts := parts + [value[start..i], [NL]];
      }
      start := i + 1;
    }
    ghost var pairs := parts;
    parts := parts + [value[start..]];
    PartsSound(value, |value|);
    ScanDone(value);
    OpenField(value, value[start..]);
    SplitDone(value, pairs, LinesTo(value, |value|), value[start..], parts);
  }

  lemma GluedUpto(parts: seq<Bytes>, i: nat)
    requires 1 <= i < |parts|
    ensures Glued(parts[..i + 1]) == Glued(parts[..i - 1]) + [parts[i - 1] + parts[i]]
  {
    var p := parts[..i + 1];
    assert Init(p) == parts[..i] && Init(Init(p)) == parts[..i - 1];
  }

  /** The tokens made from the first i parts: a field waits for its separator. */
  ghost function TokensUpto(parts: seq<Bytes>, i: nat): seq<Bytes>
    requires i <= |parts|
  {
    if i % 2 == 0 then Glued(parts[..i]) else Glued(parts[..i - 1]) + [parts[i - 1]]
  }

  lemma TokensStep(parts: seq<Bytes>, i: nat)
    requires i < |parts|
    ensures var t := TokensUpto(parts, i);
            if i % 2 == 0 then TokensUpto(parts, i + 1) == t + [parts[i]]
            else t != [] && TokensUpto(parts, i + 1) == Init(t) + [Last(t) + parts[i]]
  {
    if i % 2 == 1 {
      GluedUpto(parts, i);
      InitPush(Glued(parts[..i - 1]), parts[i - 1]);
    }
  }

  /** All tokens, whether or not an empty last field was dropped. */
  lemma TokensDone(all: seq<Bytes>, parts: seq<Bytes>)
    requires |all| % 2 == 1 && parts == if Last(all) == [] then Init(all) else all
    ensures TokensUpto(parts, |parts|) == Glued(Init(all)) + Rest(Last(all))
  {
    Nil(Glued(Init(all)));
    assert parts[..|parts|] == parts;
  }

  lemma SetLast<T>(s: seq<T>, x: T)
    requires s != []
    ensures s[|s| - 1 := x] == Init(s) + [x]
  {
  }

  method TokenizeLines(value: Bytes) returns (lines: seq<Bytes>)
    ensures lines == Lines(value)
  {
    var parts := SplitOnNewlines(value);
    ghost var all := parts;
    if |parts| > 0 && Last(parts) == [] {
      parts := Init(parts);
    }
    TokensDone(all, parts);
    lines := [];
    for i := 0 to |parts|
      invariant lines == TokensUpto(parts, i)
    {
      TokensStep(parts, i);
      if i % 2 == 1 {
        SetLast(lines, Last(lines) + parts[i]);
        lines := lines[|lines| - 1 := lines[|lines| - 1] + parts[i]];
      } else {
        lines := lines + [parts[i]];
      }
    }
  }

  // ----- from the path to the runs ------------------------------------------

  ghost function OldEnd(c: Chain): nat {
    match c
    case Root => 0
    case Link(n, kind, p) => OldEnd(p) + if kind == Added then 0 else n
  }

  ghost function NewEnd(c: Chain): nat {
    match c
    case Root => 0
    case Link(n, kind, p) => NewEnd(p) + if kind == Removed then 0 else n
  }

  lemma {:induction false} ChainEnds(c: Chain, a: seq<Bytes>, b: seq<Bytes>, x: int, y: int)
    requires ChainOK(c, a, b, x, y)
    ensures OldEnd(c) == x && NewEnd(c) == y
  {
    match c
    case Root =>
    case Link(n, kind, p) =>
      ChainEnds(p, a, b, if kind == Added then x else x - n, if kind == Removed then y else y - n);
  }

  /** The text of the run a link stands for. */
  ghost function RunValue(c: Chain, a: seq<Bytes>, b: seq<Bytes>): Bytes
    requires c.Link? && OldEnd(c) <= |a| && NewEnd(c) <= |b|
  {
    if c.kind == Removed then Concat(a[OldEnd(c.previous)..OldEnd(c)]) else Concat(b[NewEnd(c.previous)..NewEnd(c)])
  }

  ghost function ChainParts(c: Chain, a: seq<Bytes>, b: seq<Bytes>): (parts: seq<Component>)
    requires OldEnd(c) <= |a| && NewEnd(c) <= |b|
    ensures |parts| == |Links(c)|
  {
    match c
    case Root => []
    case Link(n, kind, p) => ChainParts(p, a, b) + [Component(kind, RunValue(c, a, b))]
  }

  /** The links of a chain, first run first. */
  ghost function Links(c: Chain): seq<Chain> {
    match c
    case Root => []
    case Link(_, _, p) => Links(p) + [c]
  }

  /** The path up to link i. */
  ghost function Upto(links: seq<Chain>, i: nat): Chain
    requires i <= |links|
  {
    if i == 0 then Root else links[i - 1]
  }

  lemma {:induction false} LinksFollow(c: Chain, i: nat)
    requires i < |Links(c)|
    ensures Links(c)[i].Link? && Links(c)[i].previous == Upto(Links(c), i)
    ensures OldEnd(Links(c)[i]) <= OldEnd(c) && NewEnd(Links(c)[i]) <= NewEnd(c)
    ensures c.Link? ==> Upto(Links(c), |Links(c)|) == c
    decreases c
  {
    var p := c.previous;
    var ls := Links(p);
    assert Upto(Links(c), |ls|) == Upto(ls, |ls|);
    if p.Link? {
      LinksFollow(p, |ls| - 1);
    }
    if i < |ls| {
      LinksFollow(p, i);
    }
  }

  /** The links from the origin on: collected from the tip, then reversed. */
  method ChainInOrder(last: Chain) returns (chain: seq<Chain>)
    ensures chain == Links(last)
  {
    chain := [];
    var c := last;
    ghost var links, n := Links(last), |Links(last)|;
    while c != Root
      invariant |chain| <= n && Links(c) == links[..n - |chain|]
      invariant forall m :: 0 <= m < |chain| ==> chain[m] == links[n - 1 - m]
      decreases c
    {
      chain := chain + [c];
      c := c.previous;
    }
    var i, j := 0, |chain| - 1;
    while i < j
      invariant 0 <= i && j == n - 1 - i && |chain| == n
      invariant forall m :: 0 <= m < n ==> chain[m] == links[if i <= m <= j then n - 1 - m else m]
    {
      chain := chain[i := chain[j]][j := chain[i]];
      i, j := i + 1, j - 1;
    }
  }

  method BuildDiffValues(last: Chain, newTokens: seq<Bytes>, oldTokens: seq<Bytes>) returns (components: seq<Component>)
    requires OldEnd(last) <= |oldTokens| && NewEnd(last) <= |newTokens|
    ensures components == ChainParts(last, oldTokens, newTokens)
  {
    var chain := ChainInOrder(last);
    components := [];
    var newPos, oldPos := 0, 0;
    ghost var done := Root;
    for n := 0 to |chain|
      invariant done == Upto(chain, n) && oldPos == OldEnd(done) && newPos == NewEnd(done)
      invariant oldPos <= |oldTokens| && newPos <= |newTokens|
      invariant components == ChainParts(done, oldTokens, newTokens)
    {
      var l := chain[n];
      LinksFollow(last, n);
      assert l.previous == done;
      ghost var value := RunValue(l, oldTokens, newTokens);
      if l.kind != Removed {
        components := components + [Component(l.kind, Concat(newTokens[newPos..newPos + l.count]))];
        newPos := newPos + l.count;
        if l.kind != Added {
          oldPos := oldPos + l.count;
        }
      } else {
        components := components + [Component(l.kind, Concat(oldTokens[oldPos..oldPos + l.count]))];
        oldPos := oldPos + l.count;
      }
      assert components == ChainParts(done, oldTokens, newTokens) + [Component(l.kind, value)];
      done := l;
    }
    if last.Link? {
      LinksFollow(last, 0);
    }
  }

  lemma SliceStep<T>(a: seq<T>, x0: nat, x: nat)
    requires x0 <= x <= |a|
    ensures a[..x] == a[..x0] + a[x0..x]
  {
  }

  lemma SlicesMatch<T>(a: seq<T>, b: seq<T>, x: nat, y: nat, n: nat)
    requires Matches(a, b, x, y, n)
    ensures a[x..x + n] == b[y..y + n]
  {
  }

  lemma {:induction false} SameRun<T>(c: Chain, a: seq<T>, b: seq<T>, x: int, y: int)
    requires c.Link? && c.kind == Same && ChainOK(c, a, b, x, y) && x == OldEnd(c) && y == NewEnd(c)
    ensures a[OldEnd(c.previous)..x] == b[NewEnd(c.previous)..y]
  {
    SlicesMatch(a, b, x - c.count, y - c.count, c.count);
  }

  /** The lines of a link's run. */
  lemma {:induction false} RunLines(c: Chain, oldText: Bytes, newText: Bytes)
    requires c.Link? && OldEnd(c) <= |Lines(oldText)| && NewEnd(c) <= |Lines(newText)|
    requires c.kind == Same ==>
               Lines(oldText)[OldEnd(c.previous)..OldEnd(c)] == Lines(newText)[NewEnd(c.previous)..NewEnd(c)]
    ensures var ls := Lines(RunValue(c, Lines(oldText), Lines(newText)));
            && |ls| == c.count
            && (c.kind != Added ==> ls == Lines(oldText)[OldEnd(c.previous)..OldEnd(c)])
            && (c.kind != Removed ==> ls == Lines(newText)[NewEnd(c.previous)..NewEnd(c)])
  {
    if c.kind == Removed {
      LinesOfSlice(oldText, OldEnd(c.previous), OldEnd(c));
    } else {
      LinesOfSlice(newText, NewEnd(c.previous), NewEnd(c));
    }
  }

  lemma {:induction false} LinkLines(c: Chain, oldText: Bytes, newText: Bytes, x: int, y: int)
    requires c.Link? && ChainOK(c, Lines(oldText), Lines(newText), x, y) && x == OldEnd(c) && y == NewEnd(c)
    ensures var ls := Lines(RunValue(c, Lines(oldText), Lines(newText)));
            && |ls| == c.count > 0
            && (c.kind != Added ==> ls == Lines(oldText)[OldEnd(c.previous)..x])
            && (c.kind != Removed ==> ls == Lines(newText)[NewEnd(c.previous)..y])
  {
    if c.kind == Same {
      SameRun(c, Lines(oldText), Lines(newText), x, y);
    }
    RunLines(c, oldText, newText);
  }

  lemma {:induction false} PreviousOK<T>(c: Chain, a: seq<T>, b: seq<T>, x: int, y: int, x0: int, y0: int)
    requires c.Link? && ChainOK(c, a, b, x, y) && x == OldEnd(c) && y == NewEnd(c)
    requires x0 == OldEnd(c.previous) && y0 == NewEnd(c.previous)
    ensures 0 <= x0 <= x && 0 <= y0 <= y && ChainOK(c.previous, a, b, x0, y0)
  {
    assert x0 == if c.kind == Added then x else x - c.count;
    assert y0 == if c.kind == Removed then y else y - c.count;
  }

  lemma {:induction false} SidePush(ps: seq<Component>, run: Component, skip: Kind, a: seq<Bytes>, u: nat, x: nat)
    requires u <= x <= |a| && LinesBut(ps, skip) == a[..u]
    requires if run.kind == skip then u == x else Lines(run.value) == a[u..x]
    ensures LinesBut(ps + [run], skip) == a[..x]
  {
    LinesButPush(ps, run, skip);
    SliceStep(a, u, x);
  }

  lemma {:induction false} RunPush(ps: seq<Component>, run: Component, a: seq<Bytes>, b: seq<Bytes>, u: nat, v: nat,
                                   x: nat, y: nat)
    requires u <= x <= |a| && v <= y <= |b| && OldLines(ps) == a[..u] && NewLines(ps) == b[..v]
    requires if run.kind == Added then u == x else Lines(run.value) == a[u..x]
    requires if run.kind == Removed then v == y else Lines(run.value) == b[v..y]
    ensures OldLines(ps + [run]) == a[..x] && NewLines(ps + [run]) == b[..y]
    ensures Changes(ps + [run]) == Changes(ps) + if run.kind == Same then 0 else |Lines(run.value)|
  {
    SidePush(ps, run, Added, a, u, x);
    SidePush(ps, run, Removed, b, v, y);
    LinesButPush(ps, run, Added);
  }

  /** A genuine path spells a diff with as many changes as the path costs. */
  lemma {:induction false} ChainPartsDiff(c: Chain, oldText: Bytes, newText: Bytes, x: int, y: int)
    requires ChainOK(c, Lines(oldText), Lines(newText), x, y) && x == OldEnd(c) && y == NewEnd(c)
    ensures OldLines(ChainParts(c, Lines(oldText), Lines(newText))) == Lines(oldText)[..x]
    ensures NewLines(ChainParts(c, Lines(oldText), Lines(newText))) == Lines(newText)[..y]
    ensures Changes(ChainParts(c, Lines(oldText), Lines(newText))) == Cost(c)
  {
    if c.Link? {
      var a, b, p := Lines(oldText), Lines(newText), c.previous;
      PreviousOK(c, a, b, x, y, OldEnd(p), NewEnd(p));
      ChainPartsDiff(p, oldText, newText, OldEnd(p), NewEnd(p));
      LinkLines(c, oldText, newText, x, y);
      RunPush(ChainParts(p, a, b), Component(c.kind, RunValue(c, a, b)), a, b, OldEnd(p), NewEnd(p), x, y);
    }
  }

  lemma NeatPush(parts: seq<Component>, run: Component)
    requires Neat(parts) && run.value != [] && (parts != [] ==> Last(parts).kind != run.kind)
    ensures Neat(parts + [run]) && Last(parts + [run]) == run
  {
  }

  lemma OpensPush(parts: seq<Component>, run: Component, a: seq<Bytes>, b: seq<Bytes>)
    requires OpensWithCommonPrefix(parts, a, b)
    requires parts == [] ==> var n := if run.kind == Same then |Lines(run.value)| else 0; Stopped(a, b, n, n)
    ensures OpensWithCommonPrefix(parts + [run], a, b)
  {
    assert (parts + [run])[0] == if parts == [] then run else parts[0];
  }

  /** The first link stops where the texts first differ. */
  lemma {:induction false} FirstLinkStops<T>(c: Chain, a: seq<T>, b: seq<T>, x: int, y: int)
    requires c.Link? && c.previous.Root? && ChainOK(c, a, b, x, y)
    ensures var n := if c.kind == Same then c.count else 0; Stopped(a, b, n, n)
  {
    if c.kind == Same {
      assert ChainOK(c.previous, a, b, x - c.count, y - c.count);
    }
  }

  /** ... and a neat one, that opens with the longest common prefix. */
  lemma {:induction false} ChainPartsNeat(c: Chain, oldText: Bytes, newText: Bytes, x: int, y: int)
    requires ChainOK(c, Lines(oldText), Lines(newText), x, y) && x == OldEnd(c) && y == NewEnd(c)
    ensures var parts := ChainParts(c, Lines(oldText), Lines(newText));
            && Neat(parts) && OpensWithCommonPrefix(parts, Lines(oldText), Lines(newText))
            && (c.Link? ==> Last(parts).kind == c.kind)
  {
    if c.Link? {
      var a, b, p := Lines(oldText), Lines(newText), c.previous;
      PreviousOK(c, a, b, x, y, OldEnd(p), NewEnd(p));
      ChainPartsNeat(p, oldText, newText, OldEnd(p), NewEnd(p));
      LinkLines(c, oldText, newText, x, y);
      if p.Root? {
        FirstLinkStops(c, a, b, x, y);
      }
      var run := Component(c.kind, RunValue(c, a, b));
      NeatPush(ChainParts(p, a, b), run);
      OpensPush(ChainParts(p, a, b), run, a, b);
    }
  }

  lemma LeadsPush(parts: seq<Component>, run: Component)
    requires RemovedFirst(parts) && (parts != [] ==> !(Last(parts).kind == Added && run.kind == Removed))
    ensures RemovedFirst(parts + [run]) && Last(parts + [run]) == run
  {
  }

  lemma {:induction false} ChainPartsLead(c: Chain, a: seq<Bytes>, b: seq<Bytes>)
    requires RemovalsLead(c) && OldEnd(c) <= |a| && NewEnd(c) <= |b|
    ensures RemovedFirst(ChainParts(c, a, b))
    ensures if c.Link? then ChainParts(c, a, b) != [] && Last(ChainParts(c, a, b)).kind == c.kind
            else ChainParts(c, a, b) == []
  {
    if c.Link? {
      ChainPartsLead(c.previous, a, b);
      LeadsPush(ChainParts(c.previous, a, b), Component(c.kind, RunValue(c, a, b)));
    }
  }

  /** The path spells the diff. */
  ghost predicate Spells(c: Chain, parts: seq<Component>, a: seq<Bytes>, b: seq<Bytes>) {
    Best(c, a, b) && OldEnd(c) <= |a| && NewEnd(c) <= |b| && parts == ChainParts(c, a, b)
  }

  /** The least diff in which each line is added that can be, unless removing one gets
      further in the search. */
  ghost predicate ChosenDiff(parts: seq<Component>, oldText: Bytes, newText: Bytes) {
    exists c :: Spells(c, parts, Lines(oldText), Lines(newText))
  }

  /** There is no choice: two texts have one such diff. */
  lemma ChosenDiffUnique(parts: seq<Component>, other: seq<Component>, oldText: Bytes, newText: Bytes)
    requires ChosenDiff(parts, oldText, newText) && ChosenDiff(other, oldText, newText)
    ensures parts == other
  {
    var a, b := Lines(oldText), Lines(newText);
    var c :| Spells(c, parts, a, b);
    var d :| Spells(d, other, a, b);
    OneBest(c, d, a, b);
  }

  /** A least line diff. The bound on the line counts is the search's stand-in for
      infinity. */
  method ComputeLineDiff(oldContent: Bytes, newContent: Bytes) returns (parts: seq<Component>)
    requires |Lines(oldContent)| <= SENTINEL && |Lines(newContent)| <= SENTINEL
    ensures IsDiff(parts, oldContent, newContent) && Neat(parts)
    ensures OldText(parts) == oldContent && NewText(parts) == newContent
    ensures Changes(parts) == LineDistance(oldContent, newContent)
    ensures forall rival :: IsDiff(rival, oldContent, newContent) ==> Changes(parts) <= Changes(rival)
    ensures OpensWithCommonPrefix(parts, Lines(oldContent), Lines(newContent))
    ensures RemovedFirst(parts) && ChosenDiff(parts, oldContent, newContent)
  {
    var oldTokens := TokenizeLines(oldContent);
    var newTokens := TokenizeLines(newContent);
    var last := Search(oldTokens, newTokens);
    ChainEnds(last, oldTokens, newTokens, |oldTokens|, |newTokens|);
    ChainPartsDiff(last, oldContent, newContent, |oldTokens|, |newTokens|);
    ChainPartsNeat(last, oldContent, newContent, |oldTokens|, |newTokens|);
    RemovedAhead(last, oldTokens, newTokens, |oldTokens|, |newTokens|);
    ChainPartsLead(last, oldTokens, newTokens);
    parts := BuildDiffValues(last, newTokens, oldTokens);
    assert Spells(last, parts, oldTokens, newTokens);
    assert oldTokens[..|oldTokens|] == oldTokens && newTokens[..|newTokens|] == newTokens;
    DiffJoinsBack(parts, oldContent, newContent);
    forall rival | IsDiff(rival, oldContent, newContent) ensures Changes(parts) <= Changes(rival) {
      NoDiffIsShorter(rival, oldContent, newContent);
    }
  }
}
