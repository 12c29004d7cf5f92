/** Locating edits in a text, exactly or after normalizing both, and applying all of
    them or none. */
module EditEngine {
  import opened Text
  import opened LineEndings
  import opened EditSplice
  import opened EditOverlay

  datatype Edit = Edit(oldText: Bytes, newText: Bytes)

  // ----- searching ----------------------------------------------------------

  predicate OccursAt(s: Bytes, p: Bytes, i: int) {
    0 <= i && i + |p| <= |s| && s[i..i + |p|] == p
  }

  /** The first place from i on where p occurs, or -1. */
  function IndexFrom(s: Bytes, p: Bytes, i: nat): (r: int)
    requires i <= |s|
    ensures r == -1 || (i <= r && OccursAt(s, p, r))
    ensures forall j :: i <= j && (r == -1 || j < r) ==> !OccursAt(s, p, j)
    decreases |s| - i
  {
    if i + |p| > |s| then -1
    else if OccursAt(s, p, i) then i
    else if i == |s| then -1
    else IndexFrom(s, p, i + 1)
  }

  /** strings.Index. */
  function Index(s: Bytes, p: Bytes): int {
    IndexFrom(s, p, 0)
  }

  function CountFrom(s: Bytes, p: Bytes, i: nat): nat
    requires p != [] && i <= |s|
    decreases |s| - i
  {
    var j := IndexFrom(s, p, i);
    if j < 0 then 0 else 1 + CountFrom(s, p, j + |p|)
  }

  /** strings.Count: occurrences that do not overlap, and for an empty p the gaps
      between characters. */
  function Count(s: Bytes, p: Bytes): nat {
    if p == [] then |s| + 1 else CountFrom(s, p, 0)
  }

  /** No two occurrences stand apart; overlapping ones may exist. */
  ghost predicate NoneApart(s: Bytes, p: Bytes) {
    forall i, j :: OccursAt(s, p, i) && OccursAt(s, p, j) ==> j < i + |p|
  }

  /** Counting finds at most one occurrence exactly if no two stand apart. */
  lemma CountsOnce(s: Bytes, p: Bytes)
    requires p != []
    ensures Count(s, p) <= 1 <==> NoneApart(s, p)
  {
    var i := IndexFrom(s, p, 0);
    if i >= 0 {
      var j := IndexFrom(s, p, i + |p|);
      assert Count(s, p) == 1 + CountFrom(s, p, i + |p|);
      if j >= 0 {
        assert OccursAt(s, p, i) && OccursAt(s, p, j);
      } else {
        assert forall k :: OccursAt(s, p, k) ==> i <= k < i + |p|;
      }
    } else {
      assert forall k :: !OccursAt(s, p, k);
    }
  }

  /** Places from i on at which p occurs, none reaching into the next. */
  ghost predicate ApartFrom(s: Bytes, p: Bytes, places: seq<int>, i: int) {
    places == [] || (i <= places[0] && OccursAt(s, p, places[0]) && ApartFrom(s, p, places[1..], places[0] + |p|))
  }

  lemma {:induction false} ApartEarlier(s: Bytes, p: Bytes, places: seq<int>, i: int, j: int)
    requires ApartFrom(s, p, places, i) && j <= i
    ensures ApartFrom(s, p, places, j)
  {
  }

  lemma {:induction false} CountNext(s: Bytes, p: Bytes, i: nat, at: int) returns (j: nat, next: nat)
    requires p != [] && i <= |s| && i <= at && OccursAt(s, p, at)
    ensures i <= j <= at && next == j + |p| <= |s| && CountFrom(s, p, i) == 1 + CountFrom(s, p, next)
  {
    j := IndexFrom(s, p, i);
    next := j + |p|;
  }

  /** The count is the largest number of occurrences apart from each other. */
  lemma {:induction false} CountIsMost(s: Bytes, p: Bytes, places: seq<int>, i: nat)
    requires p != [] && i <= |s| && ApartFrom(s, p, places, i)
    ensures |places| <= CountFrom(s, p, i)
    decreases |places|
  {
    if places != [] {
      var rest := places[1..];
      var j, next := CountNext(s, p, i, places[0]);
      ApartEarlier(s, p, rest, places[0] + |p|, next);
      CountIsMost(s, p, rest, next);
      assert |places| == 1 + |rest|;
    }
  }

  lemma {:induction false} CountAttained(s: Bytes, p: Bytes, i: nat) returns (places: seq<int>)
    requires p != [] && i <= |s|
    ensures ApartFrom(s, p, places, i) && |places| == CountFrom(s, p, i)
    decreases |s| - i
  {
    places := [];
    var j := IndexFrom(s, p, i);
    if j >= 0 {
      var rest := CountAttained(s, p, j + |p|);
      places := [j] + rest;
      assert places[1..] == rest;
    }
  }

  /** Occurrences that overlap count as one: whatever ends as it begins, say in k bytes,
      occurs twice in itself continued, and is counted once. */
  lemma OverlapCountsOnce(p: Bytes, k: nat)
    requires 0 < k < |p| && p[|p| - k..] == p[..k]
    ensures var s := p + p[k..];
            OccursAt(s, p, 0) && OccursAt(s, p, |p| - k) && Count(s, p) == 1
  {
    var s := p + p[k..];
    var i := |p| - k;
    assert s[0..|p|] == p;
    assert s[i..i + |p|] == p by {
      assert s[i..i + |p|] == p[i..] + p[k..];
      assert p == p[..k] + p[k..];
    }
    CountsOnce(s, p);
  }

  datatype Found = Found(at: nat, len: nat, fuzzy: bool) | NotFound

  /** An exact occurrence, or else one of the normalized text in the normalized
      content; a place found so counts in the normalized content. */
  function FuzzyFindText(norm: Bytes -> Bytes, content: Bytes, oldText: Bytes): Found {
    var i := Index(content, oldText);
    if i != -1 then Found(i, |oldText|, false)
    else
      var j := Index(norm(content), norm(oldText));
      if j == -1 then NotFound else Found(j, |norm(oldText)|, true)
  }

  function CountOccurrences(norm: Bytes -> Bytes, content: Bytes, oldText: Bytes): nat {
    Count(norm(content), norm(oldText))
  }

  // ----- what applying edits comes to ---------------------------------------

  datatype EditError =
    | NoEdits
    | EmptyOldText(edit: nat)
    | NotFoundError(edit: nat)
    | DuplicateError(edit: nat, occurrences: nat)
    | OverlapError(previous: Match<byte>, current: Match<byte>)
    | OverlayRefused(reason: OverlayError)
    | NoChange

  datatype EditResult = Edited(base: Bytes, updated: Bytes) | Failed(error: EditError)

  function NormalizeEdit(e: Edit): Edit {
    Edit(NormalizeToLF(e.oldText), NormalizeToLF(e.newText))
  }

  function NormalizeEdits(es: seq<Edit>): (r: seq<Edit>)
    ensures |r| == |es| && forall i :: 0 <= i < |es| ==> r[i] == NormalizeEdit(es[i])
  {
    seq(|es|, i requires 0 <= i < |es| => NormalizeEdit(es[i]))
  }

  ghost predicate NeedsFuzzy(norm: Bytes -> Bytes, content: Bytes, e: Edit) {
    FuzzyFindText(norm, content, e.oldText).Found? && FuzzyFindText(norm, content, e.oldText).fuzzy
  }

  ghost predicate UsesFuzzy(norm: Bytes -> Bytes, content: Bytes, es: seq<Edit>) {
    exists e :: e in es && NeedsFuzzy(norm, content, e)
  }

  /** Where edits are looked for: if any needs it, all of them in the normalized
      content. */
  ghost function Base(norm: Bytes -> Bytes, content: Bytes, es: seq<Edit>): Bytes {
    if UsesFuzzy(norm, content, es) then norm(content) else content
  }

  /** The edit is found, and counted once. */
  ghost predicate Located(norm: Bytes -> Bytes, base: Bytes, e: Edit) {
    FuzzyFindText(norm, base, e.oldText).Found? && CountOccurrences(norm, base, e.oldText) <= 1
  }

  function MatchFor(norm: Bytes -> Bytes, base: Bytes, e: Edit): Match<byte> {
    match FuzzyFindText(norm, base, e.oldText)
    case Found(at, len, _) => Match(at, len, e.newText)
    case NotFound => Match(0, 0, [])
  }

  function MatchesFor(norm: Bytes -> Bytes, base: Bytes, es: seq<Edit>): seq<Match<byte>> {
    if es == [] then [] else MatchesFor(norm, base, Init(es)) + [MatchFor(norm, base, Last(es))]
  }

  ghost function Sorted(norm: Bytes -> Bytes, content: Bytes, es: seq<Edit>): seq<Match<byte>> {
    SortByAt(MatchesFor(norm, Base(norm, content, es), es))
  }

  /** All edits have a text to look for and are located, and no two overlap. */
  ghost predicate Applicable(norm: Bytes -> Bytes, content: Bytes, es: seq<Edit>) {
    && es != [] && (forall e :: e in es ==> e.oldText != [] && Located(norm, Base(norm, content, es), e))
    && Within(Sorted(norm, content, es), 0, |Base(norm, content, es)|)
  }

  ghost predicate AllInside(base: Bytes, ms: seq<Match<byte>>) {
    forall k :: 0 <= k < |ms| ==> Inside(Lines(base), ms[k])
  }

  /** The text with all edits replaced at once: spliced if all were found exactly, and
      otherwise spliced into the normalized text and laid over the lines of the
      content. */
  ghost function Replaced(norm: Bytes -> Bytes, content: Bytes, es: seq<Edit>): Overlaid
    requires Applicable(norm, content, es)
  {
    var base, ms := Base(norm, content, es), Sorted(norm, content, es);
    if !UsesFuzzy(norm, content, es) then Overlaid(Spliced(content, ms, 0, |content|))
    else if |Lines(content)| != |Lines(base)| then Refused(LineCountDiffers)
    else if !AllInside(base, ms) then Refused(OutsideBase)
    else Overlaid(TextOf(Lines(content), OverlayPieces(base, ms)))
  }

  /** What comes out if anything does. */
  ghost predicate Succeeds(norm: Bytes -> Bytes, content: Bytes, es: seq<Edit>, updated: Bytes) {
    Applicable(norm, content, es) && Replaced(norm, content, es) == Overlaid(updated) && updated != content
  }

  /** An error names the first edit at fault, or what is wrong with all of them. */
  ghost predicate Explains(error: EditError, norm: Bytes -> Bytes, content: Bytes, es: seq<Edit>) {
    var base := Base(norm, content, es);
    match error
    case NoEdits => es == []
    case EmptyOldText(i) => i < |es| && es[i].oldText == [] && forall j :: 0 <= j < i ==> es[j].oldText != []
    case NotFoundError(i) =>
      i < |es| && FuzzyFindText(norm, base, es[i].oldText).NotFound? && forall j :: 0 <= j < i ==>
          Located(norm, base, es[j])
    case DuplicateError(i, n) =>
      i < |es| && CountOccurrences(norm, base, es[i].oldText) == n > 1 && forall j :: 0 <= j < i ==>
          Located(norm, base, es[j])
    case OverlapError(p, q) =>
      var ms := MatchesFor(norm, base, es);
      p in ms && q in ms && p.at <= q.at < p.End() && !Within(Sorted(norm, content, es), 0, |base|)
    case OverlayRefused(reason) => Applicable(norm, content, es) && Replaced(norm, content, es) == Refused(reason)
    case NoChange => Applicable(norm, content, es) && Replaced(norm, content, es) == Overlaid(content)
  }

  /** An edit that fails explains that nothing succeeds. */
  lemma ExplainedFails(error: EditError, norm: Bytes -> Bytes, content: Bytes, es: seq<Edit>, updated: Bytes)
    requires Explains(error, norm, content, es)
    ensures !Succeeds(norm, content, es, updated)
  {
    match error
    case EmptyOldText(i) => assert es[i] in es;
    case NotFoundError(i) => assert es[i] in es;
    case DuplicateError(i, _) => assert es[i] in es;
    case _ =>
  }

  // ----- located edits ------------------------------------------------------

  /** Normalizing changes nothing the second time. */
  ghost predicate Settled(norm: Bytes -> Bytes, content: Bytes) {
    norm(norm(content)) == norm(content)
  }

  /** What stands at the place of a match. */
  ghost function Pattern(norm: Bytes -> Bytes, base: Bytes, e: Edit): Bytes {
    if Index(base, e.oldText) != -1 then e.oldText else norm(e.oldText)
  }

  /** A match stands in the base, and is empty only if the base is. */
  lemma MatchStands(norm: Bytes -> Bytes, content: Bytes, es: seq<Edit>, e: Edit)
    requires Settled(norm, content) && e in es && e.oldText != [] && Located(norm, Base(norm, content, es), e)
    ensures var base := Base(norm, content, es);
            var m, p := MatchFor(norm, base, e), Pattern(norm, base, e);
            OccursAt(base, p, m.at) && m.len == |p| && (p == [] ==> base == [] && UsesFuzzy(norm, content, es))
  {
    var base := Base(norm, content, es);
    if Index(base, e.oldText) == -1 && !UsesFuzzy(norm, content, es) {
      assert NeedsFuzzy(norm, content, e);
    }
  }

  lemma {:induction false} MatchesIn(norm: Bytes -> Bytes, base: Bytes, es: seq<Edit>, m: Match<byte>)
    requires m in MatchesFor(norm, base, es)
    ensures exists e :: e in es && m == MatchFor(norm, base, e)
  {
    if m == MatchFor(norm, base, Last(es)) {
      assert Last(es) in es;
    } else {
      MatchesIn(norm, base, Init(es), m);
      var e :| e in Init(es) && m == MatchFor(norm, base, e);
      assert e in es;
    }
  }

  lemma SortedStands(norm: Bytes -> Bytes, content: Bytes, es: seq<Edit>, k: nat)
    requires Settled(norm, content) && k < |Sorted(norm, content, es)|
    requires forall e :: e in es ==> e.oldText != [] && Located(norm, Base(norm, content, es), e)
    ensures var base, m := Base(norm, content, es), Sorted(norm, content, es)[k];
            0 <= m.at && m.End() <= |base| && (m.len == 0 ==> base == [] && UsesFuzzy(norm, content, es))
  {
    var base, ms := Base(norm, content, es), MatchesFor(norm, Base(norm, content, es), es);
    SortSorts(ms);
    var m := Sorted(norm, content, es)[k];
    assert m in multiset(ms);
    MatchesIn(norm, base, es, m);
    var e :| e in es && m == MatchFor(norm, base, e);
    MatchStands(norm, content, es, e);
  }

  /** Only an empty text can hold a match outside of its lines. */
  lemma OutsideOnlyIfEmpty(norm: Bytes -> Bytes, content: Bytes, es: seq<Edit>)
    requires Settled(norm, content) && Applicable(norm, content, es)
             && Replaced(norm, content, es) == Refused(OutsideBase)
    ensures content == []
  {
    var base, ms := Base(norm, content, es), Sorted(norm, content, es);
    var k :| 0 <= k < |ms| && !Inside(Lines(base), ms[k]);
    SortedStands(norm, content, es, k);
    LinesLength(base);
    LinesSound(base);
    LinesSound(content);
  }

  // ----- order of the edits -------------------------------------------------

  lemma {:induction false} MatchesAppend(norm: Bytes -> Bytes, base: Bytes, a: seq<Edit>, b: seq<Edit>)
    ensures MatchesFor(norm, base, a + b) == MatchesFor(norm, base, a) + MatchesFor(norm, base, b)
  {
    if b == [] {
      Nil(a);
      Nil(MatchesFor(norm, base, a));
    } else {
      InitAppend(a, b);
      MatchesAppend(norm, base, a, Init(b));
      Assoc(MatchesFor(norm, base, a), MatchesFor(norm, base, Init(b)), [MatchFor(norm, base, Last(b))]);
    }
  }

  lemma SameInit<T>(a: seq<T>, b: seq<T>)
    requires multiset(a) == multiset(b) && a != [] && b != [] && Last(a) == Last(b)
    ensures multiset(Init(a)) == multiset(Init(b))
  {
    InitLast(a);
    InitLast(b);
    assert multiset(Init(a)) == multiset(a) - multiset{Last(a)};
    assert multiset(Init(b)) == multiset(b) - multiset{Last(b)};
  }

  lemma TakeOut<T>(s: seq<T>, i: nat)
    requires i < |s|
    ensures s == s[..i] + ([s[i]] + s[i + 1..])
    ensures multiset(s) == multiset(s[..i] + s[i + 1..]) + multiset{s[i]}
  {
    assert s == s[..i] + ([s[i]] + s[i + 1..]);
  }

  lemma {:induction false} MatchesPermute(norm: Bytes -> Bytes, base: Bytes, es: seq<Edit>, fs: seq<Edit>)
    requires multiset(es) == multiset(fs)
    ensures multiset(MatchesFor(norm, base, es)) == multiset(MatchesFor(norm, base, fs))
  {
    SameMembers(es, fs);
    if es != [] {
      var x := Last(es);
      assert x in es && x in fs;
      var i :| 0 <= i < |fs| && fs[i] == x;
      TakeOut(fs, i);
      InitLast(es);
      var rest := fs[..i] + fs[i + 1..];
      assert multiset(Init(es)) == multiset(es) - multiset{x};
      MatchesPermute(norm, base, Init(es), rest);
      MatchesTakenOut(norm, base, fs[..i], x, fs[i + 1..]);
    }
  }

  lemma {:induction false} MatchesTakenOut(norm: Bytes -> Bytes, base: Bytes, a: seq<Edit>, x: Edit, b: seq<Edit>)
    ensures multiset(MatchesFor(norm, base, a + ([x] + b)))
         == multiset(MatchesFor(norm, base, a + b)) + multiset{MatchFor(norm, base, x)}
  {
    MatchesAppend(norm, base, a, b);
    MatchesAppend(norm, base, a, [x] + b);
    MatchesAppend(norm, base, [x], b);
    assert Init([x]) == [] && Last([x]) == x;
    assert MatchesFor(norm, base, [x]) == [MatchFor(norm, base, x)];
  }

  /** Matches that are apart and not empty stand at different places ... */
  lemma {:induction false} WithinStrict<T>(ms: seq<Match<T>>, f: int, t: int)
    requires Within(ms, f, t) && forall k :: 0 <= k < |ms| ==> ms[k].len > 0
    ensures forall i, j :: 0 <= i < j < |ms| ==> ms[i].at < ms[j].at
  {
    if ms != [] {
      WithinStrict(Init(ms), f, Last(ms).at);
      WithinOrder(Init(ms), f, Last(ms).at);
      forall i, j | 0 <= i < j < |ms| ensures ms[i].at < ms[j].at {
        assert ms[i] == Init(ms)[i] && (j < |ms| - 1 ==> ms[j] == Init(ms)[j]);
      }
    }
  }

  /** ... and so have one sorted order. */
  lemma {:induction false} OneOrder<T>(a: seq<Match<T>>, b: seq<Match<T>>)
    requires multiset(a) == multiset(b) && Ascending(b)
    requires forall i, j :: 0 <= i < j < |a| ==> a[i].at < a[j].at
    ensures a == b
  {
    assert |a| == |multiset(a)| == |b|;
    if a != [] {
      var x, y := Last(a), Last(b);
      assert y in multiset(a) && x in multiset(b);
      var i :| 0 <= i < |a| && a[i] == y;
      var j :| 0 <= j < |b| && b[j] == x;
      assert x == y;
      SameInit(a, b);
      assert Ascending(Init(b));
      OneOrder(Init(a), Init(b));
      InitLast(a);
      InitLast(b);
    }
  }

  lemma SameMembers(es: seq<Edit>, fs: seq<Edit>)
    requires multiset(es) == multiset(fs)
    ensures |es| == |fs| && forall e :: e in es <==> e in fs
  {
    assert |multiset(es)| == |es| && |multiset(fs)| == |fs|;
    forall e ensures e in es <==> e in fs {
      assert e in es <==> e in multiset(es);
      assert e in fs <==> e in multiset(fs);
    }
  }

  /** What succeeds has matches that are not empty. */
  lemma SucceedsSomewhere(norm: Bytes -> Bytes, content: Bytes, es: seq<Edit>, updated: Bytes)
    requires Settled(norm, content) && Succeeds(norm, content, es, updated)
    ensures forall k :: 0 <= k < |Sorted(norm, content, es)| ==> Sorted(norm, content, es)[k].len > 0
  {
    var base, ms := Base(norm, content, es), Sorted(norm, content, es);
    forall k | 0 <= k < |ms| ensures ms[k].len > 0 {
      SortedStands(norm, content, es, k);
      if UsesFuzzy(norm, content, es) {
        assert Inside(Lines(base), ms[k]);
        LinesLength(base);
      }
    }
  }

  lemma SameBase(norm: Bytes -> Bytes, content: Bytes, es: seq<Edit>, fs: seq<Edit>)
    requires forall e :: e in es <==> e in fs
    ensures UsesFuzzy(norm, content, es) <==> UsesFuzzy(norm, content, fs)
    ensures Base(norm, content, es) == Base(norm, content, fs)
  {
  }

  lemma ApplicableAlike(norm: Bytes -> Bytes, content: Bytes, es: seq<Edit>, fs: seq<Edit>)
    requires Applicable(norm, content, es) && fs != [] && forall e :: e in es <==> e in fs
    requires Sorted(norm, content, es) == Sorted(norm, content, fs)
    ensures Applicable(norm, content, fs)
  {
    SameBase(norm, content, es, fs);
  }

  lemma ReplacedAlike(norm: Bytes -> Bytes, content: Bytes, es: seq<Edit>, fs: seq<Edit>)
    requires Applicable(norm, content, es) && Applicable(norm, content, fs)
    requires (UsesFuzzy(norm, content, es) <==>
              UsesFuzzy(norm, content, fs)) && Base(norm, content, es) == Base(norm, content, fs)
    requires Sorted(norm, content, es) == Sorted(norm, content, fs)
    ensures Replaced(norm, content, es) == Replaced(norm, content, fs)
  {
  }

  lemma SucceedsAlike(norm: Bytes -> Bytes, content: Bytes, es: seq<Edit>, fs: seq<Edit>, updated: Bytes)
    requires Succeeds(norm, content, es, updated) && fs != [] && forall e :: e in es <==> e in fs
    requires Sorted(norm, content, es) == Sorted(norm, content, fs)
    ensures Succeeds(norm, content, fs, updated)
  {
    ApplicableAlike(norm, content, es, fs);
    SameBase(norm, content, es, fs);
    ReplacedAlike(norm, content, es, fs);
  }

  lemma SameOrder(norm: Bytes -> Bytes, content: Bytes, es: seq<Edit>, fs: seq<Edit>)
    requires multiset(es) == multiset(fs) && Within(Sorted(norm, content, es), 0, |Base(norm, content, es)|)
    requires forall k :: 0 <= k < |Sorted(norm, content, es)| ==> Sorted(norm, content, es)[k].len > 0
    ensures Sorted(norm, content, es) == Sorted(norm, content, fs)
  {
    var base := Base(norm, content, es);
    SameMembers(es, fs);
    assert UsesFuzzy(norm, content, es) <==> UsesFuzzy(norm, content, fs);
    WithinStrict(Sorted(norm, content, es), 0, |base|);
    MatchesPermute(norm, base, es, fs);
    SortSorts(MatchesFor(norm, base, es));
    SortSorts(MatchesFor(norm, base, fs));
    OneOrder(Sorted(norm, content, es), Sorted(norm, content, fs));
  }

  /** Success and result do not depend on the order of the edits. */
  lemma OrderDoesNotMatter(norm: Bytes -> Bytes, content: Bytes, es: seq<Edit>, fs: seq<Edit>, updated: Bytes)
    requires Settled(norm, content) && multiset(es) == multiset(fs)
    ensures Succeeds(norm, content, es, updated) <==> Succeeds(norm, content, fs, updated)
  {
    SameMembers(es, fs);
    if Succeeds(norm, content, es, updated) {
      SucceedsSomewhere(norm, content, es, updated);
      SameOrder(norm, content, es, fs);
      SucceedsAlike(norm, content, es, fs, updated);
    }
    if Succeeds(norm, content, fs, updated) {
      SucceedsSomewhere(norm, content, fs, updated);
      SameOrder(norm, content, fs, es);
      SucceedsAlike(norm, content, fs, es, updated);
    }
  }

  // ----- applying -----------------------------------------------------------

  method FindFuzzy(norm: Bytes -> Bytes, content: Bytes, edits: seq<Edit>) returns (usedFuzzyMatch: bool)
    ensures usedFuzzyMatch <==> UsesFuzzy(norm, content, edits)
  {
    for i := 0 to |edits|
      invariant forall j :: 0 <= j < i ==> !NeedsFuzzy(norm, content, edits[j])
    {
      var f := FuzzyFindText(norm, content, edits[i].oldText);
      if f.Found? && f.fuzzy {
        assert NeedsFuzzy(norm, content, edits[i]);
        return true;
      }
    }
    return false;
  }

  datatype Places = AllLocated(matches: seq<Match<byte>>) | FirstMissing(edit: nat)
    | FirstDuplicate(edit: nat, occurrences: nat)

  lemma {:induction false} MatchesNext(norm: Bytes -> Bytes, base: Bytes, es: seq<Edit>, i: nat)
    requires i < |es|
    ensures MatchesFor(norm, base, es[..i + 1]) == MatchesFor(norm, base, es[..i]) + [MatchFor(norm, base, es[i])]
  {
    SliceTo(es, 0, i);
    InitPush(es[..i], es[i]);
  }

  /** The first n edits are located. */
  ghost predicate LocatedTo(norm: Bytes -> Bytes, base: Bytes, edits: seq<Edit>, n: nat)
    requires n <= |edits|
  {
    forall j :: 0 <= j < n ==> Located(norm, base, edits[j])
  }

  lemma LocatedNext(norm: Bytes -> Bytes, base: Bytes, edits: seq<Edit>, i: nat)
    requires i < |edits| && LocatedTo(norm, base, edits, i) && Located(norm, base, edits[i])
    ensures LocatedTo(norm, base, edits, i + 1)
  {
  }

  method LocateEdits(norm: Bytes -> Bytes, base: Bytes, edits: seq<Edit>) returns (r: Places)
    ensures r.AllLocated? ==> r.matches == MatchesFor(norm, base, edits) && LocatedTo(norm, base, edits, |edits|)
    ensures !r.AllLocated? ==> r.edit < |edits| && LocatedTo(norm, base, edits, r.edit)
    ensures r.FirstMissing? ==> FuzzyFindText(norm, base, edits[r.edit].oldText).NotFound?
    ensures r.FirstDuplicate? ==> CountOccurrences(norm, base, edits[r.edit].oldText) == r.occurrences > 1
  {
    var matches := [];
    for i := 0 to |edits|
      invariant matches == MatchesFor(norm, base, edits[..i])
      invariant LocatedTo(norm, base, edits, i)
    {
      var e := edits[i];
      var f := FuzzyFindText(norm, base, e.oldText);
      if f.NotFound? {
        return FirstMissing(i);
      }
      var occurrences := CountOccurrences(norm, base, e.oldText);
      if occurrences > 1 {
        return FirstDuplicate(i, occurrences);
      }
      MatchesNext(norm, base, edits, i);
      LocatedNext(norm, base, edits, i);
      matches := matches + [Match(f.at, f.len, e.newText)];
    }
    assert edits[..|edits|] == edits;
    r := AllLocated(matches);
  }

  lemma {:induction false} WithinNeighbours<T>(ms: seq<Match<T>>, f: int, t: int, i: nat)
    requires Within(ms, f, t) && 0 < i < |ms|
    ensures ms[i - 1].End() <= ms[i].at
  {
    if i == |ms| - 1 {
      WithinOrder(Init(ms), f, Last(ms).at);
      assert Init(ms)[i - 1].End() <= Last(ms).at;
    } else {
      WithinNeighbours(Init(ms), f, Last(ms).at, i);
    }
  }

  lemma {:induction false} WithinMore<T>(ms: seq<Match<T>>, f: int, t: int, u: int)
    requires Within(ms, f, t) && t <= u
    ensures Within(ms, f, u)
  {
  }

  /** The first two neighbours that overlap, if any do. */
  method CheckOverlap(sorted: seq<Match<byte>>, length: nat) returns (overlap: nat)
    requires forall k :: 0 <= k < |sorted| ==> 0 <= sorted[k].at && sorted[k].End() <= length
    ensures overlap == 0 ==> Within(sorted, 0, length)
    ensures overlap > 0 ==>
              overlap < |sorted| && sorted[overlap].at < sorted[overlap - 1].End() && !Within(sorted, 0, length)
  {
    if sorted == [] {
      return 0;
    }
    assert sorted[..1] == [] + [sorted[0]];
    WithinPush([], sorted[0], 0, sorted[0].End());
    var i := 1;
    while i < |sorted|
      invariant 1 <= i <= |sorted| && Within(sorted[..i], 0, sorted[i - 1].End())
    {
      if sorted[i - 1].End() > sorted[i].at {
        if Within(sorted, 0, length) {
          WithinNeighbours(sorted, 0, length, i);
        }
        return i;
      }
      SliceTo(sorted, 0, i);
      WithinMore(sorted[..i], 0, sorted[i - 1].End(), sorted[i].at);
      WithinPush(sorted[..i], sorted[i], 0, sorted[i].End());
      i := i + 1;
    }
    assert sorted[..|sorted|] == sorted;
    WithinMore(sorted, 0, sorted[i - 1].End(), length);
    return 0;
  }

  lemma {:induction false} ShiftedByNothing<T>(ms: seq<Match<T>>)
    ensures Shifted(ms, 0) == ms
  {
    if ms != [] {
      ShiftedByNothing(Init(ms));
      InitLast(ms);
    }
  }

  lemma AscendingInit<T>(ms: seq<Match<T>>)
    requires Ascending(ms) && ms != []
    ensures Ascending(Init(ms)) && (Init(ms) != [] ==> Last(Init(ms)).at <= Last(ms).at)
  {
  }

  lemma {:induction false} SortedAlready<T>(ms: seq<Match<T>>)
    requires Ascending(ms)
    ensures SortByAt(ms) == ms
  {
    if ms != [] {
      AscendingInit(ms);
      SortedAlready(Init(ms));
      InitLast(ms);
    }
  }

  /** Replaces the sorted matches of applicable edits. */
  method ReplaceAll(norm: Bytes -> Bytes, content: Bytes, base: Bytes, usedFuzzyMatch: bool, sorted: seq<Match<byte>>,
                    ghost es: seq<Edit>)
    returns (r: Overlaid)
    requires Applicable(norm, content, es) && base == Base(norm, content, es) && sorted == Sorted(norm, content, es)
    requires usedFuzzyMatch <==> UsesFuzzy(norm, content, es)
    ensures r == Replaced(norm, content, es)
  {
    if usedFuzzyMatch {
      SortSorts(MatchesFor(norm, base, es));
      SortedAlready(sorted);
      r := ApplyReplacementsPreservingUnchangedLines(content, base, sorted);
    } else {
      ShiftedByNothing(sorted);
      var text := ApplyReplacements(base, sorted, 0);
      r := Overlaid(text);
    }
  }

  lemma OverlapExplained(norm: Bytes -> Bytes, content: Bytes, es: seq<Edit>, k: nat)
    requires 0 < k < |Sorted(norm, content, es)| && !Within(Sorted(norm, content, es), 0, |Base(norm, content, es)|)
    requires Sorted(norm, content, es)[k].at < Sorted(norm, content, es)[k - 1].End()
    ensures Explains(OverlapError(Sorted(norm, content, es)[k - 1], Sorted(norm, content, es)[k]), norm, content, es)
  {
    var ms := MatchesFor(norm, Base(norm, content, es), es);
    SortSorts(ms);
    var p, q := SortByAt(ms)[k - 1], SortByAt(ms)[k];
    assert p in multiset(SortByAt(ms)) && q in multiset(SortByAt(ms));
  }

  /** Sorts the matches and refuses those that overlap. */
  method SortMatches(norm: Bytes -> Bytes, content: Bytes, base: Bytes, matches: seq<Match<byte>>, ghost es: seq<Edit>)
    returns (sorted: seq<Match<byte>>, overlap: nat)
    requires Settled(norm, content) && base == Base(norm, content, es) && matches == MatchesFor(norm, base, es)
    requires forall e :: e in es ==> e.oldText != [] && Located(norm, base, e)
    ensures sorted == Sorted(norm, content, es)
    ensures overlap == 0 ==> Within(sorted, 0, |base|)
    ensures overlap > 0 ==>
              overlap < |sorted| && Explains(OverlapError(sorted[overlap - 1], sorted[overlap]), norm, content, es)
  {
    sorted := SortByAt(matches);
    forall k | 0 <= k < |sorted| ensures 0 <= sorted[k].at && sorted[k].End() <= |base| {
      SortedStands(norm, content, es, k);
    }
    overlap := CheckOverlap(sorted, |base|);
    if overlap > 0 {
      OverlapExplained(norm, content, es, overlap);
    }
  }

  lemma AllAreLocated(norm: Bytes -> Bytes, base: Bytes, es: seq<Edit>)
    requires LocatedTo(norm, base, es, |es|) && forall j :: 0 <= j < |es| ==> es[j].oldText != []
    ensures forall e :: e in es ==> e.oldText != [] && Located(norm, base, e)
  {
  }

  /** Replaces located edits, if they do not overlap. */
  method ReplaceLocated(norm: Bytes -> Bytes, content: Bytes, base: Bytes, usedFuzzyMatch: bool,
                        matches: seq<Match<byte>>, ghost es: seq<Edit>)
    returns (r: EditResult)
    requires Settled(norm, content) && base == Base(norm, content, es) && matches == MatchesFor(norm, base, es)
    requires es != [] && forall e :: e in es ==> e.oldText != [] && Located(norm, base, e)
    requires usedFuzzyMatch <==> UsesFuzzy(norm, content, es)
    ensures r.Edited? ==> r.base == content && Succeeds(norm, content, es, r.updated)
    ensures r.Failed? ==> Explains(r.error, norm, content, es)
  {
    var sorted, overlap := SortMatches(norm, content, base, matches, es);
    if overlap > 0 {
      return Failed(OverlapError(sorted[overlap - 1], sorted[overlap]));
    }
    var updated := ReplaceAll(norm, content, base, usedFuzzyMatch, sorted, es);
    if updated.Refused? {
      return Failed(OverlayRefused(updated.error));
    }
    r := if updated.text == content then Failed(NoChange) else Edited(content, updated.text);
  }

  /** Applies all edits at once, or none and says why. */
  method ApplyEditsToNormalizedContent(norm: Bytes -> Bytes, content: Bytes, edits: seq<Edit>) returns (r: EditResult)
    requires Settled(norm, content)
    ensures r.Edited? ==> r.base == content && Succeeds(norm, content, NormalizeEdits(edits), r.updated)
    ensures r.Failed? ==> Explains(r.error, norm, content, NormalizeEdits(edits))
  {
    if |edits| == 0 {
      return Failed(NoEdits);
    }
    var es := NormalizeEdits(edits);
    for i := 0 to |es|
      invariant forall j :: 0 <= j < i ==> es[j].oldText != []
    {
      if es[i].oldText == [] {
        return Failed(EmptyOldText(i));
      }
    }
    var usedFuzzyMatch := FindFuzzy(norm, content, es);
    var base := if usedFuzzyMatch then norm(content) else content;
    var places := LocateEdits(norm, base, es);
    match places
    case FirstMissing(i) => return Failed(NotFoundError(i));
    case FirstDuplicate(i, n) => return Failed(DuplicateError(i, n));
    case AllLocated(matches) =>
      AllAreLocated(norm, base, es);
      r := ReplaceLocated(norm, content, base, usedFuzzyMatch, matches, es);
  }
}
