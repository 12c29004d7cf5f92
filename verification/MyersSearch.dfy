/** The shortest-edit-script search of the line diff: rounds of growing edit
    length over a map of furthest-reaching paths, one per diagonal, with the
    diagonals beyond a reached edge pruned and consumed entries deleted. */
module MyersSearch {
  import opened EditDistance
  import opened Numbers

  /** Stands for infinity in the diagonal bounds. */
  const SENTINEL: int := 0x4000_0000

  datatype Kind = Same | Added | Removed

  /** Runs of a path, last run first. */
  datatype Chain = Root | Link(count: nat, kind: Kind, previous: Chain)

  class PathNode {
    var oldPos: int  // index of the last old token the path has consumed
    var last: Chain

    constructor (oldPos: int, last: Chain)
      ensures this.oldPos == oldPos && this.last == last
    {
      this.oldPos, this.last := oldPos, last;
    }
  }

  // ----- what a chain says --------------------------------------------------

  /** c describes a path from the origin to (x, y): matching runs that go as far
      as they can, alternating in kind with runs of additions and removals. */
  ghost predicate ChainOK<T>(c: Chain, a: seq<T>, b: seq<T>, x: int, y: int) {
    0 <= x <= |a| && 0 <= y <= |b| &&
    match c
    case Root => x == 0 && y == 0
    case Link(n, kind, p) =>
      n > 0 && (p.Link? ==> p.kind != kind) && (p.Root? && kind != Same ==> Stopped(a, b, 0, 0)) &&
      match kind
      case Same => n <= x && n <= y && Matches(a, b, x - n, y - n, n) && Stopped(a, b, x, y)
                   && ChainOK(p, a, b, x - n, y - n)
      case Added => n <= y && ChainOK(p, a, b, x, y - n)
      case Removed => n <= x && ChainOK(p, a, b, x - n, y)
  }

  /** Added plus removed tokens. */
  ghost function Cost(c: Chain): nat {
    match c
    case Root => 0
    case Link(n, kind, p) => Cost(p) + if kind == Same then 0 else n
  }

  lemma {:induction false} ChainCost<T>(c: Chain, a: seq<T>, b: seq<T>, x: int, y: int)
    requires ChainOK(c, a, b, x, y)
    ensures Dist(a, b, x, y) <= Cost(c)
  {
    match c
    case Root =>
    case Link(n, kind, p) =>
      match kind {
        case Same => ChainCost(p, a, b, x - n, y - n); DistMatch(a, b, x - n, y - n, n);
        case Added => ChainCost(p, a, b, x, y - n); DistAdvance(a, b, x, y - n, 0, n);
        case Removed => ChainCost(p, a, b, x - n, y); DistAdvance(a, b, x - n, y, n, 0);
      }
  }

  // ----- which of several paths ---------------------------------------------

  ghost function Length(c: Chain): nat {
    match c
    case Root => 0
    case Link(n, _, p) => n + Length(p)
  }

  /** The path without its last token. */
  ghost function Before(c: Chain): (p: Chain)
    requires c.Link? && c.count > 0
    ensures Length(p) < Length(c)
  {
    if c.count == 1 then c.previous else Link(c.count - 1, c.kind, c.previous)
  }

  /** An edit that ends in (x, y), after `cost` others, as the rounds choose it: it
      leaves the furthest point of a neighbour diagonal; a token is added unless
      removing one gets further, and removed only if adding one does not get as far. */
  ghost predicate ChosenEdit<T>(kind: Kind, cost: int, a: seq<T>, b: seq<T>, x: int, y: int) {
    0 <= x <= |a| && 0 <= y <= |b| &&
    match kind
    case Same => false
    case Added => y > 0 && Furthest(a, b, cost, x - (y - 1), x) && (y < |b| ==> Dist(a, b, x, y + 1) > cost)
    case Removed => x > 0 && Furthest(a, b, cost, x - 1 - y, x - 1) && (y > 0 ==> Dist(a, b, x, y - 1) > cost)
  }

  /** All edits of the path are. */
  ghost predicate Chosen<T>(c: Chain, a: seq<T>, b: seq<T>, x: int, y: int)
    decreases Length(c)
  {
    match c
    case Root => true
    case Link(n, kind, p) =>
      n > 0 &&
      match kind
      case Same => Chosen(p, a, b, x - n, y - n)
      case Added => ChosenEdit(Added, Cost(c) - 1, a, b, x, y) && Chosen(Before(c), a, b, x, y - 1)
      case Removed => ChosenEdit(Removed, Cost(c) - 1, a, b, x, y) && Chosen(Before(c), a, b, x - 1, y)
  }

  // ----- the frontier after d rounds ----------------------------------------

  /** A path on some diagonal: how many old tokens it has passed, and its runs. */
  datatype Path = Path(reach: int, chain: Chain)

  /** Diagonals of round d that round d + 1 still looks at. */
  ghost predicate Relevant(j: int, d: int, minD: int, maxD: int) {
    -d <= j <= d && minD - 1 <= j <= maxD + 1 && (d - j) % 2 == 0
  }

  /** A path on the right edge lies above the upper bound, one on the bottom
      edge below the lower bound. */
  ghost predicate Edges<T>(a: seq<T>, b: seq<T>, j: int, x: int, minD: int, maxD: int) {
    (x == |a| ==> maxD < j) && (x - j == |b| ==> j < minD)
  }

  ghost predicate LowerSet<T>(b: seq<T>, p: map<int, Path>, d: int, minD: int) {
    -d <= minD - 1 <= d && (d - minD) % 2 != 0 && minD - 1 in p && p[minD - 1].reach - (minD - 1) == |b|
  }

  ghost predicate UpperSet<T>(a: seq<T>, p: map<int, Path>, d: int, maxD: int) {
    -d <= maxD + 1 <= d && (d - maxD) % 2 != 0 && maxD + 1 in p && p[maxD + 1].reach == |a|
  }

  ghost predicate EndWithin<T>(a: seq<T>, b: seq<T>, minD: int, maxD: int) {
    minD <= |a| - |b| <= maxD
  }

  /** p holds the path of each diagonal after d rounds. */
  ghost predicate Frontier<T>(a: seq<T>, b: seq<T>, p: map<int, Path>, d: int, minD: int, maxD: int) {
    && (forall j :: j in p ==> -d <= j <= d)
    && (forall j {:trigger Relevant(j, d, minD, maxD)} :: Relevant(j, d, minD, maxD) ==>
        j in p && Furthest(a, b, d, j, p[j].reach))
    && (d > 0 ==> forall j {:trigger Relevant(j, d, minD, maxD)} :: Relevant(j, d, minD, maxD) && j in p ==>
        Edges(a, b, j, p[j].reach, minD, maxD))
    && (minD == -SENTINEL || (d > 0 && LowerSet(b, p, d, minD)))
    && (maxD == SENTINEL || (d > 0 && UpperSet(a, p, d, maxD)))
    && EndWithin(a, b, minD, maxD)
    && Dist(a, b, |a|, |b|) > d
  }


  /** While a bound is unset, the rounds have not outgrown the text. */
  lemma UnsetBounds<T>(a: seq<T>, b: seq<T>, p: map<int, Path>, d: int, minD: int, maxD: int)
    requires d >= 0 && Frontier(a, b, p, d, minD, maxD)
    requires |a| <= SENTINEL && |b| <= SENTINEL
    ensures minD == -SENTINEL ==> d < SENTINEL
    ensures maxD == SENTINEL ==> d < SENTINEL
  {
    if d > 0 {
      if minD == -SENTINEL {
        assert Relevant(if d <= SENTINEL then -d else -SENTINEL - (d - SENTINEL) % 2, d, minD, maxD);
      }
      if maxD == SENTINEL {
        assert Relevant(if d <= SENTINEL then d else SENTINEL + (d - SENTINEL) % 2, d, minD, maxD);
      }
    }
  }

  lemma TwoOn(d: int, k: int)
    ensures (d - (k + 2)) % 2 == (d - k) % 2
    ensures (d - k) % 2 == 0 ==> (d - (k + 1)) % 2 != 0 && (d - (k - 1)) % 2 != 0
  {
  }

  /** Where round d of the search starts and stops. */
  ghost predicate Bounds(d: int, minD: int, maxD: int) {
    && (minD == -SENTINEL ==> d <= SENTINEL)
    && (maxD == SENTINEL ==> d <= SENTINEL)
    && (minD != -SENTINEL ==> d > 1 && -d < minD <= d && (d - minD) % 2 == 0)
    && (maxD != SENTINEL ==> d > 1 && -d <= maxD < d && (d - maxD) % 2 == 0)
    && minD <= maxD
  }

  lemma BoundsParity(d: int, minD: int, maxD: int)
    requires d >= 1 && Bounds(d, minD, maxD)
    ensures Max(-d, minD) <= Min(d, maxD)
    ensures (d - Max(-d, minD)) % 2 == 0 && (d - Min(d, maxD)) % 2 == 0
    ensures minD != -SENTINEL ==> Max(-d, minD) == minD
    ensures minD == -SENTINEL ==> Max(-d, minD) == -d
    ensures maxD != SENTINEL ==> Min(d, maxD) == maxD
    ensures maxD == SENTINEL ==> Min(d, maxD) == d
  {
    assert (d - -d) % 2 == 0;
  }

  lemma RoundBounds<T>(a: seq<T>, b: seq<T>, p: map<int, Path>, d: int, minD: int, maxD: int)
    requires d >= 1 && Frontier(a, b, p, d - 1, minD, maxD)
    requires |a| <= SENTINEL && |b| <= SENTINEL
    ensures Bounds(d, minD, maxD)
  {
    UnsetBounds(a, b, p, d - 1, minD, maxD);
  }

  /** In round 1 the path on diagonal 0 may already lie on an edge; then one of
      the two diagonals has no predecessor and is skipped. */
  ghost predicate Blocked<T>(a: seq<T>, b: seq<T>, p0: map<int, Path>, d: int, k: int) {
    d == 1 && 0 in p0 && ((k == 1 && p0[0].reach == |a|) || (k == -1 && p0[0].reach == |b|))
  }

  /** A diagonal finished in round d. */
  ghost predicate Done<T>(a: seq<T>, b: seq<T>, p0: map<int, Path>, p: map<int, Path>, d: int, j: int, minD: int,
                          maxD: int) {
    Blocked(a, b, p0, d, j) || (j in p && Furthest(a, b, d, j, p[j].reach) && Edges(a, b, j, p[j].reach, minD, maxD))
  }

  /** The map inside round d, before diagonal k is looked at. */
  ghost predicate Mid<T>(a: seq<T>, b: seq<T>, p0: map<int, Path>, p: map<int, Path>, d: int, k: int,
                         minD0: int, maxD0: int, minD: int, maxD: int) {
    && (forall j :: j in p ==> -d <= j <= d)
    && (forall j :: j in p && (d - j) % 2 != 0 ==> j in p0 && p[j] == p0[j])
    && (forall j :: j in p0 && j >= k - 1 && (d - j) % 2 != 0 ==> j in p)
    && (forall j {:trigger Done(a, b, p0, p, d, j, minD, maxD)} :: Max(-d, minD0) <= j < k && (d - j) % 2 == 0 ==>
        Done(a, b, p0, p, d, j, minD, maxD))
    && minD0 <= minD && maxD <= maxD0
    && (minD == minD0 || LowerSet(b, p, d, minD))
    && (maxD == maxD0 || UpperSet(a, p, d, maxD))
    && EndWithin(a, b, minD, maxD)
  }

  /** The two predecessors of diagonal k, and which of them can be extended. */
  lemma Predecessors<T>(a: seq<T>, b: seq<T>, p: map<int, Path>, d: int, minD: int, maxD: int, k: int)
    requires d >= 1 && Frontier(a, b, p, d - 1, minD, maxD)
    requires |a| <= SENTINEL && |b| <= SENTINEL
    requires Max(-d, minD) <= k <= Min(d, maxD) && (d - k) % 2 == 0
    ensures if k - 1 in p then Furthest(a, b, d - 1, k - 1, p[k - 1].reach) else NothingFrom(a, b, d - 1, k - 1, 0)
    ensures if k + 1 in p then Furthest(a, b, d - 1, k + 1, p[k + 1].reach) else NothingFrom(a, b, d - 1, k + 1, 0)
    ensures k - 1 in p || k + 1 in p
    ensures k - 1 in p ==> (p[k - 1].reach == |a| <==> Blocked(a, b, p, d, k) && k == 1)
    ensures k + 1 in p ==> (p[k + 1].reach - (k + 1) == |b| <==> Blocked(a, b, p, d, k) && k == -1)
    ensures Blocked(a, b, p, d, k) ==> k - 1 !in p || k + 1 !in p
  {
    if k == -d {
      NothingOutside(a, b, d - 1, k - 1, 0);
    } else {
      assert Relevant(k - 1, d - 1, minD, maxD);
    }
    if k == d {
      NothingOutside(a, b, d - 1, k + 1, 0);
    } else {
      assert Relevant(k + 1, d - 1, minD, maxD);
    }
  }

  /** On a bounded diagonal next to one that reached the bottom edge, the path
      reaches the bottom edge too. */
  lemma {:induction false} LowerFollows<T>(a: seq<T>, b: seq<T>, d: int, k: int, x0: int, x: int)
    requires Furthest(a, b, d - 1, k - 1, x0) && x0 - (k - 1) == |b|
    requires Furthest(a, b, d, k, x) && Dist(a, b, |a|, |b|) > d - 1
    ensures x - k == |b|
  {
    assert x0 < |a|;
    DistNeighbours(a, b, x0, |b|);
    assert DiagDist(a, b, k, x0 + 1) <= d;
  }

  lemma {:induction false} UpperFollows<T>(a: seq<T>, b: seq<T>, d: int, k: int, x0: int, x: int)
    requires Furthest(a, b, d - 1, k + 1, x0) && x0 == |a|
    requires Furthest(a, b, d, k, x) && Dist(a, b, |a|, |b|) > d - 1
    ensures x == |a|
  {
    assert x0 - (k + 1) < |b|;
    DistNeighbours(a, b, |a|, x0 - (k + 1));
    assert DiagDist(a, b, k, x0) <= d;
  }

  /** A bound that was set before the round has moved inward by its end. */
  lemma BoundsMove<T>(a: seq<T>, b: seq<T>, p0: map<int, Path>, p: map<int, Path>, d: int, k: int,
                      minD0: int, maxD0: int, minD: int, maxD: int)
    requires d >= 1 && Frontier(a, b, p0, d - 1, minD0, maxD0)
    requires |a| <= SENTINEL && |b| <= SENTINEL
    requires Mid(a, b, p0, p, d, k, minD0, maxD0, minD, maxD) && k > Min(d, maxD0)
    ensures minD0 != -SENTINEL ==> minD0 < minD && Max(-d, minD0) == minD0
    ensures maxD0 != SENTINEL ==> maxD < maxD0 && Min(d, maxD0) == maxD0
    ensures minD0 == -SENTINEL ==> Max(-d, minD0) == -d
    ensures maxD0 == SENTINEL ==> Min(d, maxD0) == d
  {
    RoundBounds(a, b, p0, d, minD0, maxD0);
    BoundsParity(d, minD0, maxD0);
    var lo, hi := Max(-d, minD0), Min(d, maxD0);
    if minD0 != -SENTINEL {
      assert Done(a, b, p0, p, d, lo, minD, maxD);
      assert Relevant(lo - 1, d - 1, minD0, maxD0);
      LowerFollows(a, b, d, lo, p0[lo - 1].reach, p[lo].reach);
    }
    if maxD0 != SENTINEL {
      assert Done(a, b, p0, p, d, hi, minD, maxD);
      assert Relevant(hi + 1, d - 1, minD0, maxD0);
      UpperFollows(a, b, d, hi, p0[hi + 1].reach, p[hi].reach);
    }
  }

  /** A round over all its diagonals yields the next frontier: no diagonal the
      pruning leaves out is needed, and none it visits too many does harm. */
  lemma RoundDone<T>(a: seq<T>, b: seq<T>, p0: map<int, Path>, p: map<int, Path>, d: int, k: int,
                     minD0: int, maxD0: int, minD: int, maxD: int)
    requires d >= 1 && Frontier(a, b, p0, d - 1, minD0, maxD0)
    requires |a| <= SENTINEL && |b| <= SENTINEL
    requires Mid(a, b, p0, p, d, k, minD0, maxD0, minD, maxD) && k > Min(d, maxD0)
    ensures Frontier(a, b, p, d, minD, maxD)
  {
    BoundsMove(a, b, p0, p, d, k, minD0, maxD0, minD, maxD);
    forall j | Relevant(j, d, minD, maxD)
      ensures j in p && Furthest(a, b, d, j, p[j].reach) && Edges(a, b, j, p[j].reach, minD, maxD)
    {
      assert Done(a, b, p0, p, d, j, minD, maxD);
      if Blocked(a, b, p0, d, j) {
        NotBlocked(a, b, p0, p, j, k, minD0, maxD0, minD, maxD);
      }
    }
    EndBeyond(a, b, p, d, minD, maxD);
  }

  lemma NotBlocked<T>(a: seq<T>, b: seq<T>, p0: map<int, Path>, p: map<int, Path>, j: int, k: int,
                      minD0: int, maxD0: int, minD: int, maxD: int)
    requires Frontier(a, b, p0, 0, minD0, maxD0)
    requires Mid(a, b, p0, p, 1, k, minD0, maxD0, minD, maxD) && k > 1
    requires Relevant(j, 1, minD, maxD)
    ensures !Blocked(a, b, p0, 1, j)
  {
    assert Relevant(0, 0, minD0, maxD0);
    assert Done(a, b, p0, p, 1, -j, minD, maxD);
    if Blocked(a, b, p0, 1, j) {
      if j == 1 {
        UpperFollows(a, b, 1, -1, p0[0].reach, p[-1].reach);
      } else {
        LowerFollows(a, b, 1, 1, p0[0].reach, p[1].reach);
      }
      assert false;
    }
  }

  lemma {:induction false} EndBeyond<T>(a: seq<T>, b: seq<T>, p: map<int, Path>, d: int, minD: int, maxD: int)
    requires d >= 1 && Dist(a, b, |a|, |b|) > d - 1 && EndWithin(a, b, minD, maxD)
    requires forall j :: Relevant(j, d, minD, maxD) ==>
               j in p && Furthest(a, b, d, j, p[j].reach) && Edges(a, b, j, p[j].reach, minD, maxD)
    ensures Dist(a, b, |a|, |b|) > d
  {
    var k := |a| - |b|;
    assert DiagDist(a, b, k, |a|) > d - 1;
    if (d - k) % 2 != 0 {
      OtherParity(a, b, d, k, |a|);
    } else if Dist(a, b, |a|, |b|) <= d {
      DistBounds(a, b, |a|, |b|);
      assert Relevant(k, d, minD, maxD);
      assert false;
    }
  }

  lemma MidSkip<T>(a: seq<T>, b: seq<T>, p0: map<int, Path>, p: map<int, Path>, d: int, k: int,
                   minD0: int, maxD0: int, minD: int, maxD: int)
    requires Mid(a, b, p0, p, d, k, minD0, maxD0, minD, maxD) && Blocked(a, b, p0, d, k)
    requires k >= Max(-d, minD0) && (minD == minD0 || minD - 1 < k) && (maxD == maxD0 || maxD + 1 < k)
    ensures Mid(a, b, p0, p - {k - 1} - {k}, d, k + 2, minD0, maxD0, minD, maxD)
  {
    var q := p - {k - 1} - {k};
    forall j | Max(-d, minD0) <= j < k + 2 && (d - j) % 2 == 0 ensures Done(a, b, p0, q, d, j, minD, maxD) {
      if j < k {
        assert Done(a, b, p0, p, d, j, minD, maxD);
      }
    }
  }

  /** Storing the new path on diagonal k keeps what earlier diagonals achieved. */
  lemma DoneKept<T>(a: seq<T>, b: seq<T>, p0: map<int, Path>, p: map<int, Path>, d: int, k: int, n: Path, j: int,
                    minD: int, maxD: int, minD': int, maxD': int)
    requires Done(a, b, p0, p, d, j, minD, maxD) && j != k && j != k - 1
    requires minD <= minD' && maxD' <= maxD
    ensures Done(a, b, p0, (p - {k - 1})[k := n], d, j, minD', maxD')
  {
  }

  lemma BoundsKept<T>(a: seq<T>, b: seq<T>, p0: map<int, Path>, p: map<int, Path>, d: int, k: int, n: Path,
                      minD0: int, maxD0: int, minD: int, maxD: int, minD': int, maxD': int)
    requires minD == minD0 || (LowerSet(b, p, d, minD) && minD - 1 < k)
    requires maxD == maxD0 || (UpperSet(a, p, d, maxD) && maxD + 1 < k)
    requires -d <= k <= d && (d - k) % 2 == 0
    requires minD' == if n.reach - k == |b| && k + 1 > minD then k + 1 else minD
    requires maxD' == if n.reach == |a| && k - 1 < maxD then k - 1 else maxD
    ensures minD' == minD0 || LowerSet(b, (p - {k - 1})[k := n], d, minD')
    ensures maxD' == maxD0 || UpperSet(a, (p - {k - 1})[k := n], d, maxD')
    ensures (minD' == minD0 || minD' - 1 < k + 2) && (maxD' == maxD0 || maxD' + 1 < k + 2)
  {
    TwoOn(d, k);
  }

  lemma MidExtend<T>(a: seq<T>, b: seq<T>, p0: map<int, Path>, p: map<int, Path>, d: int, k: int, n: Path,
                     minD0: int, maxD0: int, minD: int, maxD: int, minD': int, maxD': int)
    requires Mid(a, b, p0, p, d, k, minD0, maxD0, minD, maxD)
    requires Max(-d, minD0) <= k <= d && (d - k) % 2 == 0 && (minD == minD0 || minD - 1 < k)
             && (maxD == maxD0 || maxD + 1 < k)
    requires Furthest(a, b, d, k, n.reach) && (n.reach < |a| || n.reach - k < |b|)
    requires minD' == if n.reach - k == |b| && k + 1 > minD then k + 1 else minD
    requires maxD' == if n.reach == |a| && k - 1 < maxD then k - 1 else maxD
    ensures Mid(a, b, p0, (p - {k - 1})[k := n], d, k + 2, minD0, maxD0, minD', maxD')
    ensures (minD' == minD0 || minD' - 1 < k + 2) && (maxD' == maxD0 || maxD' + 1 < k + 2)
  {
    var q := (p - {k - 1})[k := n];
    TwoOn(d, k);
    BoundsKept(a, b, p0, p, d, k, n, minD0, maxD0, minD, maxD, minD', maxD');
    forall j | Max(-d, minD0) <= j < k + 2 && (d - j) % 2 == 0 ensures Done(a, b, p0, q, d, j, minD', maxD') {
      assert j != k - 1 && j != k + 1;
      if j < k {
        DoneKept(a, b, p0, p, d, k, n, j, minD, maxD, minD', maxD');
      }
    }
  }

  lemma {:induction false} FirstFrontier<T>(a: seq<T>, b: seq<T>, x: int, c: Chain)
    requires OnDiagonal(a, b, 0, x) && Dist(a, b, x, x) == 0 && Stopped(a, b, x, x)
    requires x < |a| || x < |b|
    requires |a| <= SENTINEL && |b| <= SENTINEL
    ensures Frontier(a, b, map[0 := Path(x, c)], 0, -SENTINEL, SENTINEL)
  {
    NothingOutside(a, b, -1, -1, 0);
    NothingOutside(a, b, -1, 1, 0);
    NothingOutside(a, b, -1, -1, x);
    FurthestStep(a, b, 0, 0, x);
    assert DiagDist(a, b, 0, x) == 0;
    DistBounds(a, b, |a|, |b|);
    if |a| == |b| {
      assert DiagDist(a, b, 0, |a|) > 0;
    }
  }

  // ----- paths are genuine --------------------------------------------------

  /** A genuine path to diagonal k, chosen as the rounds choose, with at most cost edits. */
  ghost predicate Genuine<T>(a: seq<T>, b: seq<T>, n: Path, k: int, cost: int) {
    ChainOK(n.chain, a, b, n.reach, n.reach - k) && Chosen(n.chain, a, b, n.reach, n.reach - k) && Cost(n.chain) <= cost
  }

  /** A path the search may extend: past the origin unless the texts differ right there. */
  ghost predicate Usable<T>(a: seq<T>, b: seq<T>, n: Path, k: int, cost: int) {
    Genuine(a, b, n, k, cost) && (n.chain == Root ==> Stopped(a, b, 0, 0))
  }

  /** The paths at the start of round d. */
  ghost predicate RoundStart<T>(a: seq<T>, b: seq<T>, p: map<int, Path>, d: int, minD: int, maxD: int) {
    d >= 1 && Frontier(a, b, p, d - 1, minD, maxD) && forall j :: j in p ==> Usable(a, b, p[j], j, d - 1)
  }

  /** The paths inside round d, before diagonal k: those of the round's own
      parity are new, the others left over from the round before. */
  ghost predicate InRound<T>(a: seq<T>, b: seq<T>, p0: map<int, Path>, p: map<int, Path>, d: int, k: int,
                             minD0: int, maxD0: int, minD: int, maxD: int) {
    && Max(-d, minD0) <= k && (d - k) % 2 == 0
    && Mid(a, b, p0, p, d, k, minD0, maxD0, minD, maxD)
    && (minD == minD0 || minD - 1 < k) && (maxD == maxD0 || maxD + 1 < k)
    && (forall j :: j in p ==> Usable(a, b, p[j], j, d))
  }

  lemma EnterRound<T>(a: seq<T>, b: seq<T>, p: map<int, Path>, d: int, minD: int, maxD: int)
    requires RoundStart(a, b, p, d, minD, maxD)
    requires |a| <= SENTINEL && |b| <= SENTINEL
    ensures InRound(a, b, p, p, d, Max(-d, minD), minD, maxD, minD, maxD)
    ensures (d - Min(d, maxD)) % 2 == 0
  {
    RoundBounds(a, b, p, d, minD, maxD);
    BoundsParity(d, minD, maxD);
  }

  lemma LeaveRound<T>(a: seq<T>, b: seq<T>, p0: map<int, Path>, p: map<int, Path>, d: int, k: int,
                      minD0: int, maxD0: int, minD: int, maxD: int)
    requires |a| <= SENTINEL && |b| <= SENTINEL
    requires RoundStart(a, b, p0, d, minD0, maxD0)
    requires InRound(a, b, p0, p, d, k, minD0, maxD0, minD, maxD) && k > Min(d, maxD0)
    ensures RoundStart(a, b, p, d + 1, minD, maxD)
  {
    RoundDone(a, b, p0, p, d, k, minD0, maxD0, minD, maxD);
  }

  /** What the two map entries read for diagonal k are. */
  lemma ReadNeighbours<T>(a: seq<T>, b: seq<T>, p0: map<int, Path>, p: map<int, Path>, d: int, k: int,
                          minD0: int, maxD0: int, minD: int, maxD: int)
    requires RoundStart(a, b, p0, d, minD0, maxD0)
    requires InRound(a, b, p0, p, d, k, minD0, maxD0, minD, maxD)
    ensures k - 1 in p <==> k - 1 in p0
    ensures k + 1 in p <==> k + 1 in p0
    ensures k - 1 in p ==> p[k - 1] == p0[k - 1] && Usable(a, b, p[k - 1], k - 1, d - 1)
    ensures k + 1 in p ==> p[k + 1] == p0[k + 1] && Usable(a, b, p[k + 1], k + 1, d - 1)
  {
    TwoOn(d, k);
  }

  /** A genuine path to both ends, of least cost, and the one the rounds choose. */
  ghost predicate Best<T>(c: Chain, a: seq<T>, b: seq<T>) {
    ChainOK(c, a, b, |a|, |b|) && Cost(c) == Dist(a, b, |a|, |b|) && Chosen(c, a, b, |a|, |b|)
  }

  /** r and e are the paths p holds on the diagonals next to k, where it holds any. */
  ghost predicate Around(p: map<int, Path>, k: int, hasRemove: bool, r: Path, hasAdd: bool, e: Path) {
    && (hasRemove <==> k - 1 in p) && (hasRemove ==> r == p[k - 1])
    && (hasAdd <==> k + 1 in p) && (hasAdd ==> e == p[k + 1])
  }

  /** A token can be removed, or added, behind the path. */
  ghost predicate CanRemove<T>(a: seq<T>, hasRemove: bool, r: Path) {
    hasRemove && r.reach < |a|
  }

  ghost predicate CanAdd<T>(b: seq<T>, k: int, hasAdd: bool, e: Path) {
    hasAdd && e.reach - (k + 1) < |b|
  }

  /** The point x of diagonal k lies at least as far as one edit from there leads. */
  ghost predicate AsFar<T>(a: seq<T>, b: seq<T>, k: int, hasRemove: bool, r: Path, hasAdd: bool, e: Path, x: int) {
    (CanRemove(a, hasRemove, r) ==> r.reach + 1 <= x) && (CanAdd(b, k, hasAdd, e) ==> e.reach <= x)
  }

  /** What is known of the paths on the diagonals next to k, if there are any. */
  ghost predicate Neighbours<T>(a: seq<T>, b: seq<T>, d: int, k: int, hasRemove: bool, r: Path, hasAdd: bool, e: Path) {
    && (if hasRemove then Usable(a, b, r, k - 1, d - 1) && Furthest(a, b, d - 1, k - 1, r.reach)
        else NothingFrom(a, b, d - 1, k - 1, 0))
    && (if hasAdd then Usable(a, b, e, k + 1, d - 1) && Furthest(a, b, d - 1, k + 1, e.reach)
        else NothingFrom(a, b, d - 1, k + 1, 0))
    && (hasRemove && r.reach == |a| ==> !hasAdd) && (hasAdd && e.reach - (k + 1) == |b| ==> !hasRemove)
  }

  /** One edit from there and all matches behind it lead as far as d edits can. */
  lemma FoundFurthest<T>(a: seq<T>, b: seq<T>, d: int, k: int, hasRemove: bool, r: Path, hasAdd: bool, e: Path, n: Path)
    requires Neighbours(a, b, d, k, hasRemove, r, hasAdd, e) && (CanRemove(a, hasRemove, r) || CanAdd(b, k, hasAdd, e))
    requires Genuine(a, b, n, k, d) && Stopped(a, b, n.reach, n.reach - k)
    requires AsFar(a, b, k, hasRemove, r, hasAdd, e, n.reach)
    ensures Furthest(a, b, d, k, n.reach)
  {
    var x := n.reach;
    assert NothingFrom(a, b, d - 1, k - 1, x) by {
      assert hasRemove ==> NothingFrom(a, b, d - 1, k - 1, r.reach + 1);
    }
    assert NothingFrom(a, b, d - 1, k + 1, x + 1) by {
      assert hasAdd ==> NothingFrom(a, b, d - 1, k + 1, e.reach + 1);
    }
    ChainCost(n.chain, a, b, x, x - k);
    FurthestStep(a, b, d, k, x);
  }

  /** A path at an edge has no neighbour on the other side of the diagonal. */
  lemma Possible<T>(a: seq<T>, b: seq<T>, d: int, k: int, hasRemove: bool, r: Path, hasAdd: bool, e: Path)
    requires Neighbours(a, b, d, k, hasRemove, r, hasAdd, e)
    ensures hasAdd ==> 0 <= e.reach - k - 1
    ensures hasRemove && !CanRemove(a, hasRemove, r) ==> !hasAdd
    ensures hasAdd && !CanAdd(b, k, hasAdd, e) ==> !hasRemove
  {
  }

  lemma NeighboursOf<T>(a: seq<T>, b: seq<T>, p0: map<int, Path>, p: map<int, Path>, d: int, k: int,
                        minD0: int, maxD0: int, minD: int, maxD: int,
                        hasRemove: bool, r: Path, hasAdd: bool, e: Path)
    requires |a| <= SENTINEL && |b| <= SENTINEL
    requires RoundStart(a, b, p0, d, minD0, maxD0)
    requires InRound(a, b, p0, p, d, k, minD0, maxD0, minD, maxD) && k <= Min(d, maxD0)
    requires Around(p, k, hasRemove, r, hasAdd, e)
    ensures Neighbours(a, b, d, k, hasRemove, r, hasAdd, e)
  {
    ReadNeighbours(a, b, p0, p, d, k, minD0, maxD0, minD, maxD);
    Predecessors(a, b, p0, d, minD0, maxD0, k);
  }

  /** A path that is furthest for d edits is so for those it has. */
  lemma FurthestAtCost<T>(a: seq<T>, b: seq<T>, d: int, k: int, n: Path)
    requires Usable(a, b, n, k, d) && Furthest(a, b, d, k, n.reach)
    ensures Furthest(a, b, Cost(n.chain), k, n.reach)
  {
    ChainCost(n.chain, a, b, n.reach, n.reach - k);
  }

  lemma RemoveChosen<T>(a: seq<T>, b: seq<T>, d: int, k: int, r: Path, hasAdd: bool, e: Path, x: int)
    requires Neighbours(a, b, d, k, true, r, hasAdd, e) && r.reach < |a| && x == r.reach + 1 && 0 <= x - k <= |b|
    requires hasAdd ==> e.reach <= r.reach
    ensures ChosenEdit(Removed, Cost(r.chain), a, b, x, x - k)
  {
    FurthestAtCost(a, b, d - 1, k - 1, r);
    if x - k > 0 {
      assert OnDiagonal(a, b, k + 1, x);
      assert DiagDist(a, b, k + 1, x) > d - 1;
    }
  }

  lemma AddChosen<T>(a: seq<T>, b: seq<T>, d: int, k: int, hasRemove: bool, r: Path, e: Path, x: int)
    requires Neighbours(a, b, d, k, hasRemove, r, true, e) && e.reach - (k + 1) < |b| && x == e.reach
    requires hasRemove ==> r.reach < e.reach
    ensures ChosenEdit(Added, Cost(e.chain), a, b, x, x - k)
  {
    FurthestAtCost(a, b, d - 1, k + 1, e);
    if x - k < |b| {
      assert OnDiagonal(a, b, k - 1, x);
      assert DiagDist(a, b, k - 1, x) > d - 1;
    }
  }

  lemma Stuck<T>(a: seq<T>, b: seq<T>, p0: map<int, Path>, p: map<int, Path>, d: int, k: int,
                 minD0: int, maxD0: int, minD: int, maxD: int,
                 hasRemove: bool, r: Path, hasAdd: bool, e: Path)
    requires |a| <= SENTINEL && |b| <= SENTINEL
    requires RoundStart(a, b, p0, d, minD0, maxD0)
    requires InRound(a, b, p0, p, d, k, minD0, maxD0, minD, maxD) && k <= Min(d, maxD0)
    requires Around(p, k, hasRemove, r, hasAdd, e) && !CanRemove(a, hasRemove, r) && !CanAdd(b, k, hasAdd, e)
    ensures Blocked(a, b, p0, d, k)
  {
    ReadNeighbours(a, b, p0, p, d, k, minD0, maxD0, minD, maxD);
    Predecessors(a, b, p0, d, minD0, maxD0, k);
  }

  lemma Skipped<T>(a: seq<T>, b: seq<T>, p0: map<int, Path>, p: map<int, Path>, d: int, k: int,
                   minD0: int, maxD0: int, minD: int, maxD: int,
                   hasRemove: bool, r: Path, hasAdd: bool, e: Path)
    requires |a| <= SENTINEL && |b| <= SENTINEL
    requires RoundStart(a, b, p0, d, minD0, maxD0)
    requires InRound(a, b, p0, p, d, k, minD0, maxD0, minD, maxD) && k <= Min(d, maxD0)
    requires Around(p, k, hasRemove, r, hasAdd, e) && !CanRemove(a, hasRemove, r) && !CanAdd(b, k, hasAdd, e)
    ensures InRound(a, b, p0, p - {k - 1} - {k}, d, k + 2, minD0, maxD0, minD, maxD)
  {
    Stuck(a, b, p0, p, d, k, minD0, maxD0, minD, maxD, hasRemove, r, hasAdd, e);
    TwoOn(d, k);
    MidSkip(a, b, p0, p, d, k, minD0, maxD0, minD, maxD);
  }

  lemma Moved<T>(a: seq<T>, b: seq<T>, p0: map<int, Path>, p: map<int, Path>, d: int, k: int, n: Path,
                 minD0: int, maxD0: int, minD: int, maxD: int, minD': int, maxD': int)
    requires InRound(a, b, p0, p, d, k, minD0, maxD0, minD, maxD) && k <= Min(d, maxD0)
    requires Usable(a, b, n, k, d) && Furthest(a, b, d, k, n.reach) && (n.reach < |a| || n.reach - k < |b|)
    requires minD' == if n.reach - k == |b| && k + 1 > minD then k + 1 else minD
    requires maxD' == if n.reach == |a| && k - 1 < maxD then k - 1 else maxD
    ensures InRound(a, b, p0, (p - {k - 1})[k := n], d, k + 2, minD0, maxD0, minD', maxD')
  {
    TwoOn(d, k);
    MidExtend(a, b, p0, p, d, k, n, minD0, maxD0, minD, maxD, minD', maxD');
  }

  /** A path found in round d that ends both texts costs exactly the distance. */
  lemma {:induction false} Finished<T>(a: seq<T>, b: seq<T>, p0: map<int, Path>, d: int, minD0: int,
                                       maxD0: int, k: int, n: Path)
    requires RoundStart(a, b, p0, d, minD0, maxD0)
    requires Usable(a, b, n, k, d) && n.reach == |a| && n.reach - k == |b|
    ensures Best(n.chain, a, b)
  {
    ChainCost(n.chain, a, b, |a|, |b|);
  }

  // ----- the search itself --------------------------------------------------

  /** The node objects of the map hold these paths. */
  ghost predicate Holds(n: PathNode, v: Path)
    reads n
  {
    n.oldPos + 1 == v.reach && n.last == v.chain
  }

  ghost predicate Stores(best: map<int, PathNode>, p: map<int, Path>)
    reads best.Values
  {
    best.Keys == p.Keys && forall j :: j in best ==> Holds(best[j], p[j])
  }

  /** Takes all matches that follow the path n of the node. */
  method ExtractCommon<T(==)>(basePath: PathNode, diagonalPath: int, oldTokens: seq<T>, newTokens: seq<T>,
                              ghost n: Path, ghost cost: int)
    returns (newPos: int, ghost n': Path)
    requires Holds(basePath, n) && Genuine(oldTokens, newTokens, n, diagonalPath, cost)
    requires n.chain.Link? ==> n.chain.kind != Same
    modifies basePath
    ensures Holds(basePath, n') && newPos == n'.reach - 1 - diagonalPath && n.reach <= n'.reach
    ensures Genuine(oldTokens, newTokens, n', diagonalPath, cost) && Cost(n'.chain) == Cost(n.chain)
    ensures Stopped(oldTokens, newTokens, n'.reach, n'.reach - diagonalPath)
    ensures n'.chain == Root ==> n' == n
  {
    var oldPos := basePath.oldPos;
    newPos := oldPos - diagonalPath;
    var commonCount := 0;
    while newPos + 1 < |newTokens| && oldPos + 1 < |oldTokens| && oldTokens[oldPos + 1] == newTokens[newPos + 1]
      invariant commonCount >= 0 && oldPos == basePath.oldPos + commonCount && newPos == oldPos - diagonalPath
      invariant OnDiagonal(oldTokens, newTokens, diagonalPath, oldPos + 1)
      invariant Matches(oldTokens, newTokens, n.reach, n.reach - diagonalPath, commonCount)
      decreases |oldTokens| - oldPos
    {
      newPos := newPos + 1;
      oldPos := oldPos + 1;
      commonCount := commonCount + 1;
    }
    if commonCount > 0 {
      basePath.last := Link(commonCount, Same, basePath.last);
    }
    basePath.oldPos := oldPos;
    n' := Path(oldPos + 1, basePath.last);
    CommonTaken(oldTokens, newTokens, n, diagonalPath, cost, commonCount, n');
  }

  lemma {:induction false} SameLink<T>(c: Chain, a: seq<T>, b: seq<T>, x: int, y: int, n: nat, x': int, y': int)
    requires ChainOK(c, a, b, x, y) && Chosen(c, a, b, x, y) && (c.Link? ==> c.kind != Same)
    requires n > 0 && Matches(a, b, x, y, n) && x' == x + n && y' == y + n && Stopped(a, b, x', y')
    ensures ChainOK(Link(n, Same, c), a, b, x', y') && Chosen(Link(n, Same, c), a, b, x', y')
  {
  }

  lemma CommonTaken<T>(a: seq<T>, b: seq<T>, n: Path, k: int, cost: int, count: int, n': Path)
    requires Genuine(a, b, n, k, cost) && count >= 0 && Matches(a, b, n.reach, n.reach - k, count)
    requires (n.chain.Link? ==> n.chain.kind != Same) && Stopped(a, b, n.reach + count, n.reach - k + count)
    requires n' == if count == 0 then n else Path(n.reach + count, Link(count, Same, n.chain))
    ensures Genuine(a, b, n', k, cost) && Cost(n'.chain) == Cost(n.chain)
  {
    if count > 0 {
      SameLink(n.chain, a, b, n.reach, n.reach - k, count, n'.reach, n'.reach - k);
    }
  }

  /** A chain with one more token of the given kind. */
  function Extended(c: Chain, kind: Kind): Chain {
    if c.Link? && c.kind == kind then Link(c.count + 1, kind, c.previous) else Link(1, kind, c)
  }

  lemma {:induction false} ExtendedOK<T>(c: Chain, kind: Kind, a: seq<T>, b: seq<T>, x: int, y: int)
    requires ChainOK(c, a, b, x, y) && kind != Same
    requires if kind == Added then y < |b| else x < |a|
    requires c == Root ==> Stopped(a, b, 0, 0)
    ensures var (x', y') := if kind == Added then (x, y + 1) else (x + 1, y);
            ChainOK(Extended(c, kind), a, b, x', y')
    ensures Cost(Extended(c, kind)) == Cost(c) + 1
  {
  }

  lemma {:induction false} BeforeExtended(c: Chain, kind: Kind)
    requires (c.Link? ==> c.count > 0) && kind != Same
    ensures var e := Extended(c, kind);
            e.Link? && e.count > 0 && e.kind == kind && Before(e) == c && Cost(e) == Cost(c) + 1
  {
  }

  lemma {:induction false} ChosenLast<T>(c: Chain, e: Chain, a: seq<T>, b: seq<T>, x: int, y: int, x': int, y': int)
    requires e.Link? && e.count > 0 && e.kind != Same && Before(e) == c && Cost(e) == Cost(c) + 1
    requires Chosen(c, a, b, x, y) && ChosenEdit(e.kind, Cost(c), a, b, x', y')
    requires if e.kind == Added then x' == x && y' == y + 1 else x' == x + 1 && y' == y
    ensures Chosen(e, a, b, x', y')
  {
  }

  /** The path on diagonal k + 1, with a token added. */
  lemma AddExtends<T>(a: seq<T>, b: seq<T>, d: int, k: int, hasRemove: bool, r: Path, e: Path, n: Path)
    requires Neighbours(a, b, d, k, hasRemove, r, true, e) && CanAdd(b, k, true, e) && (hasRemove ==> r.reach < e.reach)
    requires n == Path(e.reach, Extended(e.chain, Added))
    ensures Genuine(a, b, n, k, d) && n.chain.Link? && n.chain.kind != Same
  {
    var x, y := n.reach, n.reach - k;
    ExtendedOK(e.chain, Added, a, b, x, y - 1);
    AddChosen(a, b, d, k, hasRemove, r, e, x);
    BeforeExtended(e.chain, Added);
    ChosenLast(e.chain, n.chain, a, b, x, y - 1, x, y);
  }

  /** The path on diagonal k - 1, with a token removed. */
  lemma RemoveExtends<T>(a: seq<T>, b: seq<T>, d: int, k: int, r: Path, hasAdd: bool, e: Path, n: Path)
    requires Neighbours(a, b, d, k, true, r, hasAdd, e) && CanRemove(a, true, r) && (hasAdd ==> e.reach <= r.reach)
    requires n == Path(r.reach + 1, Extended(r.chain, Removed))
    ensures Genuine(a, b, n, k, d) && n.chain.Link? && n.chain.kind != Same
  {
    var x, y := n.reach, n.reach - k;
    ExtendedOK(r.chain, Removed, a, b, x - 1, y);
    RemoveChosen(a, b, d, k, r, hasAdd, e, x);
    BeforeExtended(r.chain, Removed);
    ChosenLast(r.chain, n.chain, a, b, x - 1, y, x, y);
  }

  method AddToPath(path: PathNode, kind: Kind, oldPosInc: int) returns (r: PathNode)
    ensures fresh(r) && r.oldPos == path.oldPos + oldPosInc
    ensures r.last == Extended(path.last, kind)
  {
    var last := path.last;
    if last.Link? && last.kind == kind {
      r := new PathNode(path.oldPos + oldPosInc, Link(last.count + 1, kind, last.previous));
    } else {
      r := new PathNode(path.oldPos + oldPosInc, Link(1, kind, last));
    }
  }

  /** The better of two neighbouring paths, extended by one edit onto diagonal k;
      null when neither can be extended. The ghosts r and e are the paths the two
      nodes hold, n the one of the result. */
  method Branch<T(==)>(removePath: PathNode?, addPath: PathNode?, k: int, oldTokens: seq<T>, newTokens: seq<T>,
                       ghost d: int, ghost r: Path, ghost e: Path)
    returns (base: PathNode?, ghost n: Path)
    requires removePath != null ==> Holds(removePath, r)
    requires addPath != null ==> Holds(addPath, e)
    requires Neighbours(oldTokens, newTokens, d, k, removePath != null, r, addPath != null, e)
    ensures base == null <==>
      !CanRemove(oldTokens, removePath != null, r) && !CanAdd(newTokens, k, addPath != null, e)
    ensures base != null ==>
              fresh(base) && Holds(base, n) && Genuine(oldTokens, newTokens, n, k, d)
              && n.chain.Link? && n.chain.kind != Same
              && AsFar(oldTokens, newTokens, k, removePath != null, r, addPath != null, e, n.reach)
  {
    base, n := null, Path(0, Root);
    var canAdd := false;
    if addPath != null {
      var addPathNewPos := addPath.oldPos - k;
      canAdd := 0 <= addPathNewPos < |newTokens|;
    }
    var canRemove := removePath != null && removePath.oldPos + 1 < |oldTokens|;
    Possible(oldTokens, newTokens, d, k, removePath != null, r, addPath != null, e);
    if !canAdd && !canRemove {
      return;
    }
    if !canRemove || (canAdd && removePath.oldPos < addPath.oldPos) {
      n := Path(e.reach, Extended(e.chain, Added));
      AddExtends(oldTokens, newTokens, d, k, removePath != null, r, e, n);
      base := AddToPath(addPath, Added, 0);
    } else {
      n := Path(r.reach + 1, Extended(r.chain, Removed));
      RemoveExtends(oldTokens, newTokens, d, k, r, addPath != null, e, n);
      base := AddToPath(removePath, Removed, 1);
    }
  }

  /** One diagonal of a round: one edit, and then the matches. */
  method Advance<T(==)>(removePath: PathNode?, addPath: PathNode?, k: int, oldTokens: seq<T>, newTokens: seq<T>,
                        ghost d: int, ghost r: Path, ghost e: Path)
    returns (basePath: PathNode?, newPos: int, ghost n: Path)
    requires removePath != null ==> Holds(removePath, r)
    requires addPath != null ==> Holds(addPath, e)
    requires Neighbours(oldTokens, newTokens, d, k, removePath != null, r, addPath != null, e)
    ensures basePath == null <==>
      !CanRemove(oldTokens, removePath != null, r) && !CanAdd(newTokens, k, addPath != null, e)
    ensures basePath != null ==>
              fresh(basePath) && Holds(basePath, n) && newPos == n.reach - 1 - k
              && Usable(oldTokens, newTokens, n, k, d) && Furthest(oldTokens, newTokens, d, k, n.reach)
  {
    newPos := 0;
    basePath, n := Branch(removePath, addPath, k, oldTokens, newTokens, d, r, e);
    if basePath != null {
      newPos, n := ExtractCommon(basePath, k, oldTokens, newTokens, n, d);
      FoundFurthest(oldTokens, newTokens, d, k, removePath != null, r, addPath != null, e, n);
    }
  }

  /** The nodes next to diagonal k; the one below, no longer needed, is deleted. */
  method TakeNeighbours(best: map<int, PathNode>, k: int, ghost p: map<int, Path>)
    returns (removePath: PathNode?, addPath: PathNode?, rest: map<int, PathNode>, ghost r: Path, ghost e: Path)
    requires Stores(best, p)
    ensures removePath != null ==> Holds(removePath, r)
    ensures addPath != null ==> Holds(addPath, e)
    ensures Around(p, k, removePath != null, r, addPath != null, e) && Stores(rest, p - {k - 1})
  {
    ghost var none := Path(0, Root);
    removePath := if k - 1 in best then best[k - 1] else null;
    addPath := if k + 1 in best then best[k + 1] else null;
    rest := best;
    if removePath != null {
      rest := rest - {k - 1};
    }
    r, e := if removePath != null then p[k - 1] else none, if addPath != null then p[k + 1] else none;
  }

  /** Looks at diagonal k in round d; `last` is the finished path, if it got there. */
  method Visit<T(==)>(best: map<int, PathNode>, k: int, d: int, minD: int, maxD: int, oldTokens: seq<T>,
                      newTokens: seq<T>,
                      ghost p0: map<int, Path>, ghost p: map<int, Path>, ghost minD0: int, ghost maxD0: int)
    returns (best': map<int, PathNode>, minD': int, maxD': int, done: bool, last: Chain, ghost p': map<int, Path>)
    requires |oldTokens| <= SENTINEL && |newTokens| <= SENTINEL && Stores(best, p)
    requires RoundStart(oldTokens, newTokens, p0, d, minD0, maxD0)
    requires InRound(oldTokens, newTokens, p0, p, d, k, minD0, maxD0, minD, maxD) && k <= Min(d, maxD0)
    ensures done ==> Best(last, oldTokens, newTokens)
    ensures !done ==> Stores(best', p') && InRound(oldTokens, newTokens, p0, p', d, k + 2, minD0, maxD0, minD', maxD')
  {
    var removePath, addPath, rest, r, e := TakeNeighbours(best, k, p);
    ghost var hasRemove, hasAdd := removePath != null, addPath != null;
    NeighboursOf(oldTokens, newTokens, p0, p, d, k, minD0, maxD0, minD, maxD, hasRemove, r, hasAdd, e);
    var basePath, newPos, n := Advance(removePath, addPath, k, oldTokens, newTokens, d, r, e);
    best', minD', maxD', done, last, p' :=
      Record(rest, basePath, newPos, n, k, d, minD, maxD, oldTokens, newTokens, p0, p, minD0, maxD0,
             hasRemove, r, hasAdd, e);
  }

  /** What the visit found: nothing, the end of both texts, or a path n to keep. */
  method Record<T(==)>(best: map<int, PathNode>, basePath: PathNode?, newPos: int, ghost n: Path, k: int, d: int,
                       minD: int, maxD: int,
                       oldTokens: seq<T>, newTokens: seq<T>,
                       ghost p0: map<int, Path>, ghost p: map<int, Path>, ghost minD0: int, ghost maxD0: int,
                       ghost hasRemove: bool, ghost r: Path, ghost hasAdd: bool, ghost e: Path)
    returns (best': map<int, PathNode>, minD': int, maxD': int, done: bool, last: Chain, ghost p': map<int, Path>)
    requires |oldTokens| <= SENTINEL && |newTokens| <= SENTINEL
    requires Stores(best, p - {k - 1}) && Around(p, k, hasRemove, r, hasAdd, e)
    requires RoundStart(oldTokens, newTokens, p0, d, minD0, maxD0)
    requires InRound(oldTokens, newTokens, p0, p, d, k, minD0, maxD0, minD, maxD) && k <= Min(d, maxD0)
    requires basePath == null ==> !CanRemove(oldTokens, hasRemove, r) && !CanAdd(newTokens, k, hasAdd, e)
    requires basePath != null ==>
               Holds(basePath, n) && newPos == n.reach - 1 - k
               && Usable(oldTokens, newTokens, n, k, d) && Furthest(oldTokens, newTokens, d, k, n.reach)
    ensures done ==> Best(last, oldTokens, newTokens)
    ensures !done ==> Stores(best', p') && InRound(oldTokens, newTokens, p0, p', d, k + 2, minD0, maxD0, minD', maxD')
  {
    best', minD', maxD', done, last, p' := best, minD, maxD, false, Root, p - {k - 1};
    if basePath == null {
      best', p' := best' - {k}, p' - {k};
      Skipped(oldTokens, newTokens, p0, p, d, k, minD0, maxD0, minD, maxD, hasRemove, r, hasAdd, e);
      return;
    }
    if basePath.oldPos + 1 >= |oldTokens| && newPos + 1 >= |newTokens| {
      Finished(oldTokens, newTokens, p0, d, minD0, maxD0, k, n);
      done, last := true, basePath.last;
      return;
    }
    best', p' := best'[k := basePath], p'[k := n];
    if basePath.oldPos + 1 >= |oldTokens| && k - 1 < maxD {
      maxD' := k - 1;
    }
    if newPos + 1 >= |newTokens| && k + 1 > minD {
      minD' := k + 1;
    }
    Moved(oldTokens, newTokens, p0, p, d, k, n, minD0, maxD0, minD, maxD, minD', maxD');
  }

  /** All diagonals of one round, from the bounds read at its start. */
  method VisitAll<T(==)>(best: map<int, PathNode>, d: int, minD: int, maxD: int, oldTokens: seq<T>, newTokens: seq<T>,
                         ghost p: map<int, Path>)
    returns (best': map<int, PathNode>, minD': int, maxD': int, done: bool, last: Chain, ghost p': map<int, Path>)
    requires |oldTokens| <= SENTINEL && |newTokens| <= SENTINEL
    requires Stores(best, p) && RoundStart(oldTokens, newTokens, p, d, minD, maxD)
    ensures done ==> Best(last, oldTokens, newTokens)
    ensures !done ==> Stores(best', p') && RoundStart(oldTokens, newTokens, p', d + 1, minD', maxD')
  {
    var k, upper := Max(-d, minD), Min(d, maxD);
    best', minD', maxD', done, last, p' := best, minD, maxD, false, Root, p;
    EnterRound(oldTokens, newTokens, p, d, minD, maxD);
    while k <= upper
      invariant Stores(best', p') && InRound(oldTokens, newTokens, p, p', d, k, minD, maxD, minD', maxD') && !done
      decreases upper - k
    {
      best', minD', maxD', done, last, p' := Visit(best', k, d, minD', maxD', oldTokens, newTokens, p, p', minD, maxD);
      if done {
        return;
      }
      k := k + 2;
    }
    LeaveRound(oldTokens, newTokens, p, p', d, k, minD, maxD, minD', maxD');
  }

  lemma {:induction false} FirstRound<T>(a: seq<T>, b: seq<T>, n: Path, p: map<int, Path>)
    requires Genuine(a, b, n, 0, 0) && Stopped(a, b, n.reach, n.reach) && (n.chain == Root ==> n.reach == 0)
    requires (n.reach < |a| || n.reach < |b|) && |a| <= SENTINEL && |b| <= SENTINEL && p == map[0 := n]
    ensures RoundStart(a, b, p, 1, -SENTINEL, SENTINEL)
  {
    ChainCost(n.chain, a, b, n.reach, n.reach);
    FirstFrontier(a, b, n.reach, n.chain);
  }

  lemma {:induction false} OnlyMatches<T>(a: seq<T>, b: seq<T>, n: Path)
    requires Genuine(a, b, n, 0, 0) && n.reach == |a| == |b|
    ensures Best(n.chain, a, b)
  {
    ChainCost(n.chain, a, b, |a|, |b|);
  }

  lemma NoMoreRounds<T>(a: seq<T>, b: seq<T>, p: map<int, Path>, d: int, minD: int, maxD: int)
    requires RoundStart(a, b, p, d, minD, maxD) && |a| <= SENTINEL && |b| <= SENTINEL
    ensures d <= |a| + |b|
  {
    DistBounds(a, b, |a|, |b|);
  }

  /** A path of least cost from the origin to the end of both texts. The bound on
      the lengths keeps the stand-in for infinity above every diagonal. */
  method Search<T(==)>(oldTokens: seq<T>, newTokens: seq<T>) returns (last: Chain)
    requires |oldTokens| <= SENTINEL && |newTokens| <= SENTINEL
    ensures Best(last, oldTokens, newTokens)
  {
    var oldLen, newLen := |oldTokens|, |newTokens|;
    var start := new PathNode(-1, Root);
    var newPos, n := ExtractCommon(start, 0, oldTokens, newTokens, Path(0, Root), 0);
    if start.oldPos + 1 >= oldLen && newPos + 1 >= newLen {
      OnlyMatches(oldTokens, newTokens, n);
      return start.last;
    }
    var best: map<int, PathNode> := map[0 := start];
    ghost var p := map[0 := n];
    FirstRound(oldTokens, newTokens, n, p);
    var minD, maxD := -SENTINEL, SENTINEL;
    var d := 1;
    while d <= newLen + oldLen
      invariant Stores(best, p) && RoundStart(oldTokens, newTokens, p, d, minD, maxD)
    {
      var done;
      best, minD, maxD, done, last, p := VisitAll(best, d, minD, maxD, oldTokens, newTokens, p);
      if done {
        return;
      }
      d := d + 1;
    }
    NoMoreRounds(oldTokens, newTokens, p, d, minD, maxD);
    assert false;
    last := Root;
  }
}
