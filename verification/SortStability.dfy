/** When the exchange sort of summaries keeps those with equal starts in their order. */
module SortStability {
  import opened Text
  import opened Compaction

  // ----- turning the front of a list ----------------------------------------

  /** The first of the first n goes behind the others of them. */
  function Turn<T>(l: seq<T>, n: nat): (r: seq<T>)
    requires n <= |l|
    ensures |r| == |l|
  {
    seq(|l|, p requires 0 <= p < |l| => if p + 1 < n then l[p + 1] else if p + 1 == n then l[0] else l[p])
  }

  ghost predicate UpTo(ns: seq<nat>, m: nat) {
    ns == [] || (UpTo(Init(ns), m) && Last(ns) <= m)
  }

  lemma TurnNone<T>(l: seq<T>)
    ensures Turn(l, 0) == l
  {
  }

  lemma {:induction false} UpToMore(ns: seq<nat>, m: nat, n: nat)
    requires UpTo(ns, m) && m <= n
    ensures UpTo(ns, n)
  {
    if ns != [] {
      UpToMore(Init(ns), m, n);
    }
  }

  /** Turn after turn. */
  function Turned<T>(l: seq<T>, ns: seq<nat>): (r: seq<T>)
    requires UpTo(ns, |l|)
    ensures |r| == |l|
  {
    if ns == [] then l else Turn(Turned(l, Init(ns)), Last(ns))
  }

  lemma {:induction false} TurnFirst<T>(l: seq<T>, n: nat, ns: seq<nat>)
    requires n <= |l| && UpTo(ns, |l|)
    ensures UpTo([n] + ns, |l|) && Turned(l, [n] + ns) == Turned(Turn(l, n), ns)
  {
    if ns == [] {
      Nil([n]);
      assert Init([n]) == [];
    } else {
      InitAppend([n], ns);
      TurnFirst(l, n, Init(ns));
    }
  }

  /** Behind the longest turn nothing moves. */
  lemma {:induction false} TurnedKeeps<T>(l: seq<T>, ns: seq<nat>, m: nat, p: nat)
    requires m <= p < |l| && UpTo(ns, m)
    ensures UpTo(ns, |l|) && Turned(l, ns)[p] == l[p]
  {
    UpToMore(ns, m, |l|);
    if ns != [] {
      TurnedKeeps(l, Init(ns), m, p);
    }
  }

  /** m times the same turn. */
  function TurnedBy<T>(l: seq<T>, n: nat, m: nat): (r: seq<T>)
    requires n <= |l|
    ensures |r| == |l|
  {
    if m == 0 then l else Turn(TurnedBy(l, n, m - 1), n)
  }

  lemma {:induction false} AtLeastOnce(n: nat, k: nat)
    requires k >= 1
    ensures n * k >= n
  {
    if k > 1 {
      AtLeastOnce(n, k - 1);
      assert n * k == n * (k - 1) + n;
    }
  }

  lemma Spread(n: nat, a: int, b: int)
    ensures n * (a - b) == n * a - n * b
  {
  }

  lemma QuotientIs(n: nat, q: int, r: int, e: int, f: int)
    requires 0 <= r < n && 0 <= f < n && n * q + r == n * e + f
    ensures r == f
  {
    Spread(n, q, e);
    Spread(n, e, q);
    if e < q {
      AtLeastOnce(n, q - e);
    }
    if q < e {
      AtLeastOnce(n, e - q);
    }
  }

  lemma RemainderIs(x: int, n: nat, q: int, r: int)
    requires 0 <= r < n && x == n * q + r
    ensures x % n == r
  {
    QuotientIs(n, q, r, x / n, x % n);
  }

  lemma Around(n: nat, m: nat)
    requires n > 0 && m > 0
    ensures (n - 1 + m) % n == (m - 1) % n
  {
    var q, r := (m - 1) / n, (m - 1) % n;
    assert n * (q + 1) == n * q + n;
    RemainderIs(n - 1 + m, n, q + 1, r);
  }

  lemma {:induction false} TurnedByAt<T>(l: seq<T>, n: nat, m: nat, p: nat, from: nat)
    requires p < |l| && n <= |l| && if p < n then from == (p + m) % n else from == p
    ensures from < |l| && TurnedBy(l, n, m)[p] == l[from]
  {
    if m == 0 {
      if p < n {
        RemainderIs(p, n, 0, p);
      }
    } else if p + 1 < n {
      TurnedByAt(l, n, m - 1, p + 1, from);
    } else if p + 1 == n {
      Around(n, m);
      TurnedByAt(l, n, m - 1, 0, from);
    } else {
      TurnedByAt(l, n, m - 1, p, from);
    }
  }

  lemma {:induction false} RoundAt<T>(l: seq<T>, n: nat, m: nat, p: nat)
    requires p < |l| && 0 < n <= |l| && m % n == 0
    ensures TurnedBy(l, n, m)[p] == l[p]
  {
    if p < n {
      assert m == n * (m / n) + m % n;
      RemainderIs(p + m, n, m / n, p);
    }
    TurnedByAt(l, n, m, p, p);
  }

  /** Turns of n come back to the start after a multiple of n. */
  lemma {:induction false} TurnedRound<T>(l: seq<T>, n: nat, m: nat)
    requires 0 < n <= |l| && m % n == 0
    ensures TurnedBy(l, n, m) == l
  {
    forall p | 0 <= p < |l| ensures TurnedBy(l, n, m)[p] == l[p] {
      RoundAt(l, n, m, p);
    }
  }

  function Count(ns: seq<nat>, n: nat): nat {
    if ns == [] then 0 else Count(Init(ns), n) + if Last(ns) == n then 1 else 0
  }

  function Below(ns: seq<nat>, n: nat): seq<nat> {
    if ns == [] then [] else if Last(ns) < n then Below(Init(ns), n) + [Last(ns)] else Below(Init(ns), n)
  }

  ghost predicate Ascending(ns: seq<nat>) {
    ns == [] || (Ascending(Init(ns)) && UpTo(Init(ns), Last(ns)))
  }

  lemma {:induction false} BelowUpTo(ns: seq<nat>, n: nat, m: nat)
    requires UpTo(ns, m)
    ensures UpTo(Below(ns, n), m)
  {
    if ns != [] {
      BelowUpTo(Init(ns), n, m);
      InitPush(Below(Init(ns), n), Last(ns));
    }
  }

  lemma {:induction false} BelowAscends(ns: seq<nat>, n: nat)
    requires Ascending(ns) && n > 0
    ensures Ascending(Below(ns, n)) && UpTo(Below(ns, n), n - 1)
  {
    if ns != [] {
      BelowAscends(Init(ns), n);
      BelowUpTo(Init(ns), n, Last(ns));
      InitPush(Below(Init(ns), n), Last(ns));
    }
  }

  lemma {:induction false} BelowCount(ns: seq<nat>, n: nat, m: nat)
    requires m < n
    ensures Count(Below(ns, n), m) == Count(ns, m)
  {
    if ns != [] {
      BelowCount(Init(ns), n, m);
      InitPush(Below(Init(ns), n), Last(ns));
    }
  }

  lemma {:induction false} AllBelow(ns: seq<nat>, n: nat)
    requires n > 0 && UpTo(ns, n - 1)
    ensures Below(ns, n) == ns && Count(ns, n) == 0
  {
    if ns != [] {
      AllBelow(Init(ns), n);
      InitLast(ns);
    }
  }

  /** The longest turns come last. */
  lemma {:induction false} LongestLast<T>(l: seq<T>, ns: seq<nat>, n: nat)
    requires Ascending(ns) && UpTo(ns, n) && 0 < n <= |l| && UpTo(ns, |l|) && UpTo(Below(ns, n), |l|)
    ensures Turned(l, ns) == TurnedBy(Turned(l, Below(ns, n)), n, Count(ns, n))
  {
    if ns != [] {
      if Last(ns) == n {
        Nil(Below(Init(ns), n));
        LongestLast(l, Init(ns), n);
      } else {
        UpToMore(Init(ns), Last(ns), n - 1);
        AllBelow(ns, n);
      }
    }
  }

  ghost predicate Distinct<T>(l: seq<T>) {
    forall i, j :: 0 <= i < j < |l| ==> l[i] != l[j]
  }

  /** Each n is found a multiple of n times. */
  ghost predicate Whole(ns: seq<nat>) {
    forall n: nat :: n >= 1 ==> Count(ns, n) % n == 0
  }

  ghost predicate WholeTo(ns: seq<nat>, m: nat) {
    forall n: nat :: 1 <= n <= m ==> Count(ns, n) % n == 0
  }

  lemma WholeBelow(ns: seq<nat>, n: nat)
    requires Ascending(ns) && n > 0
    ensures WholeTo(ns, n) <==> WholeTo(Below(ns, n), n - 1) && Count(ns, n) % n == 0
  {
    forall m: nat | m < n ensures Count(Below(ns, n), m) == Count(ns, m) {
      BelowCount(ns, n, m);
    }
  }

  /** Ascending turns leave a list as it is if each is made a multiple of its length
      many times ... */
  lemma {:induction false} WholeTurns<T>(l: seq<T>, ns: seq<nat>, n: nat)
    requires Ascending(ns) && UpTo(ns, n) && n <= |l| && WholeTo(ns, n)
    ensures UpTo(ns, |l|) && Turned(l, ns) == l
    decreases n
  {
    UpToMore(ns, n, |l|);
    if n == 0 {
      NoTurns(l, ns);
    } else {
      BelowAscends(ns, n);
      WholeBelow(ns, n);
      WholeTurns(l, Below(ns, n), n - 1);
      LongestLast(l, ns, n);
      TurnedRound(l, n, Count(ns, n));
    }
  }

  lemma {:induction false} NoTurns<T>(l: seq<T>, ns: seq<nat>)
    requires UpTo(ns, 0)
    ensures UpTo(ns, |l|) && Turned(l, ns) == l
  {
    UpToMore(ns, 0, |l|);
    if ns != [] {
      NoTurns(l, Init(ns));
    }
  }

  /** ... and only then, if its elements differ. */
  lemma {:induction false} TurnsWhole<T>(l: seq<T>, ns: seq<nat>, n: nat)
    requires Ascending(ns) && UpTo(ns, n) && n <= |l| && Distinct(l) && UpTo(ns, |l|) && Turned(l, ns) == l
    ensures WholeTo(ns, n)
    decreases n
  {
    if n > 0 {
      BelowAscends(ns, n);
      UpToMore(Below(ns, n), n - 1, |l|);
      LongestWhole(l, ns, n, n - 1);
      TurnsWhole(l, Below(ns, n), n - 1);
      WholeBelow(ns, n);
    }
  }

  /** The longest turns bring the last they reach back to its place, and so all. */
  lemma {:induction false} LongestWhole<T>(l: seq<T>, ns: seq<nat>, n: nat, last: nat)
    requires Ascending(ns) && UpTo(ns, n) && 0 < n <= |l| && Distinct(l) && UpTo(ns, |l|) && Turned(l, ns) == l
    requires last == n - 1 && UpTo(Below(ns, n), last) && UpTo(Below(ns, n), |l|)
    ensures Count(ns, n) % n == 0 && Turned(l, Below(ns, n)) == l
  {
    var m, l' := Count(ns, n), Turned(l, Below(ns, n));
    LongestLast(l, ns, n);
    TurnedKeeps(l, Below(ns, n), last, last);
    LastBack(l, l', n, m);
    TurnedRound(l', n, m);
  }

  lemma {:induction false} LastBack<T>(l: seq<T>, l': seq<T>, n: nat, m: nat)
    requires 0 < n <= |l| == |l'| && Distinct(l) && l'[n - 1] == l[n - 1] && TurnedBy(l', n, m) == l
    ensures m % n == 0
  {
    var q, r := m / n, m % n;
    var p := n - 1 - r;
    assert m == n * q + r;
    RemainderIs(p + m, n, q, n - 1);
    TurnedByAt(l', n, m, p, n - 1);
    assert l[p] == l[n - 1];
  }

  // ----- summaries with one start -------------------------------------------

  /** From index i up to j, those that start at v. */
  function Class(s: seq<BranchSummary>, v: int, i: nat, j: nat): seq<BranchSummary>
    requires j <= |s|
  {
    if j <= i then [] else if s[j - 1].startIdx == v then Class(s, v, i, j - 1) + [s[j - 1]] else Class(s, v, i, j - 1)
  }

  /** For each that starts before v, how many that start at v are recorded before it. */
  function Passed(s: seq<BranchSummary>, v: int, i: nat, j: nat): seq<nat>
    requires j <= |s|
  {
    if j <= i then []
    else if s[j - 1].startIdx < v then Passed(s, v, i, j - 1) + [|Class(s, v, i, j - 1)|]
    else Passed(s, v, i, j - 1)
  }

  lemma {:induction false} ClassGrows(s: seq<BranchSummary>, v: int, i: nat, j: nat)
    requires i <= j <= |s|
    ensures Ascending(Passed(s, v, i, j)) && UpTo(Passed(s, v, i, j), |Class(s, v, i, j)|)
  {
    if i < j {
      ClassGrows(s, v, i, j - 1);
      UpToMore(Passed(s, v, i, j - 1), |Class(s, v, i, j - 1)|, |Class(s, v, i, j)|);
      if s[j - 1].startIdx < v {
        InitPush(Passed(s, v, i, j - 1), |Class(s, v, i, j - 1)|);
      }
    }
  }

  lemma {:induction false} ClassOne(s: seq<BranchSummary>, v: int, i: nat, j: nat)
    requires i < |s| && j == i + 1
    ensures Class(s, v, i, i) == [] && Passed(s, v, i, i) == []
    ensures Class(s, v, i, j) == if s[i].startIdx == v then [s[i]] else []
    ensures Passed(s, v, i, j) == if s[i].startIdx < v then [0] else []
  {
    assert Class(s, v, i, i) == [] && Passed(s, v, i, i) == [];
  }

  lemma {:induction false} ClassNext(s: seq<BranchSummary>, v: int, i: nat, j: nat, next: nat)
    requires i <= j < |s| && next == j + 1
    ensures Class(s, v, i, next) == if s[j].startIdx == v then Class(s, v, i, j) + [s[j]] else Class(s, v, i, j)
    ensures Passed(s, v, i, next) == if s[j].startIdx < v then Passed(s, v, i, j) + [|Class(s, v, i, j)|]
            else Passed(s, v, i, j)
  {
  }

  lemma {:induction false} ClassHead(s: seq<BranchSummary>, v: int, i: nat, j: nat, next: nat)
    requires i < j <= |s| && next == i + 1
    ensures Class(s, v, i, j) == (if s[i].startIdx == v then [s[i]] else []) + Class(s, v, next, j)
  {
    if j == next {
      ClassOne(s, v, i, j);
      Nil(Class(s, v, i, j));
    } else {
      ClassHead(s, v, i, j - 1, next);
      Assoc(if s[i].startIdx == v then [s[i]] else [], Class(s, v, next, j - 1), [s[j - 1]]);
    }
  }

  lemma {:induction false} PassedHead(s: seq<BranchSummary>, v: int, i: nat, j: nat, next: nat)
    requires i < j <= |s| && next == i + 1 && s[i].startIdx != v
    ensures Class(s, v, i, j) == Class(s, v, next, j)
    ensures Passed(s, v, i, j) == (if s[i].startIdx < v then [0] else []) + Passed(s, v, next, j)
  {
    if j == next {
      ClassOne(s, v, i, j);
      Nil(Passed(s, v, i, j));
    } else {
      var k := j - 1;
      PassedHead(s, v, i, k, next);
      ClassNext(s, v, i, k, j);
      ClassNext(s, v, next, k, j);
      Assoc(if s[i].startIdx < v then [0] else [], Passed(s, v, next, k), [|Class(s, v, i, k)|]);
    }
  }

  /** The two look alike from i to j for one who only looks at v. */
  ghost predicate Alike(s: seq<BranchSummary>, r: seq<BranchSummary>, v: int, i: nat, j: nat)
    requires j <= |s| == |r|
  {
    forall k :: i <= k < j ==>
      (s[k] == r[k] || (s[k].startIdx != v && r[k].startIdx != v && (s[k].startIdx < v <==> r[k].startIdx < v)))
  }

  lemma {:induction false} AlikeClass(s: seq<BranchSummary>, r: seq<BranchSummary>, v: int, i: nat, j: nat)
    requires j <= |s| == |r| && Alike(s, r, v, i, j)
    ensures Class(s, v, i, j) == Class(r, v, i, j) && Passed(s, v, i, j) == Passed(r, v, i, j)
  {
    if i < j {
      AlikeClass(s, r, v, i, j - 1);
    }
  }

  lemma {:induction false} NonePassed(s: seq<BranchSummary>, v: int, i: nat, j: nat)
    requires j <= |s| && forall k :: i <= k < j ==> s[k].startIdx >= v
    ensures Passed(s, v, i, j) == []
    ensures (forall k :: i <= k < j ==> s[k].startIdx > v) ==> Class(s, v, i, j) == []
  {
    if i < j {
      NonePassed(s, v, i, j - 1);
    }
  }

  // ----- one pass -----------------------------------------------------------

  /** Once element i starts before v, the pass does not touch those that start at v. */
  lemma {:induction false} PassBelow(s: seq<BranchSummary>, v: int, i: nat, j: nat)
    requires i < j <= |s| && s[i].startIdx < v
    ensures var r := Pass(s, i, j); r[i].startIdx < v && Alike(s, r, v, i + 1, |s|)
    decreases |s| - j
  {
    if j < |s| {
      PassBelow(if s[j].startIdx < s[i].startIdx then Swap(s, i, j) else s, v, i, j + 1);
    }
  }

  /** The exchange that brings something before v to i, at its own place ... */
  lemma {:induction false} SwapTurnsHere(s: seq<BranchSummary>, r: seq<BranchSummary>, v: int, i: nat, j: nat,
                                         k: nat, n: nat, next: nat)
    requires i < j < |s| && k == j + 1 && r == Swap(s, i, j) && s[j].startIdx < v <= s[i].startIdx
             && n == |Class(s, v, i, j)|
    requires next == i + 1 && forall l :: i < l < j ==> s[i].startIdx <= s[l].startIdx
    ensures FirstTurned(s, r, v, i, next, k, n)
  {
    ClassNext(s, v, i, j, k);
    NonePassed(s, v, i, j);
    NonePassed(r, v, next, k);
    Nil([n]);
    SwapMoves(s, r, v, i, j, k, n, next);
  }

  lemma {:induction false} SwapMoves(s: seq<BranchSummary>, r: seq<BranchSummary>, v: int, i: nat, j: nat,
                                     k: nat, n: nat, next: nat)
    requires i < j < |s| && k == j + 1 && r == Swap(s, i, j) && s[j].startIdx < v <= s[i].startIdx
             && n == |Class(s, v, i, j)|
    requires next == i + 1 && forall l :: i < l < j ==> s[i].startIdx <= s[l].startIdx
    ensures Class(r, v, next, k) == Turn(Class(s, v, i, j), n)
  {
    ClassNext(r, v, next, j, k);
    AlikeClass(s, r, v, next, j);
    ClassHead(s, v, i, j, next);
    if s[i].startIdx == v {
      FrontTurned(s[i], Class(s, v, next, j), n);
    } else {
      NonePassed(s, v, next, j);
    }
  }

  ghost predicate FirstTurned(s: seq<BranchSummary>, r: seq<BranchSummary>, v: int, i: nat, next: nat, k: nat, n: nat)
    requires k <= |s| == |r|
  {
    && n <= |Class(s, v, i, k)| && Class(r, v, next, k) == Turn(Class(s, v, i, k), n)
    && Passed(s, v, i, k) == [n] + Passed(r, v, next, k)
  }

  /** ... and behind it. */
  lemma {:induction false} SwapTurns(s: seq<BranchSummary>, r: seq<BranchSummary>, v: int, i: nat, j: nat,
                                     k: nat, n: nat, next: nat)
    requires i < j < k <= |s| && r == Swap(s, i, j) && s[j].startIdx < v <= s[i].startIdx && n == |Class(s, v, i, j)|
             && next == i + 1
    requires forall l :: i < l < j ==> s[i].startIdx <= s[l].startIdx
    ensures FirstTurned(s, r, v, i, next, k, n)
  {
    if k == j + 1 {
      SwapTurnsHere(s, r, v, i, j, k, n, next);
    } else {
      SwapTurns(s, r, v, i, j, k - 1, n, next);
      TurnsOn(s, r, v, i, next, k - 1, n, k);
    }
  }

  lemma TurnsOn(s: seq<BranchSummary>, r: seq<BranchSummary>, v: int, i: nat, next: nat, k: nat, n: nat, k': nat)
    requires i < next <= k < |s| == |r| && k' == k + 1 && s[k] == r[k] && FirstTurned(s, r, v, i, next, k, n)
    ensures FirstTurned(s, r, v, i, next, k', n)
  {
    ClassNext(s, v, i, k, k');
    ClassNext(r, v, next, k, k');
    TurnThenMore(Class(s, v, i, k), n, [s[k]]);
    Assoc([n], Passed(r, v, next, k), [|Class(s, v, i, k)|]);
  }

  lemma FrontTurned<T>(x: T, l: seq<T>, n: nat)
    requires n == |l| + 1
    ensures Turn([x] + l, n) == l + [x]
  {
    var s := [x] + l;
    forall p | 0 <= p < n ensures Turn(s, n)[p] == (l + [x])[p] {
      assert s[0] == x && (p + 1 < n ==> s[p + 1] == l[p]);
    }
  }

  lemma TurnThenMore<T>(l: seq<T>, n: nat, more: seq<T>)
    requires n <= |l|
    ensures Turn(l + more, n) == Turn(l, n) + more
  {
    forall p | 0 <= p < |l + more| ensures Turn(l + more, n)[p] == (Turn(l, n) + more)[p] {
    }
  }

  /** What a pass makes of those that start at v, when they are l and ns are the turns to
      come: nothing, or the first turn. */
  ghost predicate PassTurned(r: seq<BranchSummary>, v: int, i: nat, l: seq<BranchSummary>, ns: seq<nat>)
    requires i < |r|
  {
    if ns == [] then v <= r[i].startIdx && Class(r, v, i, |r|) == l && Passed(r, v, i, |r|) == []
    else r[i].startIdx < v && ns[0] <= |l| && ns == [ns[0]] + Passed(r, v, i + 1, |r|)
         && Class(r, v, i + 1, |r|) == Turn(l, ns[0])
  }

  lemma {:induction false} AfterSwap(s: seq<BranchSummary>, t: seq<BranchSummary>, r: seq<BranchSummary>,
                                     v: int, i: nat, j: nat)
    requires i < j < |s| == |r| && t == Swap(s, i, j) && s[j].startIdx < v <= s[i].startIdx
    requires forall l :: i < l < j ==> s[i].startIdx <= s[l].startIdx
    requires r[i].startIdx < v && Alike(t, r, v, i + 1, |s|)
    ensures PassTurned(r, v, i, Class(s, v, i, |s|), Passed(s, v, i, |s|))
  {
    SwapTurns(s, t, v, i, j, |s|, |Class(s, v, i, j)|, i + 1);
    AlikeClass(t, r, v, i + 1, |s|);
  }

  /** A pass turns those that start at v, as far as the first that starts before v. */
  lemma {:induction false} PassTurns(s: seq<BranchSummary>, v: int, i: nat, j: nat)
    requires i < j <= |s| && v <= s[i].startIdx && forall l :: i < l < j ==> s[i].startIdx <= s[l].startIdx
    ensures PassTurned(Pass(s, i, j), v, i, Class(s, v, i, |s|), Passed(s, v, i, |s|))
    decreases |s| - j
  {
    if j == |s| {
      NonePassed(s, v, i, |s|);
    } else if s[j].startIdx >= s[i].startIdx {
      PassTurns(s, v, i, j + 1);
    } else if s[j].startIdx >= v {
      SwapAbove(s, Swap(s, i, j), v, i, j, |s|);
      PassTurns(Swap(s, i, j), v, i, j + 1);
    } else {
      PassBelow(Swap(s, i, j), v, i, j + 1);
      AfterSwap(s, Swap(s, i, j), Pass(s, i, j), v, i, j);
    }
  }

  lemma {:induction false} OnlyLast(s: seq<BranchSummary>, v: int, i: nat, j: nat, k: nat)
    requires i <= j < |s| && k == j + 1 && v <= s[j].startIdx && forall l :: i <= l < j ==> v < s[l].startIdx
    ensures Class(s, v, i, k) == (if s[j].startIdx == v then [s[j]] else []) && Passed(s, v, i, k) == []
  {
    NonePassed(s, v, i, j);
    ClassNext(s, v, i, j, k);
  }

  lemma {:induction false} OnlyFirst(s: seq<BranchSummary>, v: int, i: nat, k: nat, next: nat)
    requires i < k <= |s| && next == i + 1 && v <= s[i].startIdx && forall l :: next <= l < k ==> v < s[l].startIdx
    ensures Class(s, v, i, k) == (if s[i].startIdx == v then [s[i]] else []) && Passed(s, v, i, k) == []
  {
    NonePassed(s, v, next, k);
    NonePassed(s, v, i, k);
    ClassHead(s, v, i, k, next);
    Nil(if s[i].startIdx == v then [s[i]] else []);
  }

  /** An exchange of what starts at v or behind it, at its own place ... */
  lemma {:induction false} SwapAboveHere(s: seq<BranchSummary>, t: seq<BranchSummary>, v: int, i: nat, j: nat, k: nat)
    requires i < j < |s| && k == j + 1 && t == Swap(s, i, j) && v <= s[j].startIdx < s[i].startIdx
    requires forall l :: i < l < j ==> s[i].startIdx <= s[l].startIdx
    ensures Class(t, v, i, k) == Class(s, v, i, k) && Passed(t, v, i, k) == Passed(s, v, i, k)
  {
    OnlyLast(s, v, i, j, k);
    OnlyFirst(t, v, i, k, i + 1);
  }

  /** ... and behind it. */
  lemma {:induction false} SwapAbove(s: seq<BranchSummary>, t: seq<BranchSummary>, v: int, i: nat, j: nat, k: nat)
    requires i < j < k <= |s| && t == Swap(s, i, j) && v <= s[j].startIdx < s[i].startIdx
    requires forall l :: i < l < j ==> s[i].startIdx <= s[l].startIdx
    ensures Class(t, v, i, k) == Class(s, v, i, k) && Passed(t, v, i, k) == Passed(s, v, i, k)
  {
    if k == j + 1 {
      SwapAboveHere(s, t, v, i, j, k);
    } else {
      SwapAbove(s, t, v, i, j, k - 1);
    }
  }

  // ----- the whole sort -----------------------------------------------------

  lemma {:induction false} SortKeepsBefore(s: seq<BranchSummary>, i: nat, k: nat)
    requires k < i <= |s|
    ensures SortFrom(s, i)[k] == s[k]
    decreases |s| - i
  {
    if i + 1 < |s| {
      PassKeepsBefore(s, i, i + 1, k);
      SortKeepsBefore(Pass(s, i, i + 1), i + 1, k);
    }
  }

  lemma {:induction false} PassKeepsBefore(s: seq<BranchSummary>, i: nat, j: nat, k: nat)
    requires k < i < j <= |s|
    ensures Pass(s, i, j)[k] == s[k]
    decreases |s| - j
  {
    if j < |s| {
      PassKeepsBefore(if s[j].startIdx < s[i].startIdx then Swap(s, i, j) else s, i, j + 1, k);
    }
  }

  /** The classes turned at once, from i on. */
  ghost predicate ClassTurned(s: seq<BranchSummary>, out: seq<BranchSummary>, v: int, i: nat)
    requires i <= |s| == |out|
  {
    && UpTo(Passed(s, v, i, |s|), |Class(s, v, i, |s|)|)
    && Class(out, v, i, |out|) == Turned(Class(s, v, i, |s|), Passed(s, v, i, |s|))
  }

  /** The sort turns those that start at v once for each that starts before v, as far as
      that was recorded. */
  lemma {:induction false} SortTurns(s: seq<BranchSummary>, v: int, i: nat)
    requires i <= |s|
    ensures ClassTurned(s, SortFrom(s, i), v, i)
    decreases |s| - i
  {
    if i + 1 >= |s| {
      ShortTurns(s, v, i);
    } else {
      var r := Pass(s, i, i + 1);
      SortTurns(r, v, i + 1);
      SortKeepsBefore(r, i + 1, i);
      if s[i].startIdx < v {
        TurnsBelow(s, v, i, r, SortFrom(r, i + 1), i + 1);
      } else {
        TurnsFrom(s, v, i, r, SortFrom(r, i + 1), i + 1);
      }
    }
  }

  lemma ShortTurns(s: seq<BranchSummary>, v: int, i: nat)
    requires i <= |s| <= i + 1
    ensures ClassTurned(s, s, v, i)
  {
    if i < |s| {
      ClassOne(s, v, i, |s|);
      assert UpTo([0], 0) by {
        InitPush<nat>([], 0);
      }
      NoTurns(Class(s, v, i, |s|), Passed(s, v, i, |s|));
    }
  }

  lemma {:induction false} TurnsBelow(s: seq<BranchSummary>, v: int, i: nat, r: seq<BranchSummary>,
                                      out: seq<BranchSummary>, next: nat)
    requires i + 1 == next < |s| == |out| && r == Pass(s, i, next) && s[i].startIdx < v
    requires ClassTurned(r, out, v, next) && out[i] == r[i]
    ensures ClassTurned(s, out, v, i)
  {
    PassBelow(s, v, i, next);
    AlikeClass(s, r, v, next, |s|);
    PassedHead(s, v, i, |s|, next);
    PassedHead(out, v, i, |s|, next);
    TurnNone(Class(s, v, i, |s|));
    TurnFirst(Class(s, v, i, |s|), 0, Passed(s, v, next, |s|));
  }

  lemma {:induction false} TurnsFrom(s: seq<BranchSummary>, v: int, i: nat, r: seq<BranchSummary>,
                                     out: seq<BranchSummary>, next: nat)
    requires i + 1 == next < |s| == |out| && r == Pass(s, i, next) && s[i].startIdx >= v
    requires ClassTurned(r, out, v, next) && out[i] == r[i]
    ensures ClassTurned(s, out, v, i)
  {
    var l, ns := Class(s, v, i, |s|), Passed(s, v, i, |s|);
    PassTurns(s, v, i, next);
    if ns == [] {
      PassedOnlyBefore(r, v, i, |r|);
      ClassHead(r, v, i, |s|, next);
      ClassHead(out, v, i, |s|, next);
    } else {
      PassedHead(out, v, i, |s|, next);
      TurnFirst(l, ns[0], Passed(r, v, next, |s|));
    }
  }

  lemma {:induction false} PassedOnlyBefore(r: seq<BranchSummary>, v: int, i: nat, j: nat)
    requires j <= |r| && Passed(r, v, i, j) == []
    ensures Passed(r, v, i + 1, j) == []
  {
    if i < j {
      PassedOnlyBefore(r, v, i, j - 1);
    }
  }

  // ----- stability ----------------------------------------------------------

  /** Those with equal starts stay in the order in which they were recorded. */
  ghost predicate Stable(s: seq<BranchSummary>) {
    forall v: int :: Class(ExchangeSort(s), v, 0, |s|) == Class(s, v, 0, |s|)
  }

  /** For all starts v and all n, a multiple of n summaries with a smaller start than v
      are recorded after exactly n with start v. */
  ghost predicate WholePassed(s: seq<BranchSummary>) {
    forall v: int :: Whole(Passed(s, v, 0, |s|))
  }

  lemma {:induction false} NoneLonger(ns: seq<nat>, m: nat, n: nat)
    requires UpTo(ns, m) && n > m
    ensures Count(ns, n) == 0
  {
    if ns != [] {
      NoneLonger(Init(ns), m, n);
    }
  }

  lemma {:induction false} WholeStable(s: seq<BranchSummary>, v: int)
    requires Whole(Passed(s, v, 0, |s|))
    ensures Class(ExchangeSort(s), v, 0, |s|) == Class(s, v, 0, |s|)
  {
    ClassGrows(s, v, 0, |s|);
    SortTurns(s, v, 0);
    WholeTurns(Class(s, v, 0, |s|), Passed(s, v, 0, |s|), |Class(s, v, 0, |s|)|);
  }

  lemma {:induction false} StableWhole(s: seq<BranchSummary>, v: int)
    requires Distinct(Class(s, v, 0, |s|)) && Class(ExchangeSort(s), v, 0, |s|) == Class(s, v, 0, |s|)
    ensures Whole(Passed(s, v, 0, |s|))
  {
    var l, ns := Class(s, v, 0, |s|), Passed(s, v, 0, |s|);
    ClassGrows(s, v, 0, |s|);
    SortTurns(s, v, 0);
    TurnsWhole(l, ns, |l|);
    forall n: nat | n >= 1 ensures Count(ns, n) % n == 0 {
      if n > |l| {
        NoneLonger(ns, |l|, n);
      }
    }
  }

  lemma {:induction false} ClassAt(s: seq<BranchSummary>, v: int, j: nat, k: nat) returns (i: nat)
    requires j <= |s| && k < |Class(s, v, 0, j)|
    ensures i < j && s[i] == Class(s, v, 0, j)[k] && |Class(s, v, 0, i)| == k
  {
    if k < |Class(s, v, 0, j - 1)| {
      i := ClassAt(s, v, j - 1, k);
    } else {
      i := j - 1;
    }
  }

  lemma {:induction false} ClassDistinct(s: seq<BranchSummary>, v: int)
    requires Distinct(s)
    ensures Distinct(Class(s, v, 0, |s|))
  {
    var l := Class(s, v, 0, |s|);
    forall j, k | 0 <= j < k < |l| ensures l[j] != l[k] {
      var a := ClassAt(s, v, |s|, j);
      var b := ClassAt(s, v, |s|, k);
      assert a != b;
      assert a < b ==> s[a] != s[b];
      assert b < a ==> s[b] != s[a];
    }
  }

  /** The sort of different summaries is stable exactly under that condition. */
  lemma StableExactly(s: seq<BranchSummary>)
    requires Distinct(s)
    ensures Stable(s) <==> WholePassed(s)
  {
    if Stable(s) {
      forall v: int ensures Whole(Passed(s, v, 0, |s|)) {
        ClassDistinct(s, v);
        StableWhole(s, v);
      }
    }
    if WholePassed(s) {
      AlwaysStable(s);
    }
  }

  /** Under it the order is kept whether or not some are alike. */
  lemma AlwaysStable(s: seq<BranchSummary>)
    requires WholePassed(s)
    ensures Stable(s)
  {
    forall v: int ensures Class(ExchangeSort(s), v, 0, |s|) == Class(s, v, 0, |s|) {
      WholeStable(s, v);
    }
  }

  /** No two with equal starts are followed by one with a smaller start. */
  ghost predicate NoneBehindTwo(s: seq<BranchSummary>) {
    forall a, b, c :: 0 <= a < b < c < |s| && s[a].startIdx == s[b].startIdx ==> s[c].startIdx >= s[a].startIdx
  }

  lemma {:induction false} AtMostOne(s: seq<BranchSummary>, v: int, c: nat)
    requires c < |s| && s[c].startIdx < v && NoneBehindTwo(s)
    ensures |Class(s, v, 0, c)| <= 1
  {
    if |Class(s, v, 0, c)| > 1 {
      var b := ClassAt(s, v, c, 1);
      var a := ClassAt(s, v, b, 0);
      StartsAt(s, v, c, 1);
      StartsAt(s, v, b, 0);
      assert false;
    }
  }

  lemma {:induction false} ShortOnly(s: seq<BranchSummary>, v: int, j: nat)
    requires j <= |s| && NoneBehindTwo(s)
    ensures UpTo(Passed(s, v, 0, j), 1)
  {
    if j > 0 {
      ShortOnly(s, v, j - 1);
      if s[j - 1].startIdx < v {
        AtMostOne(s, v, j - 1);
        InitPush(Passed(s, v, 0, j - 1), |Class(s, v, 0, j - 1)|);
      }
    }
  }

  lemma {:induction false} StartsAt(s: seq<BranchSummary>, v: int, j: nat, k: nat)
    requires j <= |s| && k < |Class(s, v, 0, j)|
    ensures Class(s, v, 0, j)[k].startIdx == v
  {
    if k < |Class(s, v, 0, j - 1)| {
      StartsAt(s, v, j - 1, k);
    }
  }

  /** So it is if that never happens. */
  lemma NoneBehindTwoStable(s: seq<BranchSummary>)
    requires NoneBehindTwo(s)
    ensures Stable(s)
  {
    forall v: int ensures Class(ExchangeSort(s), v, 0, |s|) == Class(s, v, 0, |s|) {
      var ns := Passed(s, v, 0, |s|);
      ShortOnly(s, v, |s|);
      forall n: nat | n >= 1 ensures Count(ns, n) % n == 0 {
        if n > 1 {
          NoneLonger(ns, 1, n);
        }
      }
      WholeStable(s, v);
    }
  }

  /** Summaries recorded in the order of their starts come out as they are; all that the
      program records start at 0. */
  lemma {:induction false} SortedStays(s: seq<BranchSummary>, i: nat)
    requires i <= |s| && Placed(s, |s|)
    ensures SortFrom(s, i) == s
    decreases |s| - i
  {
    if i + 1 < |s| {
      PassStays(s, i, i + 1);
      SortedStays(s, i + 1);
    }
  }

  lemma {:induction false} PassStays(s: seq<BranchSummary>, i: nat, j: nat)
    requires i < j <= |s| && Placed(s, |s|)
    ensures Pass(s, i, j) == s
    decreases |s| - j
  {
    if j < |s| {
      PassStays(s, i, j + 1);
    }
  }
}
