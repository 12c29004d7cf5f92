/** The reference the line diff is measured against: the least number of added
    plus removed tokens between two sequences, and the diagonals of their edit
    graph. Tokens are compared by equality only, so they are left generic. */
module EditDistance {

  /** Least number of insertions plus deletions that turn a[..x] into b[..y]. */
  ghost function Dist<T>(a: seq<T>, b: seq<T>, x: nat, y: nat): nat
    requires x <= |a| && y <= |b|
    decreases x + y
  {
    if x == 0 then y
    else if y == 0 then x
    else if a[x - 1] == b[y - 1] then Dist(a, b, x - 1, y - 1)
    else
      var d, e := Dist(a, b, x - 1, y), Dist(a, b, x, y - 1);
      1 + if d <= e then d else e
  }

  lemma {:induction false} DistNeighbours<T>(a: seq<T>, b: seq<T>, x: nat, y: nat)
    requires x <= |a| && y <= |b|
    ensures x < |a| ==> Dist(a, b, x, y) - 1 <= Dist(a, b, x + 1, y) <= Dist(a, b, x, y) + 1
    ensures y < |b| ==> Dist(a, b, x, y) - 1 <= Dist(a, b, x, y + 1) <= Dist(a, b, x, y) + 1
    decreases x + y
  {
    if x > 0 { DistNeighbours(a, b, x - 1, y); }
    if y > 0 { DistNeighbours(a, b, x, y - 1); }
  }

  lemma {:induction false} DistHalf<T>(a: seq<T>, b: seq<T>, x: nat, y: nat) returns (h: int)
    requires x <= |a| && y <= |b|
    ensures Dist(a, b, x, y) == x + y - 2 * h
    decreases x + y
  {
    if x == 0 || y == 0 {
      h := 0;
    } else if a[x - 1] == b[y - 1] {
      h := DistHalf(a, b, x - 1, y - 1);
      h := h + 1;
    } else if Dist(a, b, x - 1, y) <= Dist(a, b, x, y - 1) {
      h := DistHalf(a, b, x - 1, y);
    } else {
      h := DistHalf(a, b, x, y - 1);
    }
  }

  lemma {:induction false} DistBounds<T>(a: seq<T>, b: seq<T>, x: nat, y: nat)
    requires x <= |a| && y <= |b|
    ensures x - y <= Dist(a, b, x, y) && y - x <= Dist(a, b, x, y) <= x + y
    decreases x + y
  {
    if x > 0 && y > 0 {
      DistBounds(a, b, x - 1, y - 1);
      DistBounds(a, b, x - 1, y);
      DistBounds(a, b, x, y - 1);
    }
  }

  /** The distance never falls along a diagonal. */
  lemma {:induction false} DistDiagonal<T>(a: seq<T>, b: seq<T>, x: nat, y: nat, n: nat)
    requires x + n <= |a| && y + n <= |b|
    ensures Dist(a, b, x, y) <= Dist(a, b, x + n, y + n)
    decreases n
  {
    if n > 0 {
      DistDiagonal(a, b, x, y, n - 1);
      DistNeighbours(a, b, x + n - 1, y + n - 1);
    }
  }

  /** n diagonal steps from (x, y), all matches. */
  ghost predicate Matches<T>(a: seq<T>, b: seq<T>, x: nat, y: nat, n: nat) {
    x + n <= |a| && y + n <= |b| && forall i {:trigger a[i]} :: x <= i < x + n ==> a[i] == b[i - x + y]
  }

  lemma {:induction false} DistMatch<T>(a: seq<T>, b: seq<T>, x: nat, y: nat, n: nat)
    requires Matches(a, b, x, y, n)
    ensures Dist(a, b, x + n, y + n) == Dist(a, b, x, y)
    decreases n
  {
    if n > 0 {
      assert a[x + n - 1] == b[y + n - 1];
      DistMatch(a, b, x, y, n - 1);
    }
  }

  lemma {:induction false} DistAdvance<T>(a: seq<T>, b: seq<T>, x: nat, y: nat, m: nat, n: nat)
    requires x + m <= |a| && y + n <= |b|
    ensures Dist(a, b, x + m, y + n) <= Dist(a, b, x, y) + m + n
    decreases m + n
  {
    if m > 0 {
      DistAdvance(a, b, x, y, m - 1, n);
      DistNeighbours(a, b, x + m - 1, y + n);
    } else if n > 0 {
      DistAdvance(a, b, x, y, m, n - 1);
      DistNeighbours(a, b, x + m, y + n - 1);
    }
  }

  // ----- common subsequences ------------------------------------------------

  /** s can be obtained from a by dropping elements. */
  ghost predicate Subseq<T>(s: seq<T>, a: seq<T>) {
    if s == [] then true
    else if a == [] then false
    else
      var s', a' := s[..|s| - 1], a[..|a| - 1];
      Subseq(s, a') || (s[|s| - 1] == a[|a| - 1] && Subseq(s', a'))
  }

  lemma {:induction false} SubseqShorter<T>(s: seq<T>, a: seq<T>)
    requires Subseq(s, a)
    ensures |s| <= |a|
    ensures s != [] ==> Subseq(s[..|s| - 1], a)
  {
    if s != [] {
      var s', a' := s[..|s| - 1], a[..|a| - 1];
      if Subseq(s, a') {
        SubseqShorter(s, a');
      } else {
        SubseqShorter(s', a');
      }
      assert Subseq(s', a') ==> Subseq(s', a);
    }
  }

  lemma {:induction false} SubseqInit<T>(s: seq<T>, a: seq<T>)
    requires Subseq(s, a) && s != []
    ensures Subseq(s[..|s| - 1], a[..|a| - 1])
  {
    var a' := a[..|a| - 1];
    if Subseq(s, a') {
      SubseqShorter(s, a');
    }
  }

  /** No common subsequence beats the distance ... */
  lemma {:induction false} CommonSubseqBound<T>(s: seq<T>, a: seq<T>, b: seq<T>, x: nat, y: nat)
    requires x <= |a| && y <= |b|
    requires Subseq(s, a[..x]) && Subseq(s, b[..y])
    ensures Dist(a, b, x, y) <= x + y - 2 * |s|
    decreases x + y
  {
    SubseqShorter(s, a[..x]);
    SubseqShorter(s, b[..y]);
    DistBounds(a, b, x, y);
    if s != [] {
      assert a[..x][..x - 1] == a[..x - 1] && b[..y][..y - 1] == b[..y - 1];
      if a[x - 1] == b[y - 1] {
        SubseqInit(s, a[..x]);
        SubseqInit(s, b[..y]);
        CommonSubseqBound(s[..|s| - 1], a, b, x - 1, y - 1);
      } else if Subseq(s, a[..x - 1]) {
        CommonSubseqBound(s, a, b, x - 1, y);
      } else {
        CommonSubseqBound(s, a, b, x, y - 1);
      }
    }
  }

  /** ... and some common subsequence attains it: the distance is
      x + y - 2 * (length of a longest common subsequence). */
  lemma {:induction false} CommonSubseqExists<T>(a: seq<T>, b: seq<T>, x: nat, y: nat)
    returns (s: seq<T>)
    requires x <= |a| && y <= |b|
    ensures Subseq(s, a[..x]) && Subseq(s, b[..y])
    ensures Dist(a, b, x, y) == x + y - 2 * |s|
    decreases x + y
  {
    if x == 0 || y == 0 {
      s := [];
    } else {
      assert a[..x][..x - 1] == a[..x - 1] && b[..y][..y - 1] == b[..y - 1];
      if a[x - 1] == b[y - 1] {
        var s' := CommonSubseqExists(a, b, x - 1, y - 1);
        s := s' + [a[x - 1]];
        assert s[..|s| - 1] == s';
      } else if Dist(a, b, x - 1, y) <= Dist(a, b, x, y - 1) {
        s := CommonSubseqExists(a, b, x - 1, y);
        assert Subseq(s, a[..x]);
      } else {
        s := CommonSubseqExists(a, b, x, y - 1);
        assert Subseq(s, b[..y]);
      }
    }
  }

  // ----- diagonals ----------------------------------------------------------

  /** (x, x - k) is a point of the edit graph. */
  ghost predicate OnDiagonal<T>(a: seq<T>, b: seq<T>, k: int, x: int) {
    0 <= x <= |a| && 0 <= x - k <= |b|
  }

  ghost function DiagDist<T>(a: seq<T>, b: seq<T>, k: int, x: int): nat
    requires OnDiagonal(a, b, k, x)
  {
    Dist(a, b, x, x - k)
  }

  /** No point of diagonal k at or after x is within distance d. */
  ghost predicate NothingFrom<T>(a: seq<T>, b: seq<T>, d: int, k: int, x: int) {
    forall x' | x <= x' && OnDiagonal(a, b, k, x') :: DiagDist(a, b, k, x') > d
  }

  /** x is the furthest point of diagonal k within distance d. */
  ghost predicate Furthest<T>(a: seq<T>, b: seq<T>, d: int, k: int, x: int) {
    OnDiagonal(a, b, k, x) && DiagDist(a, b, k, x) <= d && NothingFrom(a, b, d, k, x + 1)
  }

  /** The diagonal step from (x, y) is not a match. */
  ghost predicate Stopped<T>(a: seq<T>, b: seq<T>, x: nat, y: nat) {
    x < |a| && y < |b| ==> a[x] != b[y]
  }

  lemma NothingOutside<T>(a: seq<T>, b: seq<T>, d: int, k: int, x: int)
    requires d < k || d < -k
    ensures NothingFrom(a, b, d, k, x)
  {
    forall x' | x <= x' && OnDiagonal(a, b, k, x') ensures DiagDist(a, b, k, x') > d {
      DistBounds(a, b, x', x' - k);
    }
  }

  /** One more edit: if x lies beyond everything the two neighbour diagonals
      reach with d - 1 edits and no match leads on, x is final for d edits. */
  lemma FurthestStep<T>(a: seq<T>, b: seq<T>, d: int, k: int, x: int)
    requires OnDiagonal(a, b, k, x) && Stopped(a, b, x, x - k)
    requires NothingFrom(a, b, d - 1, k - 1, x) && NothingFrom(a, b, d - 1, k + 1, x + 1)
    ensures NothingFrom(a, b, d, k, x + 1)
  {
    forall x' | x + 1 <= x' && OnDiagonal(a, b, k, x') ensures DiagDist(a, b, k, x') > d {
      var y := x - k;
      assert DiagDist(a, b, k - 1, x) > d - 1;
      assert DiagDist(a, b, k + 1, x + 1) > d - 1;
      assert Dist(a, b, x + 1, y + 1) > d;
      DistDiagonal(a, b, x + 1, y + 1, x' - x - 1);
    }
  }

  /** Within the parity of its diagonal a bound of d - 2 and one of d - 1 agree,
      so a point out of reach of d - 1 edits on a diagonal of the other parity
      is out of reach of d edits. */
  lemma OtherParity<T>(a: seq<T>, b: seq<T>, d: int, k: int, x: int)
    requires OnDiagonal(a, b, k, x) && (d - k) % 2 != 0
    requires DiagDist(a, b, k, x) > d - 1
    ensures DiagDist(a, b, k, x) > d
  {
    var h := DistHalf(a, b, x, x - k);
  }
}
