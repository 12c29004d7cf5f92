/** Which of several shortest paths the search takes: what was chosen at each edit
    leaves no choice, and puts removed tokens before added ones. */
module ChosenPath {
  import opened EditDistance
  import opened MyersSearch

  // ----- at most one chosen path --------------------------------------------

  lemma {:induction false} Beyond<T>(a: seq<T>, b: seq<T>, d: int, k: int, x: int, x': int)
    requires NothingFrom(a, b, d, k, x) && x <= x' && OnDiagonal(a, b, k, x')
    ensures Dist(a, b, x', x' - k) > d
  {
    assert DiagDist(a, b, k, x') > d;
  }

  lemma OneFurthest<T>(a: seq<T>, b: seq<T>, d: int, k: int, x: int, x': int)
    requires Furthest(a, b, d, k, x) && Furthest(a, b, d, k, x')
    ensures x == x'
  {
    if x < x' {
      Beyond(a, b, d, k, x + 1, x');
    } else if x' < x {
      Beyond(a, b, d, k, x' + 1, x);
    }
  }

  /** One diagonal is not entered by an addition and by a removal. */
  lemma NotBoth<T>(a: seq<T>, b: seq<T>, cost: int, x: int, y: int, x': int, y': int)
    requires ChosenEdit(Added, cost, a, b, x, y) && ChosenEdit(Removed, cost, a, b, x', y')
    ensures x - y != x' - y'
  {
    if x - y == x' - y' {
      if x < x' {
        DistDiagonal(a, b, x, y + 1, x' - 1 - x);
      } else if y' > 0 {
        DistDiagonal(a, b, x', y' - 1, x - x');
      } else {
        DistBounds(a, b, x, y - 1);
        DistBounds(a, b, x', 1);
        Beyond(a, b, cost, x' - 1, x', x');
      }
      assert false;
    }
  }

  /** Where on a diagonal the last edit ends, and what it is. */
  lemma OneLanding<T>(a: seq<T>, b: seq<T>, cost: int, kind: Kind, x: int, y: int, kind': Kind, x': int, y': int)
    requires ChosenEdit(kind, cost, a, b, x, y) && ChosenEdit(kind', cost, a, b, x', y') && x - y == x' - y'
    ensures kind == kind' && x == x'
  {
    if kind != kind' {
      if kind == Added {
        NotBoth(a, b, cost, x, y, x', y');
      } else {
        NotBoth(a, b, cost, x', y', x, y);
      }
      assert false;
    } else if kind == Added {
      OneFurthest(a, b, cost, x - (y - 1), x, x');
    } else {
      OneFurthest(a, b, cost, x - 1 - y, x - 1, x' - 1);
    }
  }

  /** The matches a path ends in. */
  ghost function Matched(c: Chain): nat {
    if c.Link? && c.kind == Same then c.count else 0
  }

  /** The path without them. */
  ghost function Unmatched(c: Chain): Chain {
    if c.Link? && c.kind == Same then c.previous else c
  }

  lemma {:induction false} UnmatchedOK<T>(c: Chain, a: seq<T>, b: seq<T>, x: int, y: int, x': int, y': int)
    requires ChainOK(c, a, b, x, y) && Chosen(c, a, b, x, y) && x' == x - Matched(c) && y' == y - Matched(c)
    ensures var e := Unmatched(c);
            && ChainOK(e, a, b, x', y') && Chosen(e, a, b, x', y') && Cost(e) == Cost(c) && Length(e) <= Length(c)
            && (e.Link? ==> e.kind != Same && e.count > 0)
  {
  }

  lemma {:induction false} BeforeCost(c: Chain)
    requires c.Link? && c.kind != Same && c.count > 0 && (c.previous.Link? ==> c.previous.kind != c.kind)
    ensures Cost(Before(c)) == Cost(c) - 1 && Extended(Before(c), c.kind) == c
  {
  }

  lemma {:induction false} BeforeChain<T>(c: Chain, p: Chain, a: seq<T>, b: seq<T>, x: int, y: int, x': int, y': int)
    requires ChainOK(c, a, b, x, y) && c.Link? && c.kind != Same && c.count > 0 && p == Before(c)
    requires if c.kind == Added then x' == x && y' == y - 1 else x' == x - 1 && y' == y
    ensures ChainOK(p, a, b, x', y')
  {
  }

  lemma {:induction false} BeforeChosen<T>(c: Chain, p: Chain, a: seq<T>, b: seq<T>, x: int, y: int, x': int, y': int)
    requires Chosen(c, a, b, x, y) && c.Link? && c.kind != Same && c.count > 0 && p == Before(c)
    requires if c.kind == Added then x' == x && y' == y - 1 else x' == x - 1 && y' == y
    ensures Chosen(p, a, b, x', y') && ChosenEdit(c.kind, Cost(c) - 1, a, b, x, y)
  {
  }

  /** A path that ends in an edit, one token earlier. */
  lemma {:induction false} BeforeOK<T>(c: Chain, p: Chain, a: seq<T>, b: seq<T>, x: int, y: int, x': int, y': int)
    requires ChainOK(c, a, b, x, y) && Chosen(c, a, b, x, y) && c.Link? && c.kind != Same && c.count > 0
    requires p == Before(c) && if c.kind == Added then x' == x && y' == y - 1 else x' == x - 1 && y' == y
    ensures ChainOK(p, a, b, x', y') && Chosen(p, a, b, x', y') && Cost(p) == Cost(c) - 1 && Extended(p, c.kind) == c
    ensures ChosenEdit(c.kind, Cost(p), a, b, x, y)
  {
    BeforeCost(c);
    BeforeChain(c, p, a, b, x, y, x', y');
    BeforeChosen(c, p, a, b, x, y, x', y');
  }

  lemma {:induction false} Free(c: Chain)
    requires Cost(c) == 0 && (c.Link? ==> c.kind != Same && c.count > 0)
    ensures c == Root
  {
  }

  /** Every edit chosen, no other path of the same cost leads to the same point. */
  lemma {:induction false} OnePath<T>(c: Chain, c': Chain, a: seq<T>, b: seq<T>, x: int, y: int)
    requires ChainOK(c, a, b, x, y) && Chosen(c, a, b, x, y)
    requires ChainOK(c', a, b, x, y) && Chosen(c', a, b, x, y) && Cost(c') == Cost(c)
    ensures c == c'
    decreases Length(c)
  {
    var e, e' := Unmatched(c), Unmatched(c');
    var u, v, u', v' := x - Matched(c), y - Matched(c), x - Matched(c'), y - Matched(c');
    UnmatchedOK(c, a, b, x, y, u, v);
    UnmatchedOK(c', a, b, x, y, u', v');
    if Cost(c) == 0 {
      Free(e);
      Free(e');
    } else {
      OneEnd(e, e', a, b, u, v, u', v');
    }
  }

  lemma {:induction false} OneEnd<T>(e: Chain, e': Chain, a: seq<T>, b: seq<T>, u: int, v: int, u': int, v': int)
    requires ChainOK(e, a, b, u, v) && Chosen(e, a, b, u, v) && (e.Link? ==> e.kind != Same && e.count > 0)
    requires ChainOK(e', a, b, u', v') && Chosen(e', a, b, u', v') && (e'.Link? ==> e'.kind != Same && e'.count > 0)
    requires Cost(e') == Cost(e) > 0 && u - v == u' - v'
    ensures e == e' && u == u'
    decreases Length(e), 0
  {
    var f, f' := Before(e), Before(e');
    var s, t := if e.kind == Added then u else u - 1, if e.kind == Added then v - 1 else v;
    var s', t' := if e'.kind == Added then u' else u' - 1, if e'.kind == Added then v' - 1 else v';
    BeforeOK(e, f, a, b, u, v, s, t);
    BeforeOK(e', f', a, b, u', v', s', t');
    OneLanding(a, b, Cost(f), e.kind, u, v, e'.kind, u', v');
    OnePath(f, f', a, b, s, t);
  }

  /** What the search returns is determined by the two token lists. */
  lemma OneBest<T>(c: Chain, c': Chain, a: seq<T>, b: seq<T>)
    requires Best(c, a, b) && Best(c', a, b)
    ensures c == c'
  {
    OnePath(c, c', a, b, |a|, |b|);
  }

  // ----- removed before added -----------------------------------------------

  /** No added run directly followed by a removed one. */
  ghost predicate RemovalsLead(c: Chain) {
    match c
    case Root => true
    case Link(_, kind, p) => !(kind == Removed && p.Link? && p.kind == Added) && RemovalsLead(p)
  }

  /** Had a token been removed behind an added one, adding would have got as far. */
  lemma NoRemovalBehind<T>(a: seq<T>, b: seq<T>, cost: int, x: int, y: int)
    requires ChosenEdit(Added, cost - 1, a, b, x - 1, y)
    ensures !ChosenEdit(Removed, cost, a, b, x, y)
  {
    if x <= |a| {
      DistNeighbours(a, b, x - 1, y - 1);
    }
  }

  lemma {:induction false} RunsApart<T>(c: Chain, a: seq<T>, b: seq<T>, x: int, y: int)
    requires ChainOK(c, a, b, x, y) && Chosen(c, a, b, x, y) && c.Link? && c.kind == Removed
    ensures !(c.previous.Link? && c.previous.kind == Added)
    decreases c.count
  {
    var p, u := Before(c), x - 1;
    BeforeOK(c, p, a, b, x, y, u, y);
    if c.count > 1 {
      RunsApart(p, a, b, u, y);
    } else if p.Link? && p.kind == Added {
      BeforeOK(p, Before(p), a, b, u, y, u, y - 1);
      NoRemovalBehind(a, b, Cost(p), x, y);
    }
  }

  lemma {:induction false} RemovedAhead<T>(c: Chain, a: seq<T>, b: seq<T>, x: int, y: int)
    requires ChainOK(c, a, b, x, y) && Chosen(c, a, b, x, y)
    ensures RemovalsLead(c)
    decreases Length(c)
  {
    if c.Link? {
      if c.kind == Removed {
        RunsApart(c, a, b, x, y);
      }
      var u, v := if c.kind == Added then x else x - c.count, if c.kind == Removed then y else y - c.count;
      RunBefore(c, a, b, x, y, u, v);
      RemovedAhead(c.previous, a, b, u, v);
    }
  }

  /** A path without its last run. */
  lemma {:induction false} RunBefore<T>(c: Chain, a: seq<T>, b: seq<T>, x: int, y: int, x': int, y': int)
    requires ChainOK(c, a, b, x, y) && Chosen(c, a, b, x, y) && c.Link?
    requires x' == (if c.kind == Added then x else x - c.count) && y' == if c.kind == Removed then y else y - c.count
    ensures ChainOK(c.previous, a, b, x', y') && Chosen(c.previous, a, b, x', y')
    decreases Length(c)
  {
    if c.kind != Same {
      var u, v := if c.kind == Added then x else x - 1, if c.kind == Added then y - 1 else y;
      BeforeOK(c, Before(c), a, b, x, y, u, v);
      if c.count > 1 {
        RunBefore(Before(c), a, b, u, v, x', y');
      }
    }
  }
}
