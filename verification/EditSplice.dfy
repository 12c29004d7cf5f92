/** Replacing located stretches of a text, all at once or last first. */
module EditSplice {
  import opened Text

  /** An edit located in a text: `len` elements from `at` on become newText. */
  datatype Match<T> = Match(at: int, len: nat, newText: seq<T>) {
    function End(): int { at + len }
  }

  /** The matches stand in order, apart from each other, between f and t. */
  ghost predicate Within<T>(ms: seq<Match<T>>, f: int, t: int) {
    if ms == [] then f <= t else Within(Init(ms), f, Last(ms).at) && Last(ms).End() <= t
  }

  /** The text from f to t with every match replaced. */
  ghost function Spliced<T>(c: seq<T>, ms: seq<Match<T>>, f: nat, t: nat): seq<T>
    requires Within(ms, f, t) && t <= |c|
    decreases |ms|
  {
    if ms == [] then c[f..t]
    else
      var m := Last(ms);
      WithinOrder(Init(ms), f, m.at);
      Spliced(c, Init(ms), f, m.at) + m.newText + c[m.End()..t]
  }

  lemma {:induction false} WithinOrder<T>(ms: seq<Match<T>>, f: int, t: int)
    requires Within(ms, f, t)
    ensures f <= t && forall i :: 0 <= i < |ms| ==> f <= ms[i].at <= ms[i].End() <= t
  {
    if ms != [] {
      WithinOrder(Init(ms), f, Last(ms).at);
      forall i | 0 <= i < |ms| ensures f <= ms[i].at <= ms[i].End() <= t {
        assert i < |ms| - 1 ==> ms[i] == Init(ms)[i];
      }
    }
  }

  lemma Parts<T>(c: seq<T>, i: nat, j: nat, k: nat)
    requires i <= j <= k <= |c|
    ensures c[i..j] + c[j..k] == c[i..k]
  {
  }

  lemma {:induction false} SplicedTo<T>(c: seq<T>, ms: seq<Match<T>>, f: nat, t: nat, u: nat)
    requires Within(ms, f, t) && t <= u <= |c|
    ensures Within(ms, f, u) && Spliced(c, ms, f, t) + c[t..u] == Spliced(c, ms, f, u)
  {
    WithinOrder(ms, f, t);
    if ms == [] {
      Parts(c, f, t, u);
    } else {
      var m := Last(ms);
      WithinOrder(Init(ms), f, m.at);
      Parts(c, m.End(), t, u);
      Assoc(Spliced(c, Init(ms), f, m.at) + m.newText, c[m.End()..t], c[t..u]);
    }
  }

  /** Two neighbouring stretches. */
  lemma {:induction false} SplicedAppend<T>(c: seq<T>, ms: seq<Match<T>>, ns: seq<Match<T>>, f: nat, k: nat, t: nat)
    requires Within(ms, f, k) && Within(ns, k, t) && t <= |c|
    ensures k <= t && Within(ms + ns, f, t) && Spliced(c, ms, f, k) + Spliced(c, ns, k, t) == Spliced(c, ms + ns, f, t)
    decreases |ns|
  {
    WithinOrder(ns, k, t);
    if ns == [] {
      Nil(ms);
      SplicedTo(c, ms, f, k, t);
    } else {
      var n := Last(ns);
      WithinOrder(Init(ns), k, n.at);
      InitAppend(ms, ns);
      SplicedAppend(c, ms, Init(ns), f, k, n.at);
      Assoc(Spliced(c, ms, f, k), Spliced(c, Init(ns), k, n.at), n.newText);
      Assoc(Spliced(c, ms, f, k), Spliced(c, Init(ns), k, n.at) + n.newText, c[n.End()..t]);
    }
  }

  /** Only the text up to t matters. */
  lemma {:induction false} SplicedAgree<T>(c: seq<T>, d: seq<T>, ms: seq<Match<T>>, f: nat, t: nat)
    requires Within(ms, f, t) && t <= |c| && t <= |d| && c[..t] == d[..t]
    ensures Spliced(c, ms, f, t) == Spliced(d, ms, f, t)
    decreases |ms|
  {
    WithinOrder(ms, f, t);
    if ms == [] {
      assert c[f..t] == c[..t][f..];
      assert d[f..t] == d[..t][f..];
    } else {
      var m := Last(ms);
      WithinOrder(Init(ms), f, m.at);
      assert c[..m.at] == c[..t][..m.at];
      assert d[..m.at] == d[..t][..m.at];
      SplicedAgree(c, d, Init(ms), f, m.at);
      assert c[m.End()..t] == c[..t][m.End()..];
      assert d[m.End()..t] == d[..t][m.End()..];
    }
  }

  function Shifted<T>(ms: seq<Match<T>>, o: int): (r: seq<Match<T>>)
    ensures |r| == |ms|
  {
    if ms == [] then [] else Shifted(Init(ms), o) + [Last(ms).(at := Last(ms).at - o)]
  }

  /** w is what stands in c from o on. */
  ghost predicate Window<T>(c: seq<T>, w: seq<T>, o: nat) {
    o + |w| <= |c| && forall k :: 0 <= k < |w| ==> w[k] == c[o + k]
  }

  lemma WindowSlice<T>(c: seq<T>, w: seq<T>, o: nat, f: nat, t: nat, f': nat, t': nat)
    requires Window(c, w, o) && o <= f <= t <= o + |w| && f' == f - o && t' == t - o
    ensures w[f'..t'] == c[f..t]
  {
    forall k | 0 <= k < t - f ensures w[f'..t'][k] == c[f..t][k] {
      assert w[f' + k] == c[o + (f' + k)];
    }
  }

  lemma {:induction false} SplicedPush<T>(c: seq<T>, ms: seq<Match<T>>, m: Match<T>, f: nat, t: nat)
    requires Within(ms, f, m.at) && m.End() <= t <= |c|
    ensures Within(ms + [m], f, t) && f <= m.at
    ensures Spliced(c, ms + [m], f, t) == Spliced(c, ms, f, m.at) + m.newText + c[m.End()..t]
  {
    WithinOrder(ms, f, m.at);
    InitPush(ms, m);
  }

  lemma {:induction false} WithinSpan<T>(ms: seq<Match<T>>, f: int, t: int)
    requires Within(ms, f, t)
    ensures f <= t
  {
    if ms != [] {
      WithinSpan(Init(ms), f, Last(ms).at);
    }
  }

  /** Replacing inside a window of the text, which begins at o. */
  lemma {:induction false} ShiftedNext<T>(ms: seq<Match<T>>, m: Match<T>, o: int)
    ensures Shifted(ms + [m], o) == Shifted(ms, o) + [m.(at := m.at - o)]
  {
    InitPush(ms, m);
  }

  lemma {:induction false} WindowNext<T>(c: seq<T>, w: seq<T>, ms: seq<Match<T>>, m: Match<T>, m': Match<T>, o: nat,
                                         f: nat, t: nat, f': nat, t': nat)
    requires Window(c, w, o) && Within(ms + [m], f, t) && o <= f <= m.at <= m.End() <= t <= o + |w|
    requires f' == f - o && t' == t - o && m' == m.(at := m.at - o) && Within(ms, f, m.at)
    requires Within(Shifted(ms, o), f', m'.at) && Spliced(w, Shifted(ms, o), f', m'.at) == Spliced(c, ms, f, m.at)
    ensures Within(Shifted(ms, o) + [m'], f', t')
    ensures Spliced(w, Shifted(ms, o) + [m'], f', t') == Spliced(c, ms + [m], f, t)
  {
    SplicedPush(w, Shifted(ms, o), m', f', t');
    SplicedPush(c, ms, m, f, t);
    WindowSlice(c, w, o, m.End(), t, m'.End(), t');
  }

  lemma {:induction false} SplicedWindow<T>(c: seq<T>, w: seq<T>, ms: seq<Match<T>>, o: nat, f: nat, t: nat,
                                            f': nat, t': nat)
    requires Window(c, w, o) && Within(ms, f, t) && o <= f <= t <= o + |w| && f' == f - o && t' == t - o
    ensures Within(Shifted(ms, o), f', t') && Spliced(w, Shifted(ms, o), f', t') == Spliced(c, ms, f, t)
    decreases |ms|
  {
    if ms == [] {
      WindowSlice(c, w, o, f, t, f', t');
    } else {
      var m := Last(ms);
      WithinSpan(Init(ms), f, m.at);
      SplicedWindow(c, w, Init(ms), o, f, m.at, f', m.at - o);
      WindowNext(c, w, Init(ms), m, m.(at := m.at - o), o, f, t, f', t');
      InitLast(ms);
      ShiftedNext(Init(ms), m, o);
    }
  }

  // ----- last first ---------------------------------------------------------

  function Replace<T>(c: seq<T>, m: Match<T>): seq<T>
    requires 0 <= m.at && m.End() <= |c|
  {
    c[..m.at] + m.newText + c[m.End()..]
  }

  /** Replacing the last match leaves the others where they are. */
  lemma {:induction false} ReplaceLast<T>(c: seq<T>, ms: seq<Match<T>>)
    requires ms != [] && Within(ms, 0, |c|)
    ensures 0 <= Last(ms).at && Last(ms).End() <= |c|
    ensures var d := Replace(c, Last(ms));
            Within(Init(ms), 0, |d|) && Spliced(d, Init(ms), 0, |d|) == Spliced(c, ms, 0, |c|)
  {
    var m := Last(ms);
    WithinOrder(Init(ms), 0, m.at);
    var d := Replace(c, m);
    assert d[..m.at] == c[..m.at];
    SplicedAgree(c, d, Init(ms), 0, m.at);
    SplicedTo(d, Init(ms), 0, m.at, |d|);
    assert d[m.at..|d|] == m.newText + c[m.End()..];
    assert c[m.End()..|c|] == c[m.End()..];
    Assoc(Spliced(c, Init(ms), 0, m.at), m.newText, c[m.End()..]);
  }

  lemma {:induction false} ShiftedAt<T>(ms: seq<Match<T>>, o: int, i: nat)
    requires i < |ms|
    ensures Shifted(ms, o)[i] == ms[i].(at := ms[i].at - o)
  {
    if i < |ms| - 1 {
      ShiftedAt(Init(ms), o, i);
    }
  }

  /** Replacing from the last match to the first yields all replacements at once. */
  method ApplyReplacements<T>(content: seq<T>, replacements: seq<Match<T>>, offset: int) returns (result: seq<T>)
    requires Within(Shifted(replacements, offset), 0, |content|)
    ensures result == Spliced(content, Shifted(replacements, offset), 0, |content|)
  {
    ghost var ms := Shifted(replacements, offset);
    result := content;
    var i := |replacements|;
    assert ms[..|ms|] == ms;
    while i > 0
      invariant 0 <= i <= |ms| && Within(ms[..i], 0, |result|)
      invariant Spliced(result, ms[..i], 0, |result|) == Spliced(content, ms, 0, |content|)
    {
      ReplaceLast(result, ms[..i]);
      i := i - 1;
      ShiftedAt(replacements, offset, i);
      var m := replacements[i];
      result := Replace(result, m.(at := m.at - offset));
      assert Init(ms[..i + 1]) == ms[..i];
    }
    assert result[0..|result|] == result;
  }

  // ----- sorting ------------------------------------------------------------

  function InsertByAt<T>(ms: seq<Match<T>>, m: Match<T>): seq<Match<T>> {
    if ms == [] || Last(ms).at <= m.at then ms + [m] else InsertByAt(Init(ms), m) + [Last(ms)]
  }

  /** sort.SliceStable by position. */
  function SortByAt<T>(ms: seq<Match<T>>): seq<Match<T>> {
    if ms == [] then [] else InsertByAt(SortByAt(Init(ms)), Last(ms))
  }

  /** The matches at one position, in their order. */
  function AllAt<T>(ms: seq<Match<T>>, at: nat): seq<Match<T>> {
    if ms == [] then [] else if Last(ms).at == at then AllAt(Init(ms), at) + [Last(ms)] else AllAt(Init(ms), at)
  }

  lemma {:induction false} InsertStable<T>(ms: seq<Match<T>>, m: Match<T>, at: nat)
    requires Ascending(ms)
    ensures AllAt(InsertByAt(ms, m), at) == if m.at == at then AllAt(ms, at) + [m] else AllAt(ms, at)
  {
    if ms == [] || Last(ms).at <= m.at {
      InitPush(ms, m);
    } else {
      InsertStable(Init(ms), m, at);
      InitPush(InsertByAt(Init(ms), m), Last(ms));
    }
  }

  /** The sort is stable. */
  lemma {:induction false} SortStable<T>(ms: seq<Match<T>>, at: nat)
    ensures AllAt(SortByAt(ms), at) == AllAt(ms, at)
  {
    if ms != [] {
      SortStable(Init(ms), at);
      SortSorts(Init(ms));
      InsertStable(SortByAt(Init(ms)), Last(ms), at);
    }
  }

  ghost predicate Ascending<T>(ms: seq<Match<T>>) {
    forall i, j :: 0 <= i < j < |ms| ==> ms[i].at <= ms[j].at
  }

  lemma {:induction false} InsertUpTo<T>(ms: seq<Match<T>>, m: Match<T>, bound: int)
    requires m.at <= bound && forall i :: 0 <= i < |ms| ==> ms[i].at <= bound
    ensures forall i :: 0 <= i < |InsertByAt(ms, m)| ==> InsertByAt(ms, m)[i].at <= bound
  {
    if ms != [] && Last(ms).at > m.at {
      InsertUpTo(Init(ms), m, bound);
    }
  }

  lemma {:induction false} InsertPermutes<T>(ms: seq<Match<T>>, m: Match<T>)
    ensures multiset(InsertByAt(ms, m)) == multiset(ms) + multiset{m}
  {
    if ms != [] && Last(ms).at > m.at {
      InsertPermutes(Init(ms), m);
      InitLast(ms);
    }
  }

  lemma AscendingPush<T>(ms: seq<Match<T>>, m: Match<T>)
    requires Ascending(ms) && forall i :: 0 <= i < |ms| ==> ms[i].at <= m.at
    ensures Ascending(ms + [m])
  {
  }

  lemma {:induction false} InsertSorts<T>(ms: seq<Match<T>>, m: Match<T>)
    requires Ascending(ms)
    ensures Ascending(InsertByAt(ms, m)) && multiset(InsertByAt(ms, m)) == multiset(ms) + multiset{m}
  {
    InsertPermutes(ms, m);
    if ms == [] || Last(ms).at <= m.at {
      AscendingPush(ms, m);
    } else {
      InsertSorts(Init(ms), m);
      InsertUpTo(Init(ms), m, Last(ms).at);
      AscendingPush(InsertByAt(Init(ms), m), Last(ms));
    }
  }

  lemma {:induction false} SortSorts<T>(ms: seq<Match<T>>)
    ensures Ascending(SortByAt(ms)) && multiset(SortByAt(ms)) == multiset(ms)
  {
    if ms != [] {
      SortSorts(Init(ms));
      InsertSorts(SortByAt(Init(ms)), Last(ms));
      InitLast(ms);
    }
  }
}
