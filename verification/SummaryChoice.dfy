/** Which summaries take effect when all are recorded the way compacting records them:
    from the start of the transcript up to a cut point. */
module SummaryChoice {
  import opened Compaction
  import opened Text
  import opened Wrappers
  import SortStability

  // ----- what compacting records --------------------------------------------

  ghost predicate FromStart(s: seq<BranchSummary>) {
    forall k :: 0 <= k < |s| ==> s[k].startIdx == 0 && s[k].endIdx >= 0
  }

  /** None of the first n covers a message. */
  ghost predicate CoverNothing(s: seq<BranchSummary>, n: nat) {
    forall k :: 0 <= k < |s| && k < n ==> s[k].endIdx == 0
  }

  /** Compacting cuts behind the first message at least, or does nothing. */
  method PrepareCompaction(msgs: seq<Message>, keepRecentTokens: int) returns (cut: Option<nat>)
    ensures cut.Some? ==> msgs != [] && !Last(msgs).kind.BranchSummaryKind? && 0 < cut.value < |msgs|
    ensures cut.None? ==> msgs == [] || Last(msgs).kind.BranchSummaryKind?
                          || (forall i :: 1 <= i < |msgs| ==> TokensFrom(msgs, i) < keepRecentTokens)
  {
    if |msgs| == 0 || msgs[|msgs| - 1].kind.BranchSummaryKind? {
      return None;
    }
    var at, from := FindCutPoint(msgs, keepRecentTokens);
    if at == 0 {
      return None;
    }
    cut := Some(at);
  }

  // ----- which of them is used ----------------------------------------------

  lemma SortKeeps(s: seq<BranchSummary>)
    requires FromStart(s)
    ensures ExchangeSort(s) == s
  {
    SortStability.SortedStays(s, 0);
  }

  lemma {:induction false} AllChosen(s: seq<BranchSummary>)
    requires FromStart(s) && CoverNothing(s, |s|)
    ensures Chosen(s) == s && LastEnd(s) == 0
  {
    if s != [] {
      AllChosen(Init(s));
      InitLast(s);
    }
  }

  /** Those that cover nothing are chosen, and then the first that does: behind it none
      is. */
  lemma {:induction false} FirstChosen(s: seq<BranchSummary>, m: nat, front: seq<BranchSummary>)
    requires FromStart(s) && m < |s| && CoverNothing(s, m) && s[m].endIdx > 0 && front == s[..m + 1]
    ensures Chosen(s) == front
  {
    if m < |s| - 1 {
      assert Init(s)[..m + 1] == front && Last(front) == s[m];
      FirstChosen(Init(s), m, front);
    } else {
      AllChosen(Init(s));
      InitLast(s);
      assert s[..|s|] == s;
    }
  }

  /** Where the first is that covers something, if there is one. */
  lemma {:induction false} FirstCovering(s: seq<BranchSummary>) returns (m: nat)
    requires FromStart(s)
    ensures m <= |s| && CoverNothing(s, m) && (m < |s| ==> s[m].endIdx > 0)
  {
    m := 0;
    while m < |s| && s[m].endIdx == 0
      invariant m <= |s| && CoverNothing(s, m)
    {
      m := m + 1;
    }
  }

  lemma {:induction false} NewestAlone(s: seq<BranchSummary>)
    requires s != [] && FromStart(s) && CoverNothing(s, |s| - 1)
    ensures Chosen(s) == Chosen(Init(s)) + [Last(s)]
  {
    AllChosen(Init(s));
  }

  lemma {:induction false} NewestBehind(s: seq<BranchSummary>, before: seq<BranchSummary>, m: nat)
    requires s != [] && before == Init(s) && FromStart(s) && m < |before| && CoverNothing(s, m) && s[m].endIdx > 0
    ensures Chosen(s) == Chosen(before)
  {
    var front := s[..m + 1];
    assert before[..m + 1] == front;
    FirstChosen(s, m, front);
    FirstChosen(before, m, front);
  }

  /** The newest summary is used exactly if all before it cover nothing; otherwise it
      changes nothing. */
  lemma NewestUsed(s: seq<BranchSummary>)
    requires s != [] && FromStart(s)
    ensures Chosen(ExchangeSort(s)) == Chosen(ExchangeSort(Init(s))) + [Last(s)] <==> CoverNothing(s, |s| - 1)
    ensures !CoverNothing(s, |s| - 1) ==> Chosen(ExchangeSort(s)) == Chosen(ExchangeSort(Init(s)))
  {
    SortKeeps(s);
    SortKeeps(Init(s));
    if CoverNothing(s, |s| - 1) {
      NewestAlone(s);
    } else {
      var m := FirstCovering(s);
      NewestBehind(s, Init(s), m);
    }
  }

  /** Once a summary covers something, no later one has an effect on the context. */
  lemma {:induction false} LaterIgnored(t: seq<Message>, s: seq<BranchSummary>, more: seq<BranchSummary>)
    requires FromStart(s + more) && !CoverNothing(s, |s|)
    ensures Chosen(ExchangeSort(s + more)) == Chosen(ExchangeSort(s))
    ensures Context(t, Chosen(ExchangeSort(s + more))) == Context(t, Chosen(ExchangeSort(s)))
  {
    assert forall k :: 0 <= k < |s| ==> (s + more)[k] == s[k];
    var m := FirstCovering(s);
    assert m < |s| && (s + more)[..m + 1] == s[..m + 1];
    SortKeeps(s);
    SortKeeps(s + more);
    FirstChosen(s, m, s[..m + 1]);
    FirstChosen(s + more, m, s[..m + 1]);
  }

  /** So of compactions, each of which covers something, only the first ever counts. */
  lemma OnlyFirstCounts(s: seq<BranchSummary>)
    requires s != [] && FromStart(s) && s[0].endIdx > 0
    ensures Chosen(ExchangeSort(s)) == [s[0]]
  {
    SortKeeps(s);
    FirstChosen(s, 0, [s[0]]);
  }

  /** A second compaction, up to the third of four messages, does not shorten what the
      first has left. */
  lemma SecondIgnored(a: Message, b: Message, c: Message, d: Message)
    ensures var first, second := BranchSummary(0, 1, "first"), BranchSummary(0, 3, "second");
            && Chosen(ExchangeSort([first, second])) == [first]
            && Context([a, b, c, d], [first]) == [NewBranchSummaryMessage("first"), b, c, d]
  {
    var first, second := BranchSummary(0, 1, "first"), BranchSummary(0, 3, "second");
    OnlyFirstCounts([first, second]);
    assert Init([first]) == [];
    assert Between([a, b, c, d], 1, 4) == [b, c, d] by {
      SpanIsSlice([a, b, c, d], 1, 4);
    }
    assert Woven([a, b, c, d], [first]) == [] + [] + [NewBranchSummaryMessage("first")];
  }
}
