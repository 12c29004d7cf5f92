/** What a list of edits means, told of the edits as they are given and of where their
    texts occur: no word on how they are located, counted or sorted. */
module EditMeaning {
  import opened Text
  import opened LineEndings
  import opened EditSplice
  import opened EditOverlay
  import opened EditEngine

  ghost predicate Occurs(s: Bytes, p: Bytes) {
    exists i :: OccursAt(s, p, i)
  }

  ghost predicate FirstAt(s: Bytes, p: Bytes, i: int) {
    OccursAt(s, p, i) && forall j :: j < i ==> !OccursAt(s, p, j)
  }

  /** Not in the content as it is, but once both are normalized. */
  ghost predicate OnlyNormalized(norm: Bytes -> Bytes, content: Bytes, p: Bytes) {
    !Occurs(content, p) && Occurs(norm(content), norm(p))
  }

  /** The old and the new text of an edit, with line feeds only. */
  ghost function OldOf(edits: seq<Edit>, i: nat): Bytes
    requires i < |edits|
  {
    NormalizeToLF(edits[i].oldText)
  }

  ghost function NewOf(edits: seq<Edit>, i: nat): Bytes
    requires i < |edits|
  {
    NormalizeToLF(edits[i].newText)
  }

  ghost predicate Loose(norm: Bytes -> Bytes, content: Bytes, edits: seq<Edit>) {
    exists i :: 0 <= i < |edits| && OnlyNormalized(norm, content, OldOf(edits, i))
  }

  /** The text the edits are looked for in. */
  ghost function Ground(norm: Bytes -> Bytes, content: Bytes, edits: seq<Edit>): Bytes {
    if Loose(norm, content, edits) then norm(content) else content
  }

  /** m stands where p first occurs, or else where it does once both are normalized. */
  ghost predicate StandsFor(norm: Bytes -> Bytes, ground: Bytes, p: Bytes, m: Match<byte>) {
    if Occurs(ground, p) then FirstAt(ground, p, m.at) && m.len == |p|
    else FirstAt(norm(ground), norm(p), m.at) && m.len == |norm(p)|
  }

  /** Normalized, no two occurrences stand apart. */
  ghost predicate Once(norm: Bytes -> Bytes, ground: Bytes, p: Bytes) {
    if norm(p) == [] then norm(ground) == [] else NoneApart(norm(ground), norm(p))
  }

  /** m replaces the old text of edit i by its new text. */
  ghost predicate Performs(norm: Bytes -> Bytes, ground: Bytes, edits: seq<Edit>, i: nat, m: Match<byte>)
    requires i < |edits|
  {
    && OldOf(edits, i) != [] && StandsFor(norm, ground, OldOf(edits, i), m) && Once(norm, ground, OldOf(edits, i))
    && m.newText == NewOf(edits, i)
  }

  /** One match for each edit, in the order of their places, none reaching into the next. */
  ghost predicate Placed(norm: Bytes -> Bytes, ground: Bytes, edits: seq<Edit>, ms: seq<Match<byte>>,
                         inOrder: seq<Match<byte>>) {
    && edits != [] && |ms| == |edits| && (forall i :: 0 <= i < |edits| ==> Performs(norm, ground, edits, i, ms[i]))
    && multiset(inOrder) == multiset(ms) && Within(inOrder, 0, |ground|)
  }

  /** The text with all matches replaced: in the content itself, or else in the
      normalized one and laid over the lines of the content. */
  ghost predicate Becomes(norm: Bytes -> Bytes, content: Bytes, loose: bool, inOrder: seq<Match<byte>>, updated: Bytes)
    requires Within(inOrder, 0, |if loose then norm(content) else content|)
  {
    if !loose then updated == Spliced(content, inOrder, 0, |content|)
    else
      && |Lines(content)| == |Lines(norm(content))| && AllInside(norm(content), inOrder)
      && updated == TextOf(Lines(content), OverlayPieces(norm(content), inOrder))
  }

  ghost predicate Does(norm: Bytes -> Bytes, content: Bytes, edits: seq<Edit>, ms: seq<Match<byte>>,
                       inOrder: seq<Match<byte>>, updated: Bytes) {
    && Placed(norm, Ground(norm, content, edits), edits, ms, inOrder) && updated != content
    && Becomes(norm, content, Loose(norm, content, edits), inOrder, updated)
  }

  // ----- locating -----------------------------------------------------------

  lemma IndexOccurs(s: Bytes, p: Bytes)
    ensures Index(s, p) != -1 <==> Occurs(s, p)
    ensures Index(s, p) != -1 ==> FirstAt(s, p, Index(s, p))
  {
  }

  lemma FoundStands(norm: Bytes -> Bytes, ground: Bytes, e: Edit, m: Match<byte>)
    requires FuzzyFindText(norm, ground, e.oldText).Found? && m.newText == e.newText
    ensures StandsFor(norm, ground, e.oldText, m) <==> m == MatchFor(norm, ground, e)
  {
    IndexOccurs(ground, e.oldText);
    IndexOccurs(norm(ground), norm(e.oldText));
  }

  lemma StandsFound(norm: Bytes -> Bytes, ground: Bytes, e: Edit, m: Match<byte>)
    requires StandsFor(norm, ground, e.oldText, m)
    ensures FuzzyFindText(norm, ground, e.oldText).Found?
  {
    IndexOccurs(ground, e.oldText);
    IndexOccurs(norm(ground), norm(e.oldText));
  }

  lemma CountedOnce(norm: Bytes -> Bytes, ground: Bytes, p: Bytes)
    ensures CountOccurrences(norm, ground, p) <= 1 <==> Once(norm, ground, p)
  {
    if norm(p) != [] {
      CountsOnce(norm(ground), norm(p));
    }
  }

  /** Located with its match is performed. */
  lemma LocatedPerforms(norm: Bytes -> Bytes, ground: Bytes, edits: seq<Edit>, i: nat, m: Match<byte>)
    requires i < |edits|
    ensures var e := NormalizeEdits(edits)[i];
            e.oldText != [] && Located(norm, ground, e) && m == MatchFor(norm, ground, e)
            <==> Performs(norm, ground, edits, i, m)
  {
    var e := NormalizeEdits(edits)[i];
    CountedOnce(norm, ground, e.oldText);
    if Performs(norm, ground, edits, i, m) {
      StandsFound(norm, ground, e, m);
    }
    if FuzzyFindText(norm, ground, e.oldText).Found? {
      FoundStands(norm, ground, e, m.(newText := e.newText));
    }
  }

  lemma LooseIsFuzzy(norm: Bytes -> Bytes, content: Bytes, edits: seq<Edit>)
    ensures Loose(norm, content, edits) <==> UsesFuzzy(norm, content, NormalizeEdits(edits))
    ensures Ground(norm, content, edits) == Base(norm, content, NormalizeEdits(edits))
  {
    var es := NormalizeEdits(edits);
    forall i | 0 <= i < |edits|
      ensures OnlyNormalized(norm, content, OldOf(edits, i)) <==> NeedsFuzzy(norm, content, es[i])
    {
      IndexOccurs(content, es[i].oldText);
      IndexOccurs(norm(content), norm(es[i].oldText));
    }
    if Loose(norm, content, edits) {
      var i :| 0 <= i < |edits| && OnlyNormalized(norm, content, OldOf(edits, i));
      assert es[i] in es;
    }
  }

  lemma {:induction false} MatchesAt(norm: Bytes -> Bytes, base: Bytes, es: seq<Edit>)
    ensures |MatchesFor(norm, base, es)| == |es|
    ensures forall i :: 0 <= i < |es| ==> MatchesFor(norm, base, es)[i] == MatchFor(norm, base, es[i])
  {
    if es != [] {
      MatchesAt(norm, base, Init(es));
    }
  }

  // ----- both directions ----------------------------------------------------

  lemma SucceedsPlaced(norm: Bytes -> Bytes, content: Bytes, edits: seq<Edit>, updated: Bytes)
    returns (ms: seq<Match<byte>>, inOrder: seq<Match<byte>>)
    requires Succeeds(norm, content, NormalizeEdits(edits), updated)
    ensures Does(norm, content, edits, ms, inOrder, updated)
  {
    var es, ground := NormalizeEdits(edits), Ground(norm, content, edits);
    LooseIsFuzzy(norm, content, edits);
    ms, inOrder := MatchesFor(norm, ground, es), Sorted(norm, content, es);
    MatchesAt(norm, ground, es);
    SortSorts(ms);
    forall i | 0 <= i < |edits| ensures Performs(norm, ground, edits, i, ms[i]) {
      assert es[i] in es;
      LocatedPerforms(norm, ground, edits, i, ms[i]);
    }
  }

  lemma {:induction false} PlacedMatches(norm: Bytes -> Bytes, ground: Bytes, edits: seq<Edit>, ms: seq<Match<byte>>,
                      inOrder: seq<Match<byte>>)
    requires Placed(norm, ground, edits, ms, inOrder)
    ensures ms == MatchesFor(norm, ground, NormalizeEdits(edits))
    ensures forall e :: e in NormalizeEdits(edits) ==> e.oldText != [] && Located(norm, ground, e)
  {
    var es := NormalizeEdits(edits);
    MatchesAt(norm, ground, es);
    forall i | 0 <= i < |es|
      ensures es[i].oldText != [] && Located(norm, ground, es[i]) && ms[i] == MatchesFor(norm, ground, es)[i]
    {
      assert Performs(norm, ground, edits, i, ms[i]);
      LocatedPerforms(norm, ground, edits, i, ms[i]);
    }
  }

  /** No match is empty, but in an empty text. */
  lemma PlacedSomewhere(norm: Bytes -> Bytes, content: Bytes, edits: seq<Edit>, ms: seq<Match<byte>>,
                        inOrder: seq<Match<byte>>, k: nat)
    requires Settled(norm, content) && k < |inOrder| && Placed(norm, Ground(norm, content, edits), edits, ms, inOrder)
    ensures inOrder[k].len == 0 ==> Ground(norm, content, edits) == [] && Loose(norm, content, edits)
  {
    var ground, es, m := Ground(norm, content, edits), NormalizeEdits(edits), inOrder[k];
    LooseIsFuzzy(norm, content, edits);
    PlacedMatches(norm, ground, edits, ms, inOrder);
    assert m in multiset(inOrder);
    MatchesIn(norm, ground, es, m);
    var e :| e in es && m == MatchFor(norm, ground, e);
    MatchStands(norm, content, es, e);
  }

  lemma {:induction false} DoesSomewhere(norm: Bytes -> Bytes, content: Bytes, edits: seq<Edit>, ms: seq<Match<byte>>,
                      inOrder: seq<Match<byte>>, updated: Bytes)
    requires Settled(norm, content) && Does(norm, content, edits, ms, inOrder, updated)
    ensures inOrder == SortByAt(ms)
  {
    var ground := Ground(norm, content, edits);
    forall k | 0 <= k < |inOrder| ensures inOrder[k].len > 0 {
      PlacedSomewhere(norm, content, edits, ms, inOrder, k);
      WithinOrder(inOrder, 0, |ground|);
      if Loose(norm, content, edits) {
        assert Inside(Lines(ground), inOrder[k]);
        LinesLength(ground);
      }
    }
    WithinStrict(inOrder, 0, |ground|);
    SortSorts(ms);
    OneOrder(inOrder, SortByAt(ms));
  }

  lemma {:induction false} FromMatches(norm: Bytes -> Bytes, content: Bytes, es: seq<Edit>, base: Bytes,
                                       ms: seq<Match<byte>>)
    requires es != [] && base == Base(norm, content, es) && ms == MatchesFor(norm, base, es)
    requires forall e :: e in es ==> e.oldText != [] && Located(norm, base, e)
    requires Within(SortByAt(ms), 0, |base|)
    ensures Applicable(norm, content, es) && SortByAt(ms) == Sorted(norm, content, es)
  {
  }

  lemma {:induction false} DoesApplicable(norm: Bytes -> Bytes, content: Bytes, edits: seq<Edit>, ms: seq<Match<byte>>,
                       inOrder: seq<Match<byte>>)
    requires Placed(norm, Ground(norm, content, edits), edits, ms, inOrder) && inOrder == SortByAt(ms)
    ensures Applicable(norm, content, NormalizeEdits(edits)) && inOrder == Sorted(norm, content, NormalizeEdits(edits))
  {
    var ground, es := Ground(norm, content, edits), NormalizeEdits(edits);
    LooseIsFuzzy(norm, content, edits);
    PlacedMatches(norm, ground, edits, ms, inOrder);
    FromMatches(norm, content, es, ground, ms);
  }

  lemma BecomesReplaced(norm: Bytes -> Bytes, content: Bytes, es: seq<Edit>, loose: bool, inOrder: seq<Match<byte>>,
                        updated: Bytes)
    requires Applicable(norm, content, es) && inOrder == Sorted(norm, content, es)
    requires (loose <==> UsesFuzzy(norm, content, es)) && Becomes(norm, content, loose, inOrder, updated)
    ensures Replaced(norm, content, es) == Overlaid(updated)
  {
  }

  lemma DoesSucceeds(norm: Bytes -> Bytes, content: Bytes, edits: seq<Edit>, ms: seq<Match<byte>>,
                     inOrder: seq<Match<byte>>, updated: Bytes)
    requires Settled(norm, content) && Does(norm, content, edits, ms, inOrder, updated)
    ensures Succeeds(norm, content, NormalizeEdits(edits), updated)
  {
    DoesSomewhere(norm, content, edits, ms, inOrder, updated);
    DoesApplicable(norm, content, edits, ms, inOrder);
    LooseIsFuzzy(norm, content, edits);
    BecomesReplaced(norm, content, NormalizeEdits(edits), Loose(norm, content, edits), inOrder, updated);
  }

  /** Applying edits succeeds with a text exactly if that is what they do. */
  lemma SucceedsMeans(norm: Bytes -> Bytes, content: Bytes, edits: seq<Edit>, updated: Bytes)
    requires Settled(norm, content)
    ensures Succeeds(norm, content, NormalizeEdits(edits), updated)
       <==> exists ms, inOrder :: Does(norm, content, edits, ms, inOrder, updated)
  {
    if Succeeds(norm, content, NormalizeEdits(edits), updated) {
      var ms, inOrder := SucceedsPlaced(norm, content, edits, updated);
    } else if exists ms, inOrder :: Does(norm, content, edits, ms, inOrder, updated) {
      var ms, inOrder :| Does(norm, content, edits, ms, inOrder, updated);
      DoesSucceeds(norm, content, edits, ms, inOrder, updated);
    }
  }

  /** What an error says of the edits. */
  lemma ErrorMeans(error: EditError, norm: Bytes -> Bytes, content: Bytes, edits: seq<Edit>)
    requires Explains(error, norm, content, NormalizeEdits(edits))
    ensures var ground := Ground(norm, content, edits);
            match error
            case EmptyOldText(i) => i < |edits| && OldOf(edits, i) == []
            case NotFoundError(i) =>
              i < |edits| && !Occurs(ground, OldOf(edits, i)) && !Occurs(norm(ground), norm(OldOf(edits, i)))
            case DuplicateError(i, _) => i < |edits| && !Once(norm, ground, OldOf(edits, i))
            case _ => true
  {
    LooseIsFuzzy(norm, content, edits);
    if error.NotFoundError? {
      IndexOccurs(Ground(norm, content, edits), OldOf(edits, error.edit));
      IndexOccurs(norm(Ground(norm, content, edits)), norm(OldOf(edits, error.edit)));
    } else if error.DuplicateError? {
      CountedOnce(norm, Ground(norm, content, edits), OldOf(edits, error.edit));
    }
  }

  // ----- plain texts --------------------------------------------------------

  /** The edits, word for word, at their first places. */
  ghost predicate Literal(content: Bytes, edits: seq<Edit>, ms: seq<Match<byte>>) {
    && |ms| == |edits|
    && forall i :: 0 <= i < |edits| ==> && FirstAt(content, edits[i].oldText, ms[i].at)
                                        && ms[i].len == |edits[i].oldText| && ms[i].newText == edits[i].newText
  }

  ghost predicate WithoutCR(edits: seq<Edit>) {
    forall i :: 0 <= i < |edits| ==> NoCR(edits[i].oldText) && NoCR(edits[i].newText)
  }

  lemma AsGiven(edits: seq<Edit>, i: nat)
    requires WithoutCR(edits) && i < |edits|
    ensures OldOf(edits, i) == edits[i].oldText && NewOf(edits, i) == edits[i].newText
  {
    NormalizeClears(edits[i].oldText);
    NormalizeClears(edits[i].newText);
  }

  lemma NoneLoose(norm: Bytes -> Bytes, content: Bytes, edits: seq<Edit>)
    requires WithoutCR(edits) && forall i :: 0 <= i < |edits| ==> Occurs(content, edits[i].oldText)
    ensures !Loose(norm, content, edits)
  {
    if i :| 0 <= i < |edits| && OnlyNormalized(norm, content, OldOf(edits, i)) {
      AsGiven(edits, i);
      assert false;
    }
  }

  lemma LiteralPerforms(norm: Bytes -> Bytes, content: Bytes, edits: seq<Edit>, i: nat, m: Match<byte>)
    requires WithoutCR(edits) && i < |edits| && edits[i].oldText != [] && FirstAt(content, edits[i].oldText, m.at)
    requires m.len == |edits[i].oldText| && m.newText == edits[i].newText
    requires norm(content) == content && norm(edits[i].oldText) == edits[i].oldText
    requires NoneApart(content, edits[i].oldText)
    ensures Performs(norm, content, edits, i, m)
  {
    AsGiven(edits, i);
    assert Occurs(content, edits[i].oldText);
  }

  /** Edits without carriage returns whose old texts all occur: the updated text is the
      content with each of them replaced, word for word. */
  lemma LiteralEdits(norm: Bytes -> Bytes, content: Bytes, edits: seq<Edit>, updated: Bytes)
    returns (ms: seq<Match<byte>>, inOrder: seq<Match<byte>>)
    requires Succeeds(norm, content, NormalizeEdits(edits), updated) && WithoutCR(edits)
    requires forall i :: 0 <= i < |edits| ==> Occurs(content, edits[i].oldText)
    ensures Literal(content, edits, ms) && multiset(inOrder) == multiset(ms) && Within(inOrder, 0, |content|)
    ensures updated == Spliced(content, inOrder, 0, |content|) != content
  {
    ms, inOrder := SucceedsPlaced(norm, content, edits, updated);
    forall i | 0 <= i < |edits| ensures OldOf(edits, i) == edits[i].oldText && NewOf(edits, i) == edits[i].newText {
      AsGiven(edits, i);
    }
    NoneLoose(norm, content, edits);
    forall i | 0 <= i < |edits|
      ensures FirstAt(content, edits[i].oldText, ms[i].at) && ms[i].len == |edits[i].oldText|
      ensures ms[i].newText == edits[i].newText
    {
      assert Performs(norm, content, edits, i, ms[i]);
    }
  }

  /** ... and where normalization does nothing, they succeed if each occurs, but not
      twice apart, their places are disjoint, and they change something. */
  lemma {:induction false} LiteralSucceeds(norm: Bytes -> Bytes, content: Bytes, edits: seq<Edit>, ms: seq<Match<byte>>,
                        inOrder: seq<Match<byte>>)
    requires edits != [] && WithoutCR(edits) && Literal(content, edits, ms)
    requires norm(content) == content && forall i :: 0 <= i < |edits| ==> norm(edits[i].oldText) == edits[i].oldText
    requires forall i :: 0 <= i < |edits| ==> edits[i].oldText != [] && NoneApart(content, edits[i].oldText)
    requires multiset(inOrder) == multiset(ms) && Within(inOrder, 0, |content|)
    requires Spliced(content, inOrder, 0, |content|) != content
    ensures Succeeds(norm, content, NormalizeEdits(edits), Spliced(content, inOrder, 0, |content|))
  {
    forall i | 0 <= i < |edits| ensures Performs(norm, content, edits, i, ms[i]) {
      LiteralPerforms(norm, content, edits, i, ms[i]);
    }
    forall i | 0 <= i < |edits| ensures Occurs(content, edits[i].oldText) {
      assert OccursAt(content, edits[i].oldText, ms[i].at);
    }
    NoneLoose(norm, content, edits);
    DoesSucceeds(norm, content, edits, ms, inOrder, Spliced(content, inOrder, 0, |content|));
  }
}
