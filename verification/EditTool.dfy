/** Editing a file: what the edit keeps of its format, and what an abort or a failing
    access leaves behind. */
module EditTool {
  import opened Text
  import opened MyersSearch
  import opened LineDiff
  import opened UnifiedHunks
  import opened PatchText
  import opened DisplayDiff
  import opened LineEndings
  import opened EditSplice
  import opened EditOverlay
  import opened EditEngine

  // ----- texts without carriage returns -------------------------------------

  lemma NoCRAppend(a: Bytes, b: Bytes)
    ensures NoCR(a + b) <==> NoCR(a) && NoCR(b)
  {
    if NoCR(a + b) {
      assert forall i :: 0 <= i < |a| ==> a[i] == (a + b)[i];
      assert forall i :: 0 <= i < |b| ==> b[i] == (a + b)[|a| + i];
    }
  }

  lemma NoCRSlice(s: Bytes, i: nat, j: nat)
    requires NoCR(s) && i <= j <= |s|
    ensures NoCR(s[i..j])
  {
  }

  ghost predicate ClearMatches(ms: seq<Match<byte>>) {
    forall k :: 0 <= k < |ms| ==> NoCR(ms[k].newText)
  }

  lemma {:induction false} SplicedClear(c: Bytes, ms: seq<Match<byte>>, f: nat, t: nat)
    requires Within(ms, f, t) && t <= |c| && NoCR(c) && ClearMatches(ms)
    ensures NoCR(Spliced(c, ms, f, t))
    decreases |ms|
  {
    WithinOrder(ms, f, t);
    if ms == [] {
      NoCRSlice(c, f, t);
    } else {
      var m := Last(ms);
      WithinOrder(Init(ms), f, m.at);
      SplicedClear(c, Init(ms), f, m.at);
      NoCRSlice(c, m.End(), t);
      NoCRAppend(Spliced(c, Init(ms), f, m.at), m.newText);
      NoCRAppend(Spliced(c, Init(ms), f, m.at) + m.newText, c[m.End()..t]);
    }
  }

  ghost predicate ClearLines(ls: seq<Bytes>) {
    forall i :: 0 <= i < |ls| ==> NoCR(ls[i])
  }

  lemma {:induction false} LinesClear(ls: seq<Bytes>)
    requires NoCR(Concat(ls))
    ensures ClearLines(ls)
  {
    if ls != [] {
      NoCRAppend(Concat(Init(ls)), Last(ls));
      LinesClear(Init(ls));
      forall i | 0 <= i < |ls| ensures NoCR(ls[i]) {
        assert i < |ls| - 1 ==> ls[i] == Init(ls)[i];
      }
    }
  }

  lemma {:induction false} KeptClear(orig: seq<Bytes>, i: nat, j: nat)
    requires ClearLines(orig)
    ensures NoCR(TextOf(orig, KeptLines(i, j)))
  {
    if i < j {
      KeptClear(orig, i, j - 1);
      InitPush(KeptLines(i, j - 1), Kept(j - 1));
      NoCRAppend(TextOf(orig, KeptLines(i, j - 1)), PieceText(orig, Kept(j - 1)));
    }
  }

  lemma {:induction false} PiecesClear(orig: seq<Bytes>, lines: seq<Bytes>, base: Bytes, gs: seq<Group>)
    requires GroupsOk(lines, gs) && |base| == LineStart(lines, |lines|)
    requires ClearLines(orig) && NoCR(base) && ClearMatches(AllMatches(gs))
    ensures NoCR(TextOf(orig, PiecesTo(lines, base, gs)))
  {
    if gs != [] {
      var g, rest := Last(gs), AllMatches(Init(gs));
      var ps, ks := PiecesTo(lines, base, Init(gs)), KeptLines(EndLine(Init(gs)), g.startLine);
      forall k | 0 <= k < |rest| ensures NoCR(rest[k].newText) {
        assert (rest + g.ms)[k] == rest[k];
      }
      forall k | 0 <= k < |g.ms| ensures NoCR(g.ms[k].newText) {
        assert (rest + g.ms)[|rest| + k] == g.ms[k];
      }
      PiecesClear(orig, lines, base, Init(gs));
      KeptClear(orig, EndLine(Init(gs)), g.startLine);
      StartsGrow(lines, g.endLine, |lines|);
      SplicedClear(base, g.ms, LineStart(lines, g.startLine), LineStart(lines, g.endLine));
      PieceTexts(orig, ps, ks, Rewritten(g.startLine, g.endLine, GroupText(lines, base, g)));
      NoCRAppend(TextOf(orig, ps), TextOf(orig, ks));
      NoCRAppend(TextOf(orig, ps) + TextOf(orig, ks), GroupText(lines, base, g));
    }
  }

  lemma {:induction false} OverlayClear(content: Bytes, base: Bytes, ms: seq<Match<byte>>)
    requires Within(ms, 0, |base|) && AllInside(base, ms) && NoCR(content) && NoCR(base) && ClearMatches(ms)
    ensures NoCR(TextOf(Lines(content), OverlayPieces(base, ms)))
  {
    var orig, lines := Lines(content), Lines(base);
    LinesSound(content);
    LinesClear(orig);
    LinesLength(base);
    if lines != [] {
      var gs := GroupsOf(lines, ms);
      GroupsSound(lines, ms, |base|);
      PiecesClear(orig, lines, base, gs);
      KeptClear(orig, EndLine(gs), |lines|);
      TextAppend(orig, PiecesTo(lines, base, gs), KeptLines(EndLine(gs), |lines|));
      NoCRAppend(TextOf(orig, PiecesTo(lines, base, gs)), TextOf(orig, KeptLines(EndLine(gs), |lines|)));
    }
  }

  lemma {:induction false} SortedMember(ms: seq<Match<byte>>, k: nat)
    requires k < |SortByAt(ms)|
    ensures SortByAt(ms)[k] in ms
  {
    SortSorts(ms);
    assert SortByAt(ms)[k] in multiset(SortByAt(ms));
    assert SortByAt(ms)[k] in multiset(ms);
  }

  lemma SortedClear(norm: Bytes -> Bytes, content: Bytes, es: seq<Edit>)
    requires forall e :: e in es ==> NoCR(e.newText)
    ensures ClearMatches(Sorted(norm, content, es))
  {
    var base, ms := Base(norm, content, es), MatchesFor(norm, Base(norm, content, es), es);
    forall k | 0 <= k < |SortByAt(ms)| ensures NoCR(SortByAt(ms)[k].newText) {
      SortedMember(ms, k);
      MatchesIn(norm, base, es, SortByAt(ms)[k]);
    }
  }

  /** Edits of a text without carriage returns bring none in. */
  lemma EditedClear(norm: Bytes -> Bytes, content: Bytes, edits: seq<Edit>, updated: Bytes)
    requires Succeeds(norm, content, NormalizeEdits(edits), updated) && NoCR(content) && NoCR(norm(content))
    ensures NoCR(updated)
  {
    var es := NormalizeEdits(edits);
    var base, ms := Base(norm, content, es), Sorted(norm, content, es);
    forall e | e in es ensures NoCR(e.newText) {
      var i :| 0 <= i < |es| && es[i] == e;
      NormalizeClears(edits[i].newText);
    }
    SortedClear(norm, content, es);
    if UsesFuzzy(norm, content, es) {
      OverlayClear(content, base, ms);
    } else {
      SplicedClear(content, ms, 0, |content|);
    }
  }

  // ----- the format of the file ---------------------------------------------

  /** What the edits are applied to. */
  function Body(data: Bytes): Bytes {
    NormalizeToLF(StripBOM(data).1)
  }

  /** A file with the mark and the line endings of another. */
  function InFormatOf(data: Bytes, text: Bytes): Bytes {
    StripBOM(data).0 + RestoreLineEndings(text, DetectLineEnding(StripBOM(data).1))
  }

  /** Without edits, the file comes back exactly if its line endings are of one kind. */
  lemma FileRoundTrip(data: Bytes)
    ensures InFormatOf(data, Body(data)) == data <==> NoCR(StripBOM(data).1) || Paired(StripBOM(data).1)
  {
    var bom, text := StripBOM(data).0, StripBOM(data).1;
    RoundTrip(text);
    var back := RestoreLineEndings(NormalizeToLF(text), DetectLineEnding(text));
    assert (bom + back)[|bom|..] == back && (bom + text)[|bom|..] == text;
  }

  /** `after` is what the edits make of the file `before`. */
  ghost predicate IsEdited(norm: Bytes -> Bytes, before: Bytes, edits: seq<Edit>, updated: Bytes, after: Bytes) {
    Succeeds(norm, Body(before), NormalizeEdits(edits), updated) && after == InFormatOf(before, updated)
  }

  /** An edit keeps the mark, and leaves only line endings of the kind that the first
      line had. */
  lemma EditKeepsFormat(norm: Bytes -> Bytes, before: Bytes, edits: seq<Edit>, updated: Bytes, after: Bytes)
    requires IsEdited(norm, before, edits, updated, after) && NoCR(norm(Body(before)))
    ensures HasBOM(before) ==> HasBOM(after)
    ensures var mark, ending := StripBOM(before).0, DetectLineEnding(StripBOM(before).1);
            |mark| <= |after| && after[..|mark|] == mark
            && if ending == CRLF then Paired(after[|mark|..]) else NoCR(after[|mark|..])
  {
    var mark, rest := StripBOM(before).0, RestoreLineEndings(updated, DetectLineEnding(StripBOM(before).1));
    NormalizeClears(StripBOM(before).1);
    EditedClear(norm, Body(before), edits, updated);
    RestoredKind(updated, DetectLineEnding(StripBOM(before).1));
    assert (mark + rest)[..|mark|] == mark && (mark + rest)[|mark|..] == rest;
  }

  /** Read again, the file has just the updated text, unless that passes for a mark. */
  lemma EditedReads(norm: Bytes -> Bytes, before: Bytes, edits: seq<Edit>, updated: Bytes, after: Bytes)
    requires IsEdited(norm, before, edits, updated, after) && NoCR(norm(Body(before)))
    requires HasBOM(before) || !HasBOM(after)
    ensures Body(after) == updated
  {
    var mark, rest := StripBOM(before).0, RestoreLineEndings(updated, DetectLineEnding(StripBOM(before).1));
    NormalizeClears(StripBOM(before).1);
    EditedClear(norm, Body(before), edits, updated);
    RestoreReads(updated, DetectLineEnding(StripBOM(before).1));
    assert (mark + rest)[|mark|..] == rest && (mark + rest)[..|mark|] == mark;
  }

  // ----- an edit as a function of the file ----------------------------------

  ghost predicate Works(norm: Bytes -> Bytes, data: Bytes, edits: seq<Edit>) {
    exists u :: Succeeds(norm, Body(data), NormalizeEdits(edits), u)
  }

  /** What edits make of a file; edits that are rejected leave it alone. */
  ghost function AfterEdit(norm: Bytes -> Bytes, data: Bytes, edits: seq<Edit>): Bytes {
    if Works(norm, data, edits) then
      var u :| Succeeds(norm, Body(data), NormalizeEdits(edits), u);
      InFormatOf(data, u)
    else data
  }

  lemma EditedIs(norm: Bytes -> Bytes, before: Bytes, edits: seq<Edit>, updated: Bytes, after: Bytes)
    requires IsEdited(norm, before, edits, updated, after)
    ensures Works(norm, before, edits) && after == AfterEdit(norm, before, edits)
  {
  }

  lemma NoSuccess(error: EditError, norm: Bytes -> Bytes, before: Bytes, edits: seq<Edit>)
    requires Explains(error, norm, Body(before), NormalizeEdits(edits))
    ensures !Works(norm, before, edits)
  {
    forall u ensures !Succeeds(norm, Body(before), NormalizeEdits(edits), u) {
      ExplainedFails(error, norm, Body(before), NormalizeEdits(edits), u);
    }
  }

  /** Line counts are below the number that stands for infinity. */
  ghost predicate Countable(norm: Bytes -> Bytes, data: Bytes, edits: seq<Edit>) {
    && |Lines(Body(data))| <= SENTINEL
    && forall u :: Succeeds(norm, Body(data), NormalizeEdits(edits), u) ==> |Lines(u)| <= SENTINEL
  }

  // ----- running an edit ----------------------------------------------------

  class TextFile {
    var data: Bytes
  }

  /** How the environment behaves: which of the four checks is the first to see the
      operation aborted (5 if none does), and which accesses fail. A write that fails
      leaves something. */
  datatype EditIO = EditIO(abortedAt: nat, infoFails: bool, isFile: bool, readFails: bool, writeFails: bool,
                           left: Bytes)

  datatype EditOutcome =
    | Aborted
    | AccessError
    | NotAFile
    | Rejected(error: EditError)
    | Done(rows: seq<Row<Bytes>>, patch: Bytes, firstChangedLine: int)

  /** The outcome tells what happened to the text: in rows, and as a patch of the path. */
  ghost predicate Reports(r: EditOutcome, path: Bytes, content: Bytes, updated: Bytes, patch: seq<PatchHunk>) {
    && r.Done? && Tells(ChompAll(Lines(content)), r.rows, ChompAll(Lines(updated)))
    && r.patch == PrintedPatch(path, patch) && Patches(patch, content, updated)
    && r.firstChangedLine > 0 && CommonPrefix(Lines(content), Lines(updated), r.firstChangedLine - 1)
  }

  method Report(path: Bytes, content: Bytes, updated: Bytes) returns (r: EditOutcome, ghost patch: seq<PatchHunk>)
    requires |Lines(content)| <= SENTINEL && |Lines(updated)| <= SENTINEL && content != updated
    ensures Reports(r, path, content, updated, patch)
  {
    var rows, firstChangedLine := GenerateDiffString(content, updated);
    var text;
    text, patch := GenerateUnifiedPatch(path, content, updated, 0);
    r := Done(rows, text, firstChangedLine);
  }

  /** What is written, or why nothing is. */
  datatype Planned = Plan(base: Bytes, updated: Bytes, final: Bytes) | NoPlan(error: EditError)

  method PlanEdit(data: Bytes, norm: Bytes -> Bytes, edits: seq<Edit>) returns (p: Planned)
    requires Settled(norm, Body(data))
    ensures p.Plan? ==> p.base == Body(data) != p.updated && IsEdited(norm, data, edits, p.updated, p.final)
    ensures p.NoPlan? ==> Explains(p.error, norm, Body(data), NormalizeEdits(edits)) && !Works(norm, data, edits)
  {
    var bom, content := StripBOM(data).0, StripBOM(data).1;
    var originalEnding := DetectLineEnding(content);
    var normalizedContent := NormalizeToLF(content);
    var result := ApplyEditsToNormalizedContent(norm, normalizedContent, edits);
    if result.Failed? {
      NoSuccess(result.error, norm, data, edits);
      return NoPlan(result.error);
    }
    p := Plan(result.base, result.updated, bom + RestoreLineEndings(result.updated, originalEnding));
  }

  /** The diff shows, and the patch performs, what the edit did; any other outcome
      leaves the file as it was, unless the write failed or the abort came after it. */
  method RunEdit(file: TextFile, path: Bytes, norm: Bytes -> Bytes, edits: seq<Edit>, io: EditIO)
    returns (r: EditOutcome, ghost updated: Bytes, ghost patch: seq<PatchHunk>)
    requires Settled(norm, Body(file.data)) && Countable(norm, file.data, edits)
    modifies file
    ensures r.Done? ==> Reports(r, path, Body(old(file.data)), updated, patch)
    ensures r.Done? || (r.Aborted? && io.abortedAt == 4) ==>
              IsEdited(norm, old(file.data), edits, updated, file.data)
    ensures r.Rejected? ==> Explains(r.error, norm, Body(old(file.data)), NormalizeEdits(edits))
    ensures r.Done? <==> !io.infoFails && io.isFile && !io.readFails && !io.writeFails && io.abortedAt > 4
                         && Works(norm, old(file.data), edits)
    ensures !r.Done? ==>
              || file.data == old(file.data)
              || (r.Aborted? && io.abortedAt == 4)
              || (r.AccessError? && io.writeFails && Works(norm, old(file.data), edits) && file.data == io.left)
  {
    updated, patch := [], [];
    if io.abortedAt <= 1 {
      return Aborted, updated, patch;
    }
    if io.infoFails {
      return AccessError, updated, patch;
    }
    if !io.isFile {
      return NotAFile, updated, patch;
    }
    if io.readFails {
      return AccessError, updated, patch;
    }
    var data := file.data;
    if io.abortedAt <= 2 {
      return Aborted, updated, patch;
    }
    var p := PlanEdit(data, norm, edits);
    if p.NoPlan? {
      return Rejected(p.error), updated, patch;
    }
    if io.abortedAt <= 3 {
      return Aborted, updated, patch;
    }
    updated := p.updated;
    EditedIs(norm, data, edits, updated, p.final);
    file.data := if io.writeFails then io.left else p.final;
    if io.writeFails {
      return AccessError, updated, patch;
    }
    if io.abortedAt <= 4 {
      return Aborted, updated, patch;
    }
    r, patch := Report(path, p.base, p.updated);
  }
}
