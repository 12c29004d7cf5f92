/** Unified patches of two texts: their hunks printed, and read back. */
module UnifiedHunks {
  import opened Text
  import opened EditDistance
  import opened MyersSearch
  import opened LineDiff
  import opened PatchReplay
  import opened HunkShape
  import opened HunkContext

  const SPACE: byte := 32
  const PLUS: byte := 43
  const MINUS: byte := 45
  const AT: byte := 64

  /** "\ No newline at end of file" */
  const NO_NEWLINE: Bytes :=
    [92, 32, 78, 111, 32, 110, 101, 119, 108, 105, 110, 101, 32, 97, 116, 32, 101, 110, 100, 32, 111, 102, 32, 102,
     105, 108, 101]

  const DEFAULT_CONTEXT: int := 4

  /** The numbers of an "@@ -oldStart,oldLines +newStart,newLines @@" line. */
  datatype Header = Header(oldStart: int, oldLines: int, newStart: int, newLines: int)

  datatype PatchHunk = PatchHunk(header: Header, lines: seq<Bytes>)

  // ----- reading a patch ----------------------------------------------------

  ghost function KindOf(prefix: byte): Kind {
    if prefix == 43 then Added else if prefix == 45 then Removed else Same
  }

  /** A line that begins with a backslash and a space is no line of the texts. */
  ghost predicate IsMarker(l: Bytes) {
    |l| >= 2 && l[0] == 92 && l[1] == 32
  }

  ghost function ReadLine(l: Bytes): Tagged<Bytes> {
    if l == [] then Tagged(Same, []) else Tagged(KindOf(l[0]), l[1..])
  }

  /** Printed hunk lines, read back: each ends in a newline unless the marker
      follows it. */
  ghost function ReadLines(ls: seq<Bytes>): seq<Tagged<Bytes>> {
    if ls == [] then []
    else if IsMarker(Last(ls)) && Init(ls) != [] then ReadLines(Init(Init(ls))) + [ReadLine(Last(Init(ls)))]
    else ReadLines(Init(ls)) + [ReadLine(Last(ls) + [NL])]
  }

  /** Reading a hunk as POSIX.1-2017 defines it (diff utility, "Diff -u or -U Output
      Format"): an empty range names the line before it. */
  ghost function ReadHunk(p: PatchHunk): Hunk<Bytes> {
    var h := p.header;
    Hunk(if h.oldLines == 0 then h.oldStart + 1 else h.oldStart, h.oldLines,
         if h.newLines == 0 then h.newStart + 1 else h.newStart, h.newLines, ReadLines(p.lines))
  }

  ghost function ReadPatch(ps: seq<PatchHunk>): seq<Hunk<Bytes>> {
    if ps == [] then [] else ReadPatch(Init(ps)) + [ReadHunk(Last(ps))]
  }

  /** The patch applies at the places its headers name to the lines of one text and
      yields the lines of the other. */
  ghost predicate Patches(ps: seq<PatchHunk>, oldText: Bytes, newText: Bytes) {
    Yields(Lines(oldText), Blocks(ReadPatch(ps)), Lines(newText))
  }

  // ----- entries ------------------------------------------------------------

  /** The fields, each with a newline put behind it. */
  ghost function Ended(fields: seq<Bytes>): seq<Bytes> {
    if fields == [] then [] else Ended(Init(fields)) + [Last(fields) + [NL]]
  }

  lemma {:induction false} EndedPush(fields: seq<Bytes>, f: Bytes)
    ensures Ended(fields + [f]) == Ended(fields) + [f + [NL]]
  {
    InitPush(fields, f);
  }

  lemma {:induction false} EndedLast(fields: seq<Bytes>)
    ensures Ended(fields) == [] || Terminated(Last(Ended(fields)))
  {
    if fields != [] {
      InitPush(Ended(Init(fields)), Last(fields) + [NL]);
      InitPush(Last(fields), NL);
    }
  }

  /** The lines of a text: its fields but the last, ended, and the last as it is. */
  lemma {:induction false} LinesOfFields(s: Bytes)
    ensures Lines(s) == Ended(Init(Split(s))) + Rest(Last(Split(s)))
    ensures Last(Split(s)) == [] <==> s == [] || Last(s) == NL
  {
    if s == [] {
      InitPush<Bytes>([], []);
    } else {
      var fs, c := Split(Init(s)), Last(s);
      LinesOfFields(Init(s));
      SplitSound(Init(s));
      EndedLast(Init(fs));
      PushRest(Ended(Init(fs)), Last(fs), c);
      if c == NL {
        InitPush(fs, []);
        InitLast(fs);
        EndedPush(Init(fs), Last(fs));
        Nil(Ended(fs));
      } else {
        InitPush(Init(fs), Last(fs) + [c]);
      }
    }
  }

  lemma EndedNext(fields: seq<Bytes>, i: nat)
    requires i < |fields|
    ensures Ended(fields[..i + 1]) == Ended(fields[..i]) + [fields[i] + [NL]]
  {
    SliceTo(fields, 0, i);
    EndedPush(fields[..i], fields[i]);
  }

  lemma ReplaceFirst<T>(done: seq<T>, todo: seq<T>, x: T)
    requires todo != []
    ensures (done + todo)[|done|] == todo[0] && (done + todo)[|done| := x] == (done + [x]) + todo[1..]
  {
  }

  method AddNewlines(fields: seq<Bytes>) returns (parts: seq<Bytes>)
    ensures parts == Ended(fields)
  {
    parts := fields;
    for i := 0 to |parts|
      invariant |parts| == |fields| && |Ended(fields[..i])| == i
      invariant parts == Ended(fields[..i]) + fields[i..]
    {
      EndedNext(fields, i);
      ReplaceFirst(Ended(fields[..i]), fields[i..], fields[i] + [NL]);
      assert fields[i..][1..] == fields[i + 1..];
      parts := parts[i := parts[i] + [NL]];
    }
    assert fields[..|fields|] == fields;
    Nil(Ended(fields));
  }

  lemma {:induction false} EndedParts(fields: seq<Bytes>)
    requires fields != []
    ensures Ended(fields) != [] && Init(Ended(fields)) == Ended(Init(fields))
    ensures Last(Ended(fields)) != [] && Init(Last(Ended(fields))) == Last(fields)
  {
    InitPush(Ended(Init(fields)), Last(fields) + [NL]);
    InitPush(Last(fields), NL);
  }

  /** What to do about the last field. */
  lemma {:induction false} KeptEnds(text: Bytes)
    ensures var ended, f := Ended(Init(Split(text))), Last(Split(text));
      if text != [] && Last(text) == NL then ended == Lines(text)
      else ended + [f] == if text == [] then [[]] else Lines(text)
  {
    LinesOfFields(text);
    Nil(Ended(Init(Split(text))));
    if text == [] {
      InitPush<Bytes>([], []);
      Nil<Bytes>([[]]);
    }
  }

  /** Every field gets its newline back, but the last only if the text ended in
      one. */
  method SplitLinesKeepEnds(text: Bytes) returns (lines: seq<Bytes>)
    ensures lines == if text == [] then [[]] else Lines(text)
  {
    var hasTrailingNL := |text| > 0 && text[|text| - 1] == NL;
    var fields := Split(text);
    KeptEnds(text);
    EndedParts(fields);
    var parts := AddNewlines(fields);
    if hasTrailingNL {
      lines := parts[..|parts| - 1];
    } else {
      var last := parts[|parts| - 1];
      SetLast(parts, Init(last));
      lines := parts[|parts| - 1 := last[..|last| - 1]];
    }
  }

  ghost function EntryOf(p: Component): Entry<Bytes> {
    Entry(p.kind, Lines(p.value))
  }

  ghost function EntriesOf(parts: seq<Component>): seq<Entry<Bytes>> {
    if parts == [] then [] else EntriesOf(Init(parts)) + [EntryOf(Last(parts))]
  }

  lemma {:induction false} EntriesLines(parts: seq<Component>, skip: Kind)
    ensures EntryLines(EntriesOf(parts), skip) == LinesBut(parts, skip)
  {
    if parts != [] {
      EntriesLines(Init(parts), skip);
      InitPush(EntriesOf(Init(parts)), EntryOf(Last(parts)));
    }
  }

  lemma {:induction false} SentinelLines<T>(es: seq<Entry<T>>, skip: Kind)
    ensures EntryLines(es + [Entry(Same, [])], skip) == EntryLines(es, skip)
  {
    InitPush(es, Entry(Same, []));
    Nil(EntryLines(es, skip));
  }

  /** One entry a run, and then an empty one. */
  method MakeEntries(parts: seq<Component>) returns (entries: seq<Entry<Bytes>>)
    requires forall i :: 0 <= i < |parts| ==> parts[i].value != []
    ensures entries == EntriesOf(parts) + [Entry(Same, [])]
  {
    entries := [];
    for i := 0 to |parts|
      invariant entries == EntriesOf(parts[..i])
    {
      var lines := SplitLinesKeepEnds(parts[i].value);
      SliceTo(parts, 0, i);
      InitPush(parts[..i], parts[i]);
      entries := entries + [Entry(parts[i].kind, lines)];
    }
    assert parts[..|parts|] == parts;
    entries := entries + [Entry(Same, [])];
  }

  // ----- printing -----------------------------------------------------------

  function Prefix(kind: Kind): byte {
    match kind case Same => SPACE case Added => PLUS case Removed => MINUS
  }

  ghost function Raw(ls: seq<Tagged<Bytes>>): seq<Bytes> {
    if ls == [] then [] else Raw(Init(ls)) + [[Prefix(Last(ls).kind)] + Last(ls).line]
  }

  /** A raw line printed: its newline goes, or the marker comes. */
  ghost function FinishedLine(l: Bytes): seq<Bytes> {
    if Terminated(l) then [Init(l)] else [l, NO_NEWLINE]
  }

  ghost function Finished(ls: seq<Bytes>): seq<Bytes> {
    if ls == [] then [] else Finished(Init(ls)) + FinishedLine(Last(ls))
  }

  /** A printed line: in one piece, and with a space, plus, minus or backslash in front. */
  predicate Printable(l: Bytes) {
    l != [] && NoNL(l) && (l[0] == 32 || l[0] == 43 || l[0] == 45 || l[0] == 92)
  }

  ghost predicate AllPrintable(ls: seq<Bytes>) {
    forall i :: 0 <= i < |ls| ==> Printable(ls[i])
  }

  lemma FinishedPrintable(t: Tagged<Bytes>)
    requires IsLine(t.line)
    ensures AllPrintable(FinishedLine([Prefix(t.kind)] + t.line))
  {
    var l := [Prefix(t.kind)] + t.line;
    assert Init(l) == [Prefix(t.kind)] + Init(t.line);
    assert NoNL(Init(l)) && l[0] == Prefix(t.kind) != NL;
    if Terminated(l) {
      assert FinishedLine(l) == [Init(l)];
    } else {
      InitLast(l);
      assert NoNL(l) && NoNL(NO_NEWLINE);
    }
  }

  lemma {:induction false} AllFinishedPrintable(ls: seq<Tagged<Bytes>>)
    requires HoldsOnly(ls, IsLine)
    ensures AllPrintable(Finished(Raw(ls)))
  {
    if ls != [] {
      AllFinishedPrintable(Init(ls));
      FinishedPrintable(Last(ls));
      InitPush(Raw(Init(ls)), [Prefix(Last(ls).kind)] + Last(ls).line);
    }
  }

  lemma {:induction false} ReadFinishedLine(f: seq<Bytes>, t: Tagged<Bytes>)
    ensures ReadLines(f + FinishedLine([Prefix(t.kind)] + t.line)) == ReadLines(f) + [t]
  {
    var l := [Prefix(t.kind)] + t.line;
    assert l[1..] == t.line && ReadLine(l) == t;
    if Terminated(l) {
      assert t.line != [];
      InitLast(l);
      InitPush(f, Init(l));
      assert Init(l)[0] == Prefix(t.kind) && !IsMarker(Init(l));
    } else {
      Assoc(f, [l], [NO_NEWLINE]);
      assert [l] + [NO_NEWLINE] == FinishedLine(l);
      InitPush(f + [l], NO_NEWLINE);
      InitPush(f, l);
    }
  }

  /** Printing hunk lines loses nothing. */
  lemma {:induction false} ReadFinished(ls: seq<Tagged<Bytes>>)
    ensures ReadLines(Finished(Raw(ls))) == ls
  {
    if ls != [] {
      var t := Last(ls);
      ReadFinished(Init(ls));
      InitPush(Raw(Init(ls)), [Prefix(t.kind)] + t.line);
      ReadFinishedLine(Finished(Raw(Init(ls))), t);
      InitLast(ls);
    }
  }

  /** Lines f are printed, and `rest` is raw still. */
  ghost predicate FinishedTo(raw: seq<Bytes>, k: nat, f: seq<Bytes>, lines: seq<Bytes>) {
    k <= |raw| && f == Finished(raw[..k]) && lines == f + raw[k..]
  }

  /** The line printed next, and what it becomes where it stands. */
  ghost function Printed(lines: seq<Bytes>, i: nat): seq<Bytes>
    requires i < |lines|
  {
    if Terminated(lines[i]) then lines[i := Init(lines[i])] else lines[..i + 1] + [NO_NEWLINE] + lines[i + 1..]
  }

  lemma PrintedParts(lines: seq<Bytes>, i: nat)
    requires i < |lines|
    ensures Printed(lines, i) == lines[..i] + FinishedLine(lines[i]) + lines[i + 1..]
  {
  }

  lemma FinishedNext(raw: seq<Bytes>, k: nat, f: seq<Bytes>, lines: seq<Bytes>, i: nat)
    requires FinishedTo(raw, k, f, lines) && i == |f| && i < |lines|
    ensures k < |raw| && lines[i] == raw[k] && FinishedTo(raw, k + 1, f + FinishedLine(raw[k]), Printed(lines, i))
  {
    PrintedParts(lines, i);
    SliceTo(raw, 0, k);
    InitPush(raw[..k], raw[k]);
    assert lines[..i] == f && lines[i + 1..] == raw[k + 1..];
  }

  /** Strips each newline, or inserts the marker after a line without one. */
  method FinishLines(raw: seq<Bytes>) returns (lines: seq<Bytes>)
    ensures lines == Finished(raw)
  {
    lines := raw;
    var i := 0;
    ghost var k := 0;
    ghost var f: seq<Bytes> := [];
    while i < |lines|
      invariant FinishedTo(raw, k, f, lines) && i == |f|
      decreases |raw| - k
    {
      FinishedNext(raw, k, f, lines, i);
      f := f + FinishedLine(raw[k]);
      k := k + 1;
      if |lines[i]| > 0 && lines[i][|lines[i]| - 1] == NL {
        lines := lines[i := lines[i][..|lines[i]| - 1]];
        i := i + 1;
      } else {
        lines := lines[..i + 1] + [NO_NEWLINE] + lines[i + 1..];
        i := i + 2;
      }
    }
    FinishedAll(raw, k, f, lines);
  }

  lemma {:induction false} FinishedAll(raw: seq<Bytes>, k: nat, f: seq<Bytes>, lines: seq<Bytes>)
    requires FinishedTo(raw, k, f, lines) && |f| >= |lines|
    ensures lines == Finished(raw)
  {
    assert k == |raw| && raw[..k] == raw;
    Nil(f);
  }

  method PrintLines(lines: seq<Tagged<Bytes>>) returns (out: seq<Bytes>)
    ensures ReadLines(out) == lines && (HoldsOnly(lines, IsLine) ==> AllPrintable(out))
  {
    var raw: seq<Bytes> := [];
    for i := 0 to |lines|
      invariant raw == Raw(lines[..i])
    {
      SliceTo(lines, 0, i);
      InitPush(lines[..i], lines[i]);
      raw := raw + [[Prefix(lines[i].kind)] + lines[i].line];
    }
    assert lines[..|lines|] == lines;
    out := FinishLines(raw);
    ReadFinished(lines);
    if HoldsOnly(lines, IsLine) {
      AllFinishedPrintable(lines);
    }
  }

  ghost predicate PatchPrintable(ps: seq<PatchHunk>) {
    forall i :: 0 <= i < |ps| ==> AllPrintable(ps[i].lines)
  }

  method PrintHunks(hunks: seq<Hunk<Bytes>>) returns (patch: seq<PatchHunk>)
    ensures ReadPatch(patch) == hunks && (AllHoldOnly(hunks, IsLine) ==> PatchPrintable(patch))
  {
    patch := [];
    for i := 0 to |hunks|
      invariant ReadPatch(patch) == hunks[..i] && (AllHoldOnly(hunks, IsLine) ==> PatchPrintable(patch))
    {
      var h := hunks[i];
      var lines := PrintLines(h.lines);
      var oldStart, newStart := h.oldStart, h.newStart;
      if h.oldLines == 0 {
        oldStart := oldStart - 1;
      }
      if h.newLines == 0 {
        newStart := newStart - 1;
      }
      var p := PatchHunk(Header(oldStart, h.oldLines, newStart, h.newLines), lines);
      assert ReadHunk(p) == h;
      InitPush(patch, p);
      SliceTo(hunks, 0, i);
      patch := patch + [p];
    }
    assert hunks[..|hunks|] == hunks;
  }

  // ----- the patch ----------------------------------------------------------

  /** The added and removed lines of a diff, in order. */
  ghost function PartChanges(parts: seq<Component>): seq<Tagged<Bytes>> {
    if parts == [] then [] else PartChanges(Init(parts)) + EntryChanges(EntryOf(Last(parts)))
  }

  lemma {:induction false} CountChanges(parts: seq<Component>)
    ensures |PartChanges(parts)| == Changes(parts)
  {
    if parts != [] {
      CountChanges(Init(parts));
    }
  }

  lemma {:induction false} ChangesWithin(es: seq<Entry<Bytes>>, more: seq<Entry<Bytes>>, i: nat)
    requires i <= |es|
    ensures ChangesTo(es + more, i) == ChangesTo(es, i)
  {
    if i > 0 {
      ChangesWithin(es, more, i - 1);
    }
  }

  lemma {:induction false} EntriesChange(parts: seq<Component>)
    ensures |EntriesOf(parts)| == |parts| && ChangesTo(EntriesOf(parts), |parts|) == PartChanges(parts)
  {
    if parts != [] {
      EntriesChange(Init(parts));
      ChangesWithin(EntriesOf(Init(parts)), [EntryOf(Last(parts))], |parts| - 1);
    }
  }

  lemma {:induction false} SentinelChanges(parts: seq<Component>, es: seq<Entry<Bytes>>)
    requires es == EntriesOf(parts) + [Entry(Same, [])]
    ensures ChangesTo(es, |es|) == PartChanges(parts)
  {
    EntriesChange(parts);
    ChangesWithin(EntriesOf(parts), [Entry(Same, [])], |parts|);
    Nil(PartChanges(parts));
  }

  lemma {:induction false} EntryFrom(parts: seq<Component>, i: nat)
    requires i < |parts|
    ensures |EntriesOf(parts)| == |parts| && EntriesOf(parts)[i] == EntryOf(parts[i])
  {
    var before, last := Init(parts), EntryOf(Last(parts));
    EntriesCount(before);
    LastOrBefore(EntriesOf(before), last, i);
    if i < |before| {
      EntryFrom(before, i);
      assert before[i] == parts[i];
    }
  }

  lemma {:induction false} EntriesCount(parts: seq<Component>)
    ensures |EntriesOf(parts)| == |parts|
  {
    if parts != [] {
      EntriesCount(Init(parts));
    }
  }

  lemma LastOrBefore<T>(s: seq<T>, x: T, i: nat)
    requires i <= |s|
    ensures (s + [x])[i] == if i < |s| then s[i] else x
  {
  }

  lemma {:induction false} NeatAlternates(parts: seq<Component>, es: seq<Entry<Bytes>>)
    requires Neat(parts) && es == EntriesOf(parts) + [Entry(Same, [])]
    ensures Alternates(es)
  {
    EntriesChange(parts);
    forall i | 0 <= i < |parts| ensures es[i] == EntryOf(parts[i]) && es[i].lines != [] {
      EntryFrom(parts, i);
      LinesSound(parts[i].value);
    }
  }

  lemma {:induction false} EntriesInOrder(parts: seq<Component>, es: seq<Entry<Bytes>>)
    requires RemovedFirst(parts) && es == EntriesOf(parts) + [Entry(Same, [])]
    requires forall i :: 0 <= i < |parts| ==> parts[i].value != []
    ensures EntriesLead(es)
  {
    EntriesChange(parts);
    forall i | 0 <= i < |parts| ensures es[i] == EntryOf(parts[i]) && es[i].lines != [] {
      EntryFrom(parts, i);
      LinesSound(parts[i].value);
    }
  }

  lemma {:induction false} EntriesAreLines(parts: seq<Component>, es: seq<Entry<Bytes>>)
    requires es == EntriesOf(parts) + [Entry(Same, [])]
    ensures EntriesHold(es, IsLine)
  {
    EntriesChange(parts);
    forall i | 0 <= i < |es| ensures AllOf(es[i].lines, IsLine) {
      if i < |parts| {
        EntryFrom(parts, i);
        LinesSound(parts[i].value);
      }
    }
  }

  /** The hunks of any diff apply to its old lines and yield its new lines, hold just
      its changed lines, and lie apart. For a neat diff each has a change, at most
      `context` unchanged lines at either end, and at most twice as many in a row. */
  method BuildUnifiedHunks(parts: seq<Component>, context: nat) returns (hunks: seq<Hunk<Bytes>>)
    requires forall i :: 0 <= i < |parts| ==> parts[i].value != []
    ensures Yields(OldLines(parts), Blocks(hunks), NewLines(parts))
    ensures ChangedIn(hunks) == PartChanges(parts) && Separate(hunks)
    ensures Neat(parts) ==> AllTrimmed(hunks, context)
    ensures Neat(parts) ==> AllSurrounded(hunks, context, Ends(|OldLines(parts)| + 1, |NewLines(parts)| + 1))
    ensures RemovedFirst(parts) ==> AllRemovedLead(hunks)
    ensures AllHoldOnly(hunks, IsLine)
  {
    var entries := MakeEntries(parts);
    EntriesLines(parts, Added);
    EntriesLines(parts, Removed);
    SentinelLines(EntriesOf(parts), Added);
    SentinelLines(EntriesOf(parts), Removed);
    InitPush(EntriesOf(parts), Entry(Same, []));
    hunks := GroupEntries(entries, context);
    SentinelChanges(parts, entries);
    EntriesAreLines(parts, entries);
    GroupingHolds(entries, context, |entries|, IsLine);
    HunksChange(entries, context, hunks);
    if Neat(parts) {
      NeatAlternates(parts, entries);
      HunksTrimmed(entries, context, hunks);
      HunksFull(entries, context, hunks, Ends(|OldLines(parts)| + 1, |NewLines(parts)| + 1));
    }
    if RemovedFirst(parts) {
      EntriesInOrder(parts, entries);
      GroupingOrder(entries, context, |entries|);
    }
  }

  function ContextOf(contextLines: int): nat {
    if contextLines == 0 then DEFAULT_CONTEXT else if contextLines < 0 then 0 else contextLines
  }

  method ResolveContext(contextLines: int) returns (context: nat)
    ensures context == ContextOf(contextLines)
  {
    var n := contextLines;
    if n == 0 {
      n := DEFAULT_CONTEXT;
    }
    if n < 0 {
      n := 0;
    }
    context := n;
  }

  /** The hunks turn the one list of lines into the other with the fewest changes; they lie
      apart, with just the context asked for around the changes, and removed lines before
      added ones. */
  ghost predicate LeastHunks<T>(hunks: seq<Hunk<T>>, a: seq<T>, b: seq<T>, context: nat) {
    && Yields(a, Blocks(hunks), b) && |ChangedIn(hunks)| == Dist(a, b, |a|, |b|) && Separate(hunks)
    && AllTrimmed(hunks, context) && AllSurrounded(hunks, context, Ends(|a| + 1, |b| + 1)) && AllRemovedLead(hunks)
  }

  lemma {:induction false} IsLeast<T>(hunks: seq<Hunk<T>>, a: seq<T>, b: seq<T>, n: nat, context: nat, ends: Ends)
    requires Yields(a, Blocks(hunks), b) && |ChangedIn(hunks)| == n == Dist(a, b, |a|, |b|) && Separate(hunks)
    requires AllTrimmed(hunks, context) && AllSurrounded(hunks, context, ends) && AllRemovedLead(hunks)
    requires ends == Ends(|a| + 1, |b| + 1)
    ensures LeastHunks(hunks, a, b, context)
  {
  }

  lemma {:induction false} DiffLines(parts: seq<Component>, oldText: Bytes, newText: Bytes, a: seq<Bytes>,
                                     b: seq<Bytes>)
    requires IsDiff(parts, oldText, newText) && Changes(parts) == LineDistance(oldText, newText)
    requires a == OldLines(parts) && b == NewLines(parts)
    ensures a == Lines(oldText) && b == Lines(newText) && |PartChanges(parts)| == Changes(parts) == Dist(a, b, |a|, |b|)
  {
    CountChanges(parts);
  }

  /** The hunks of a least diff that is neat and removes first. */
  method HunksOf(parts: seq<Component>, context: nat, ghost a: seq<Bytes>, ghost b: seq<Bytes>)
    returns (hunks: seq<Hunk<Bytes>>)
    requires Neat(parts) && RemovedFirst(parts) && a == OldLines(parts) && b == NewLines(parts)
    requires |PartChanges(parts)| == Dist(a, b, |a|, |b|)
    ensures LeastHunks(hunks, a, b, context) && AllHoldOnly(hunks, IsLine)
  {
    hunks := BuildUnifiedHunks(parts, context);
    IsLeast(hunks, a, b, |PartChanges(parts)|, context, Ends(|a| + 1, |b| + 1));
  }

  method ComputeHunks(oldContent: Bytes, newContent: Bytes, context: nat) returns (hunks: seq<Hunk<Bytes>>)
    requires |Lines(oldContent)| <= SENTINEL && |Lines(newContent)| <= SENTINEL
    ensures LeastHunks(hunks, Lines(oldContent), Lines(newContent), context) && AllHoldOnly(hunks, IsLine)
  {
    var parts := ComputeLineDiff(oldContent, newContent);
    ghost var a, b := OldLines(parts), NewLines(parts);
    DiffLines(parts, oldContent, newContent, a, b);
    hunks := HunksOf(parts, context, a, b);
  }

  /** The patch of two texts turns the lines of the first, missing final newline and
      all, into the lines of the second, with no more changed lines than any patch
      needs and no more context than asked for. */
  method UnifiedPatch(oldContent: Bytes, newContent: Bytes, contextLines: int) returns (patch: seq<PatchHunk>)
    requires |Lines(oldContent)| <= SENTINEL && |Lines(newContent)| <= SENTINEL
    ensures Patches(patch, oldContent, newContent) && PatchPrintable(patch)
    ensures LeastHunks(ReadPatch(patch), Lines(oldContent), Lines(newContent), ContextOf(contextLines))
  {
    var context := ResolveContext(contextLines);
    var hunks := ComputeHunks(oldContent, newContent, context);
    patch := PrintHunks(hunks);
  }
}
