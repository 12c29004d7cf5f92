/** Unified patches as texts: the lines of the file header and of the hunks, their
    numbers in decimals, and a reader that takes such a text apart. */
module PatchText {
  import opened LineDiff
  import opened MyersSearch
  import opened Text
  import opened UnifiedHunks

  const COMMA: byte := 44
  const ZERO: byte := 48

  // ----- numbers ------------------------------------------------------------

  function Decimal(n: nat): Bytes {
    if n < 10 then [ZERO + n as byte] else Decimal(n / 10) + [ZERO + (n % 10) as byte]
  }

  /** fmt.Sprintf("%d", i) */
  function Number(i: int): Bytes {
    if i < 0 then [MINUS] + Decimal(-i) else Decimal(i)
  }

  predicate Numeric(b: byte) {
    b == MINUS || ZERO <= b < ZERO + 10
  }

  predicate AllNumeric(d: Bytes) {
    forall i :: 0 <= i < |d| ==> Numeric(d[i])
  }

  function ReadDecimal(d: Bytes): int {
    if d == [] then 0 else ReadDecimal(Init(d)) * 10 + (Last(d) as int - ZERO as int)
  }

  function ReadNumber(d: Bytes): int {
    if d != [] && d[0] == MINUS then -ReadDecimal(d[1..]) else ReadDecimal(d)
  }

  lemma {:induction false} DecimalRead(n: nat)
    ensures ReadDecimal(Decimal(n)) == n && AllNumeric(Decimal(n)) && Decimal(n) != [] && Decimal(n)[0] != MINUS
  {
    if n < 10 {
      assert Init([ZERO + n as byte]) == [];
    } else {
      DecimalRead(n / 10);
      InitPush(Decimal(n / 10), ZERO + (n % 10) as byte);
    }
  }

  lemma NumberRead(i: int)
    ensures ReadNumber(Number(i)) == i && AllNumeric(Number(i))
  {
    if i < 0 {
      DecimalRead(-i);
      assert ([MINUS] + Decimal(-i))[1..] == Decimal(-i);
    } else {
      DecimalRead(i);
    }
  }

  // ----- the header of a hunk -----------------------------------------------

  function HeaderLine(h: Header): Bytes {
    [AT, AT, SPACE, MINUS] + Number(h.oldStart) + [COMMA] + Number(h.oldLines) + [SPACE] + [PLUS] + Number(h.newStart)
    + [COMMA] + Number(h.newLines) + [SPACE] + [AT] + [AT]
  }

  /** What stands between bytes that belong to no number. */
  function NumberFields(s: Bytes): (fs: seq<Bytes>)
    ensures fs != []
  {
    if s == [] then [[]]
    else
      var fs := NumberFields(Init(s));
      if Numeric(Last(s)) then Init(fs) + [Last(fs) + [Last(s)]] else fs + [[]]
  }

  /** The bytes that belong to no number. */
  function Separators(s: Bytes): Bytes {
    if s == [] then [] else if Numeric(Last(s)) then Separators(Init(s)) else Separators(Init(s)) + [Last(s)]
  }

  /** What follows the mark at the front of a line. */
  function Behind(l: Bytes, mark: Bytes): Bytes {
    if |mark| <= |l| && l[..|mark|] == mark then l[|mark|..] else []
  }

  /** "@@ -" and "n,n +n,n @@", where n is a number. */
  function ReadHeader(l: Bytes): Header {
    var s := Behind(l, [64, 64, 32, 45]);
    var fs := NumberFields(s);
    if |fs| == 8 && fs[2] == [] && Separators(s) == [44, 32, 43, 44, 32, 64, 64] then
      Header(ReadNumber(fs[0]), ReadNumber(fs[1]), ReadNumber(fs[3]), ReadNumber(fs[4]))
    else Header(0, 0, 0, 0)
  }

  lemma {:induction false} SeparatorsAppend(s: Bytes, t: Bytes)
    ensures Separators(s + t) == Separators(s) + Separators(t)
  {
    if t == [] {
      Nil(s);
      Nil(Separators(s));
    } else {
      InitAppend(s, t);
      SeparatorsAppend(s, Init(t));
      Assoc(Separators(s), Separators(Init(t)), [Last(t)]);
    }
  }

  lemma {:induction false} NoSeparators(d: Bytes)
    requires AllNumeric(d)
    ensures Separators(d) == []
  {
    if d != [] {
      NoSeparators(Init(d));
    }
  }

  /** A separator and a number more. */
  lemma {:induction false} SeparatorsNext(s: Bytes, b: byte, d: Bytes, out: Bytes, next: Bytes)
    requires !Numeric(b) && AllNumeric(d) && Separators(s) == out && next == out + [b]
    ensures Separators(s + [b] + d) == next
  {
    InitPush(s, b);
    SeparatorsAppend(s + [b], d);
    NoSeparators(d);
    Nil(next);
  }

  lemma {:induction false} SeparatorsEnd(s: Bytes, b: byte, out: Bytes, next: Bytes)
    requires !Numeric(b) && Separators(s) == out && next == out + [b]
    ensures Separators(s + [b]) == next
  {
    InitPush(s, b);
  }

  lemma {:induction false} FieldsOfNumber(s: Bytes, d: Bytes, fs: seq<Bytes>)
    requires AllNumeric(d) && NumberFields(s) == fs + [[]]
    ensures NumberFields(s + d) == fs + [d]
  {
    if d == [] {
      Nil(s);
    } else {
      InitAppend(s, d);
      FieldsOfNumber(s, Init(d), fs);
      InitPush(fs, Init(d));
      InitLast(d);
    }
  }

  lemma {:induction false} FieldsOfSeparator(s: Bytes, b: byte, fs: seq<Bytes>)
    requires !Numeric(b) && NumberFields(s) == fs
    ensures NumberFields(s + [b]) == fs + [[]]
  {
    InitPush(s, b);
  }

  /** A number behind a separator. */
  lemma {:induction false} FieldsGoOn(s: Bytes, b: byte, i: int, fs: seq<Bytes>)
    requires !Numeric(b) && NumberFields(s) == fs
    ensures NumberFields(s + [b] + Number(i)) == fs + [Number(i)]
  {
    FieldsOfSeparator(s, b, fs);
    NumberRead(i);
    FieldsOfNumber(s + [b], Number(i), fs);
  }

  function HeaderTail(a: Bytes, b: Bytes, c: Bytes, d: Bytes): Bytes {
    a + [COMMA] + b + [SPACE] + [PLUS] + c + [COMMA] + d + [SPACE] + [AT] + [AT]
  }

  lemma TailFields(h: Header)
    ensures var a, b, c, d := Number(h.oldStart), Number(h.oldLines), Number(h.newStart), Number(h.newLines);
            NumberFields(HeaderTail(a, b, c, d)) == [a] + [b] + [[]] + [c] + [d] + [[]] + [[]] + [[]]
  {
    var a, b, c, d := Number(h.oldStart), Number(h.oldLines), Number(h.newStart), Number(h.newLines);
    NumberRead(h.oldStart);
    assert NumberFields([]) == [] + [[]];
    FieldsOfNumber([], a, []);
    Nil(a);
    Nil([a]);
    FieldsGoOn(a, COMMA, h.oldLines, [a]);
    var s := a + [COMMA] + b;
    FieldsOfSeparator(s, SPACE, [a] + [b]);
    FieldsGoOn(s + [SPACE], PLUS, h.newStart, [a] + [b] + [[]]);
    s := s + [SPACE] + [PLUS] + c;
    FieldsGoOn(s, COMMA, h.newLines, [a] + [b] + [[]] + [c]);
    s := s + [COMMA] + d;
    FieldsOfSeparator(s, SPACE, [a] + [b] + [[]] + [c] + [d]);
    FieldsOfSeparator(s + [SPACE], AT, [a] + [b] + [[]] + [c] + [d] + [[]]);
    FieldsOfSeparator(s + [SPACE] + [AT], AT, [a] + [b] + [[]] + [c] + [d] + [[]] + [[]]);
  }

  lemma TailSeparators(a: Bytes, b: Bytes, c: Bytes, d: Bytes)
    requires AllNumeric(a) && AllNumeric(b) && AllNumeric(c) && AllNumeric(d)
    ensures Separators(HeaderTail(a, b, c, d)) == [44, 32, 43, 44, 32, 64, 64]
  {
    NoSeparators(a);
    SeparatorsNext(a, COMMA, b, [], [44]);
    var s := a + [COMMA] + b;
    SeparatorsEnd(s, SPACE, [44], [44, 32]);
    SeparatorsNext(s + [SPACE], PLUS, c, [44, 32], [44, 32, 43]);
    s := s + [SPACE] + [PLUS] + c;
    SeparatorsNext(s, COMMA, d, [44, 32, 43], [44, 32, 43, 44]);
    s := s + [COMMA] + d;
    SeparatorsEnd(s, SPACE, [44, 32, 43, 44], [44, 32, 43, 44, 32]);
    SeparatorsEnd(s + [SPACE], AT, [44, 32, 43, 44, 32], [44, 32, 43, 44, 32, 64]);
    SeparatorsEnd(s + [SPACE] + [AT], AT, [44, 32, 43, 44, 32, 64], [44, 32, 43, 44, 32, 64, 64]);
  }

  lemma HeaderJoined(h: Header)
    ensures HeaderLine(h)
         == [AT, AT, SPACE, MINUS] + HeaderTail(Number(h.oldStart), Number(h.oldLines), Number(h.newStart),
                                                Number(h.newLines))
  {
    var p := [AT, AT, SPACE, MINUS];
    var a, b, c, d := Number(h.oldStart), Number(h.oldLines), Number(h.newStart), Number(h.newLines);
    Assoc(p, a, [COMMA]);
    Assoc(p, a + [COMMA], b);
    var s := a + [COMMA] + b;
    Assoc(p, s, [SPACE]);
    Assoc(p, s + [SPACE], [PLUS]);
    Assoc(p, s + [SPACE] + [PLUS], c);
    s := s + [SPACE] + [PLUS] + c;
    Assoc(p, s, [COMMA]);
    Assoc(p, s + [COMMA], d);
    s := s + [COMMA] + d;
    Assoc(p, s, [SPACE]);
    Assoc(p, s + [SPACE], [AT]);
    Assoc(p, s + [SPACE] + [AT], [AT]);
  }

  lemma MarkRead(mark: Bytes, rest: Bytes)
    ensures Behind(mark + rest, mark) == rest
  {
    assert (mark + rest)[..|mark|] == mark && (mark + rest)[|mark|..] == rest;
  }

  lemma HeaderParts(h: Header)
    ensures HeaderLine(h) != [] && HeaderLine(h)[0] == AT
    ensures Behind(HeaderLine(h), [64, 64, 32, 45])
            == HeaderTail(Number(h.oldStart), Number(h.oldLines), Number(h.newStart),
                                             Number(h.newLines))
  {
    var tail := HeaderTail(Number(h.oldStart), Number(h.oldLines), Number(h.newStart), Number(h.newLines));
    HeaderJoined(h);
    MarkRead([AT, AT, SPACE, MINUS], tail);
  }

  lemma HeaderRead(h: Header)
    ensures ReadHeader(HeaderLine(h)) == h
  {
    HeaderParts(h);
    TailFields(h);
    NumberRead(h.oldStart);
    NumberRead(h.oldLines);
    NumberRead(h.newStart);
    NumberRead(h.newLines);
    TailSeparators(Number(h.oldStart), Number(h.oldLines), Number(h.newStart), Number(h.newLines));
  }

  lemma OneLine(a: Bytes, b: Bytes)
    requires NoNL(a) && NoNL(b)
    ensures NoNL(a + b)
  {
  }

  /** A byte and a number more. */
  lemma OneLineMore(s: Bytes, c: byte, d: Bytes)
    requires NoNL(s) && c != NL && AllNumeric(d)
    ensures NoNL(s + [c] + d) && NoNL(s + [c])
  {
    OneLine(s, [c]);
    OneLine(s + [c], d);
  }

  lemma TailOneLine(a: Bytes, b: Bytes, c: Bytes, d: Bytes)
    requires AllNumeric(a) && AllNumeric(b) && AllNumeric(c) && AllNumeric(d)
    ensures NoNL(HeaderTail(a, b, c, d))
  {
    OneLineMore(a, COMMA, b);
    var s := a + [COMMA] + b;
    OneLineMore(s, SPACE, []);
    OneLineMore(s + [SPACE], PLUS, c);
    s := s + [SPACE] + [PLUS] + c;
    OneLineMore(s, COMMA, d);
    s := s + [COMMA] + d;
    OneLineMore(s, SPACE, []);
    OneLineMore(s + [SPACE], AT, []);
    OneLineMore(s + [SPACE] + [AT], AT, []);
  }

  lemma HeaderIsHeader(h: Header)
    ensures HeaderLine(h) != [] && HeaderLine(h)[0] == AT && NoNL(HeaderLine(h))
  {
    NumberRead(h.oldStart);
    NumberRead(h.oldLines);
    NumberRead(h.newStart);
    NumberRead(h.newLines);
    HeaderJoined(h);
    TailOneLine(Number(h.oldStart), Number(h.oldLines), Number(h.newStart), Number(h.newLines));
    var tail := HeaderTail(Number(h.oldStart), Number(h.oldLines), Number(h.newStart), Number(h.newLines));
    OneLine([AT, AT, SPACE, MINUS], tail);
  }

  // ----- the lines of a patch -----------------------------------------------

  function HunkLines(p: PatchHunk): seq<Bytes> {
    [HeaderLine(p.header)] + p.lines
  }

  function PatchLines(ps: seq<PatchHunk>): seq<Bytes> {
    if ps == [] then [] else PatchLines(Init(ps)) + HunkLines(Last(ps))
  }

  const OLD_FILE: Bytes := [MINUS, MINUS, MINUS, SPACE]
  const NEW_FILE: Bytes := [PLUS, PLUS, PLUS, SPACE]

  /** The whole text: every line ends in a newline. */
  function PrintedPatch(path: Bytes, ps: seq<PatchHunk>): Bytes {
    Join([OLD_FILE + path] + [NEW_FILE + path] + PatchLines(ps)) + [NL]
  }

  /** Lines up to the next header are those of the hunk. */
  function ReadHunks(ls: seq<Bytes>): seq<PatchHunk> {
    if ls == [] then []
    else
      var hs, l := ReadHunks(Init(ls)), Last(ls);
      if l != [] && l[0] == 64 then hs + [PatchHunk(ReadHeader(l), [])]
      else if hs == [] then []
      else Init(hs) + [PatchHunk(Last(hs).header, Last(hs).lines + [l])]
  }

  datatype PatchFile = PatchFile(oldPath: Bytes, newPath: Bytes, hunks: seq<PatchHunk>)

  function ReadText(text: Bytes): PatchFile {
    var ls := Init(Split(text));
    if |ls| < 2 then PatchFile([], [], [])
    else PatchFile(Behind(ls[0], [45, 45, 45, 32]), Behind(ls[1], [43, 43, 43, 32]), ReadHunks(ls[2..]))
  }

  // ----- reading what was printed -------------------------------------------

  lemma {:induction false} ReadBody(front: seq<Bytes>, hs: seq<PatchHunk>, h: Header, body: seq<Bytes>)
    requires ReadHunks(front) == hs + [PatchHunk(h, [])] && AllPrintable(body)
    ensures ReadHunks(front + body) == hs + [PatchHunk(h, body)]
  {
    if body == [] {
      Nil(front);
    } else {
      InitAppend(front, body);
      ReadBody(front, hs, h, Init(body));
      assert Printable(Last(body));
      InitPush(hs, PatchHunk(h, Init(body)));
      InitLast(body);
    }
  }

  lemma {:induction false} ReadPrintedHunk(front: seq<Bytes>, p: PatchHunk)
    requires AllPrintable(p.lines)
    ensures ReadHunks(front + HunkLines(p)) == ReadHunks(front) + [p]
  {
    var l := HeaderLine(p.header);
    HeaderIsHeader(p.header);
    HeaderRead(p.header);
    InitPush(front, l);
    ReadBody(front + [l], ReadHunks(front), p.header, p.lines);
    Assoc(front, [l], p.lines);
  }

  lemma {:induction false} ReadPrinted(ps: seq<PatchHunk>)
    requires PatchPrintable(ps)
    ensures ReadHunks(PatchLines(ps)) == ps
  {
    if ps != [] {
      ReadPrinted(Init(ps));
      assert AllPrintable(Last(ps).lines);
      ReadPrintedHunk(PatchLines(Init(ps)), Last(ps));
      InitLast(ps);
    }
  }

  lemma {:induction false} PrintedOneLine(ps: seq<PatchHunk>)
    requires PatchPrintable(ps)
    ensures forall i :: 0 <= i < |PatchLines(ps)| ==> NoNL(PatchLines(ps)[i])
  {
    if ps != [] {
      PrintedOneLine(Init(ps));
      HeaderIsHeader(Last(ps).header);
      assert AllPrintable(Last(ps).lines);
    }
  }

  lemma {:induction false} SplitPrinted(ls: seq<Bytes>)
    requires Fields(ls)
    ensures Init(Split(Join(ls) + [NL])) == ls
  {
    JoinPush(ls, []);
    Nil(Join(ls) + [NL]);
    assert Fields(ls + [[]]);
    SplitJoin(ls + [[]]);
    InitPush(ls, []);
  }

  /** Nothing is lost when a patch is printed as a text, if the path is in one piece. */
  lemma PrintedRead(path: Bytes, ps: seq<PatchHunk>)
    requires NoNL(path) && PatchPrintable(ps)
    ensures ReadText(PrintedPatch(path, ps)) == PatchFile(path, path, ps)
  {
    var ls := [OLD_FILE + path] + [NEW_FILE + path] + PatchLines(ps);
    PrintedOneLine(ps);
    assert Fields(ls);
    SplitPrinted(ls);
    assert ls[2..] == PatchLines(ps);
    ReadPrinted(ps);
    MarkRead(OLD_FILE, path);
    MarkRead(NEW_FILE, path);
  }

  lemma {:induction false} SplitOneLine(text: Bytes)
    ensures forall i :: 0 <= i < |Split(text)| ==> NoNL(Split(text)[i])
  {
    SplitSound(text);
  }

  /** A path with a newline in it is not read back. */
  lemma PathRead(path: Bytes, ps: seq<PatchHunk>)
    requires PatchPrintable(ps)
    ensures ReadText(PrintedPatch(path, ps)) == PatchFile(path, path, ps) <==> NoNL(path)
  {
    if NoNL(path) {
      PrintedRead(path, ps);
    } else {
      SplitOneLine(PrintedPatch(path, ps));
      var ls := Init(Split(PrintedPatch(path, ps)));
      if |ls| >= 2 {
        assert NoNL(ls[0]) && NoNL(Behind(ls[0], [45, 45, 45, 32]));
      } else {
        assert NoNL([]);
      }
    }
  }

  // ----- printing -----------------------------------------------------------

  /** The patch of two texts, printed. Its hunks turn the one into the other with no
      more changed lines than any patch needs, and no more context than asked for; they
      are read back from the text exactly if the path has no newline. */
  method GenerateUnifiedPatch(path: Bytes, oldContent: Bytes, newContent: Bytes, contextLines: int)
    returns (text: Bytes, ghost patch: seq<PatchHunk>)
    requires |Lines(oldContent)| <= SENTINEL && |Lines(newContent)| <= SENTINEL
    ensures NoNL(path) ==> ReadText(text).oldPath == ReadText(text).newPath == path
    ensures NoNL(path) ==> Patches(ReadText(text).hunks, oldContent, newContent)
    ensures text == PrintedPatch(path, patch) && (ReadText(text) == PatchFile(path, path, patch) <==> NoNL(path))
    ensures Patches(patch, oldContent, newContent)
    ensures LeastHunks(ReadPatch(patch), Lines(oldContent), Lines(newContent), ContextOf(contextLines))
  {
    var hunks := UnifiedPatch(oldContent, newContent, contextLines);
    patch := hunks;
    var lines := [OLD_FILE + path] + [NEW_FILE + path];
    ghost var top := lines;
    for i := 0 to |hunks|
      invariant lines == top + PatchLines(hunks[..i]) && top == [OLD_FILE + path] + [NEW_FILE + path]
    {
      SliceTo(hunks, 0, i);
      InitPush(hunks[..i], hunks[i]);
      Assoc(top, PatchLines(hunks[..i]), HunkLines(hunks[i]));
      Assoc(lines, [HeaderLine(hunks[i].header)], hunks[i].lines);
      lines := lines + [HeaderLine(hunks[i].header)] + hunks[i].lines;
    }
    assert hunks[..|hunks|] == hunks;
    text := Join(lines) + [NL];
    PathRead(path, hunks);
  }
}
