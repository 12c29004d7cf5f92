/** Texts as byte strings, and the ways the tools cut a text into lines. */
module Text {
  newtype byte = b: int | 0 <= b < 256

  type Bytes = seq<byte>

  const NL: byte := 10
  const CR: byte := 13

  // ----- sequences, last element first --------------------------------------

  function Last<T>(s: seq<T>): T
    requires s != []
  {
    s[|s| - 1]
  }

  function Init<T>(s: seq<T>): seq<T>
    requires s != []
  {
    s[..|s| - 1]
  }

  lemma InitPush<T>(s: seq<T>, x: T)
    ensures Init(s + [x]) == s && Last(s + [x]) == x
  {
  }

  lemma InitAppend<T>(a: seq<T>, b: seq<T>)
    requires b != []
    ensures Init(a + b) == a + Init(b) && Last(a + b) == Last(b)
  {
  }

  lemma Assoc<T>(a: seq<T>, b: seq<T>, c: seq<T>)
    ensures (a + b) + c == a + (b + c)
  {
  }

  lemma Nil<T>(a: seq<T>)
    ensures a + [] == a && [] + a == a
  {
  }

  lemma InitLast<T>(s: seq<T>)
    requires s != []
    ensures s == Init(s) + [Last(s)]
  {
  }

  lemma SliceTo<T>(s: seq<T>, start: nat, i: nat)
    requires start <= i < |s|
    ensures s[start..i + 1] == s[start..i] + [s[i]]
  {
  }

  /** The slice from i to j, element by element. */
  function Span<T>(s: seq<T>, i: nat, j: nat): (r: seq<T>)
    requires j <= |s|
    ensures |r| == if i <= j then j - i else 0
  {
    if j <= i then [] else Span(s, i, j - 1) + [s[j - 1]]
  }

  lemma {:induction false} SpanIsSlice<T>(s: seq<T>, i: nat, j: nat)
    requires i <= j <= |s|
    ensures Span(s, i, j) == s[i..j]
  {
    if i < j {
      SpanIsSlice(s, i, j - 1);
      SliceTo(s, i, j - 1);
    }
  }

  lemma {:induction false} SpanAll<T>(s: seq<T>)
    ensures Span(s, 0, |s|) == s
  {
    SpanIsSlice(s, 0, |s|);
  }

  lemma {:induction false} SpanSplit<T>(s: seq<T>, i: nat, j: nat, k: nat)
    requires i <= j <= k <= |s|
    ensures Span(s, i, k) == Span(s, i, j) + Span(s, j, k)
  {
    if j == k {
      Nil(Span(s, i, j));
    } else {
      SpanSplit(s, i, j, k - 1);
      Assoc(Span(s, i, j), Span(s, j, k - 1), [s[k - 1]]);
    }
  }

  lemma {:induction false} SpanAppend<T>(s: seq<T>, t: seq<T>, i: nat, j: nat)
    requires j <= |s|
    ensures Span(s + t, i, j) == Span(s, i, j)
  {
    if i < j {
      SpanAppend(s, t, i, j - 1);
    }
  }

  /** strings.Join(parts, ""). */
  function Concat(parts: seq<Bytes>): Bytes {
    if parts == [] then [] else Concat(Init(parts)) + Last(parts)
  }

  lemma {:induction false} ConcatPush(parts: seq<Bytes>, p: Bytes)
    ensures Concat(parts + [p]) == Concat(parts) + p
  {
    InitPush(parts, p);
  }

  lemma {:induction false} ConcatAppend(a: seq<Bytes>, b: seq<Bytes>)
    ensures Concat(a + b) == Concat(a) + Concat(b)
  {
    if b == [] {
      Nil(a);
      Nil(Concat(a));
    } else {
      InitAppend(a, b);
      ConcatAppend(a, Init(b));
      Assoc(Concat(a), Concat(Init(b)), Last(b));
    }
  }

  // ----- lines --------------------------------------------------------------

  predicate Terminated(l: Bytes) {
    l != [] && Last(l) == NL
  }

  /** The lines of a text once a byte has been read on. */
  function Push(ls: seq<Bytes>, c: byte): seq<Bytes> {
    if ls == [] || Terminated(Last(ls)) then ls + [[c]] else Init(ls) + [Last(ls) + [c]]
  }

  /** The lines of a text, each with its newline; only the last may lack one. */
  function Lines(s: Bytes): seq<Bytes> {
    if s == [] then [] else Push(Lines(Init(s)), Last(s))
  }

  lemma {:induction false} LinesPush(s: Bytes, c: byte)
    ensures Lines(s + [c]) == Push(Lines(s), c)
  {
    InitPush(s, c);
  }

  /** One line: not empty, and a newline nowhere but at its end. */
  predicate IsLine(l: Bytes) {
    l != [] && NoNL(Init(l))
  }

  predicate NoNL(s: Bytes) {
    forall i :: 0 <= i < |s| ==> s[i] != NL
  }

  /** Sequences of lines that some text is cut into. */
  predicate LineList(ls: seq<Bytes>) {
    && (forall i :: 0 <= i < |ls| ==> IsLine(ls[i]))
    && (forall i :: 0 <= i < |ls| - 1 ==> Terminated(ls[i]))
  }

  lemma {:induction false} PushConcat(ls: seq<Bytes>, c: byte)
    ensures Concat(Push(ls, c)) == Concat(ls) + [c]
  {
    if ls == [] || Terminated(Last(ls)) {
      ConcatPush(ls, [c]);
    } else {
      ConcatPush(Init(ls), Last(ls) + [c]);
      Assoc(Concat(Init(ls)), Last(ls), [c]);
    }
  }

  lemma PushLineList(ls: seq<Bytes>, c: byte)
    requires LineList(ls)
    ensures LineList(Push(ls, c))
    ensures Push(ls, c) != [] && (Terminated(Last(Push(ls, c))) <==> c == NL)
  {
    if ls != [] && !Terminated(Last(ls)) {
      var l := Last(ls);
      InitPush(l, c);
      assert IsLine(l) && NoNL(l) by { InitLast(l); }
      assert IsLine(l + [c]);
    }
  }

  lemma {:induction false} LinesSound(s: Bytes)
    ensures LineList(Lines(s)) && Concat(Lines(s)) == s
    ensures s != [] ==> Lines(s) != [] && (Terminated(Last(Lines(s))) <==> Terminated(s))
  {
    if s != [] {
      LinesSound(Init(s));
      PushConcat(Lines(Init(s)), Last(s));
      PushLineList(Lines(Init(s)), Last(s));
      InitLast(s);
    }
  }

  /** Reading one more line after complete ones. */
  lemma {:induction false} LinesOfLine(s: Bytes, l: Bytes)
    requires s == [] || Terminated(s)
    requires IsLine(l)
    ensures Lines(s + l) == Lines(s) + [l]
  {
    var h := Init(l);
    InitAppend(s, l);
    LinesSound(s);
    if h == [] {
      Nil(s);
      assert l == [Last(l)];
    } else {
      assert NoNL(Init(h));
      LinesOfLine(s, h);
      InitPush(Lines(s), h);
      InitLast(h);
      assert !Terminated(h);
      InitLast(l);
    }
  }

  /** Lines and texts determine each other. */
  lemma {:induction false} LinesOfConcat(ls: seq<Bytes>)
    requires LineList(ls)
    ensures Lines(Concat(ls)) == ls
    ensures ls != [] ==> Concat(ls) != [] && (Terminated(Concat(ls)) <==> Terminated(Last(ls)))
  {
    if ls != [] {
      LinesOfConcat(Init(ls));
      assert IsLine(Last(ls));
      LinesOfLine(Concat(Init(ls)), Last(ls));
      InitLast(ls);
      InitAppend(Concat(Init(ls)), Last(ls));
    }
  }

  /** A run of the lines of a text is again the lines of the text it spells. */
  lemma {:induction false} LinesOfSlice(s: Bytes, i: nat, j: nat)
    requires i <= j <= |Lines(s)|
    ensures Lines(Concat(Lines(s)[i..j])) == Lines(s)[i..j]
  {
    LinesSound(s);
    LinesOfConcat(Lines(s)[i..j]);
  }

  // ----- loops that scan for newlines ---------------------------------------

  /** What follows the last newline, as a line if there is anything. */
  function Rest(open: Bytes): seq<Bytes> {
    if open == [] then [] else [open]
  }

  /** Reading one byte on extends the open line or begins one. */
  lemma PushRest(lines: seq<Bytes>, open: Bytes, c: byte)
    requires !Terminated(open) && (lines == [] || Terminated(Last(lines)))
    ensures Push(lines + Rest(open), c) == lines + [open + [c]]
  {
    if open == [] {
      Nil(lines);
      Nil([c]);
    } else {
      InitPush(lines, open);
    }
  }

  /** Having scanned s up to i, `lines` are complete and an open line began at
      `start`. */
  ghost predicate CutTo(s: Bytes, lines: seq<Bytes>, start: nat, i: nat) {
    && start <= i <= |s| && Lines(Span(s, 0, i)) == lines + Rest(Span(s, start, i))
    && StaysOpen(s, start, i) && (lines == [] || Terminated(Last(lines)))
  }

  /** No newline from start to i. */
  ghost predicate StaysOpen(s: Bytes, start: nat, i: nat)
    requires i <= |s|
  {
    start < i ==> s[i - 1] != NL && StaysOpen(s, start, i - 1)
  }

  lemma {:induction false} OpenAt(s: Bytes, start: nat, i: nat, k: nat)
    requires start <= k < i <= |s| && StaysOpen(s, start, i)
    ensures s[k] != NL
  {
    if k < i - 1 {
      OpenAt(s, start, i - 1, k);
    }
  }

  lemma {:induction false} OpenHasNoNL(s: Bytes, start: nat, i: nat, open: Bytes)
    requires start <= i <= |s| && StaysOpen(s, start, i) && open == s[start..i]
    ensures NoNL(open)
  {
    forall j | 0 <= j < |open| ensures open[j] != NL {
      OpenAt(s, start, i, start + j);
      assert open[j] == s[start + j];
    }
  }

  lemma {:induction false} OpenNotEnded(s: Bytes, start: nat, i: nat)
    requires start <= i <= |s| && StaysOpen(s, start, i)
    ensures !Terminated(Span(s, start, i))
  {
    if start < i {
      InitPush(Span(s, start, i - 1), s[i - 1]);
    }
  }

  lemma CutStart(s: Bytes)
    ensures CutTo(s, [], 0, 0)
  {
  }

  /** One byte on, the open line is one byte longer. */
  lemma {:induction false} LineGrows(s: Bytes, lines: seq<Bytes>, start: nat, i: nat, next: nat)
    requires CutTo(s, lines, start, i) && i < |s| && next == i + 1
    ensures Lines(Span(s, 0, next)) == lines + [Span(s, start, next)]
  {
    LinesPush(Span(s, 0, i), s[i]);
    OpenNotEnded(s, start, i);
    PushRest(lines, Span(s, start, i), s[i]);
  }

  lemma {:induction false} LineEnds(s: Bytes, lines: seq<Bytes>, start: nat, i: nat, next: nat)
    requires start <= i < |s| && next == i + 1 && s[i] == NL
    requires Lines(Span(s, 0, next)) == lines + [Span(s, start, next)]
    ensures CutTo(s, lines + [Span(s, start, next)], next, next)
  {
    InitPush(Span(s, start, i), s[i]);
    InitPush(lines, Span(s, start, next));
    Nil(lines + [Span(s, start, next)]);
  }

  /** Scanning past a byte that is no newline ... */
  lemma CutPasses(s: Bytes, lines: seq<Bytes>, start: nat, i: nat, next: nat)
    requires CutTo(s, lines, start, i) && i < |s| && s[i] != NL && next == i + 1
    ensures CutTo(s, lines, start, next)
  {
    LineGrows(s, lines, start, i, next);
  }

  /** ... and past a newline, which ends a line. */
  lemma CutLine(s: Bytes, lines: seq<Bytes>, start: nat, i: nat, next: nat, line: Bytes)
    requires CutTo(s, lines, start, i) && i < |s| && s[i] == NL && next == i + 1 && line == s[start..next]
    ensures CutTo(s, lines + [line], next, next)
  {
    LineGrows(s, lines, start, i, next);
    LineEnds(s, lines, start, i, next);
    SpanIsSlice(s, start, next);
  }

  lemma {:induction false} CutEnd(s: Bytes, lines: seq<Bytes>, start: nat)
    requires CutTo(s, lines, start, |s|)
    ensures Lines(s) == lines + Rest(s[start..])
  {
    SpanAll(s);
    assert Span(s, start, |s|) == s[start..] by {
      SpanIsSlice(s, start, |s|);
      assert s[start..|s|] == s[start..];
    }
  }

  /** Where the open line began once s is scanned up to i, and the lines before. */
  function OpenStart(s: Bytes, i: nat): (start: nat)
    requires i <= |s|
    ensures start <= i
  {
    if i == 0 then 0 else if s[i - 1] == NL then i else OpenStart(s, i - 1)
  }

  function LinesTo(s: Bytes, i: nat): seq<Bytes>
    requires i <= |s|
  {
    if i == 0 then []
    else if s[i - 1] == NL then LinesTo(s, i - 1) + [s[OpenStart(s, i - 1)..i]]
    else LinesTo(s, i - 1)
  }

  lemma {:induction false} ScanStep(s: Bytes, i: nat, next: nat)
    requires i < |s| && next == i + 1
    ensures OpenStart(s, next) == if s[i] == NL then next else OpenStart(s, i)
    ensures LinesTo(s, next) == if s[i] == NL then LinesTo(s, i) + [s[OpenStart(s, i)..next]] else LinesTo(s, i)
  {
  }

  lemma {:induction false} CutOn(s: Bytes, lines: seq<Bytes>, start: nat, i: nat, next: nat)
    requires CutTo(s, lines, start, i) && i < |s| && next == i + 1
    ensures if s[i] == NL then CutTo(s, lines + [s[start..next]], next, next) else CutTo(s, lines, start, next)
  {
    if s[i] == NL {
      CutLine(s, lines, start, i, next, s[start..next]);
    } else {
      CutPasses(s, lines, start, i, next);
    }
  }

  lemma {:induction false} ScanCuts(s: Bytes, i: nat)
    requires i <= |s|
    ensures CutTo(s, LinesTo(s, i), OpenStart(s, i), i)
  {
    if i == 0 {
      CutStart(s);
    } else {
      var j := i - 1;
      ScanCuts(s, j);
      ScanStep(s, j, i);
      CutOn(s, LinesTo(s, j), OpenStart(s, j), j, i);
    }
  }

  /** A whole text scanned: what is left open is the last line. */
  lemma {:induction false} ScanDone(s: Bytes)
    ensures Lines(s) == LinesTo(s, |s|) + Rest(s[OpenStart(s, |s|)..])
  {
    ScanCuts(s, |s|);
    CutEnd(s, LinesTo(s, |s|), OpenStart(s, |s|));
  }

  // ----- fields -------------------------------------------------------------

  /** strings.Split(s, "\n"): the fields between newlines, at least one. */
  function Split(s: Bytes): (fs: seq<Bytes>)
    ensures fs != []
  {
    if s == [] then [[]]
    else
      var fs := Split(Init(s));
      if Last(s) == NL then fs + [[]] else Init(fs) + [Last(fs) + [Last(s)]]
  }

  /** strings.Join(fields, "\n"). */
  function Join(fs: seq<Bytes>): Bytes {
    if fs == [] then [] else if |fs| == 1 then fs[0] else Join(Init(fs)) + [NL] + Last(fs)
  }

  /** What Split yields. */
  predicate Fields(fs: seq<Bytes>) {
    fs != [] && forall i :: 0 <= i < |fs| ==> NoNL(fs[i])
  }

  lemma {:induction false} JoinPush(fs: seq<Bytes>, f: Bytes)
    requires fs != []
    ensures Join(fs + [f]) == Join(fs) + [NL] + f
  {
    InitPush(fs, f);
  }

  lemma {:induction false} JoinExtend(fs: seq<Bytes>, x: Bytes)
    requires fs != []
    ensures Join(Init(fs) + [Last(fs) + x]) == Join(fs) + x
  {
    var l := Last(fs);
    if |fs| == 1 {
      assert Init(fs) + [l + x] == [l + x];
    } else {
      JoinPush(Init(fs), l + x);
      Assoc(Join(Init(fs)) + [NL], l, x);
    }
  }

  lemma FieldsGrow(fs: seq<Bytes>, c: byte)
    requires Fields(fs)
    ensures Fields(fs + [[]]) && (c != NL ==> Fields(Init(fs) + [Last(fs) + [c]]))
  {
    if c != NL {
      assert NoNL(Last(fs) + [c]);
    }
  }

  lemma {:induction false} SplitSound(s: Bytes)
    ensures Fields(Split(s)) && Join(Split(s)) == s
  {
    if s != [] {
      var fs := Split(Init(s));
      SplitSound(Init(s));
      FieldsGrow(fs, Last(s));
      InitLast(s);
      if Last(s) == NL {
        JoinPush(fs, []);
        Nil(Join(fs) + [NL]);
      } else {
        JoinExtend(fs, [Last(s)]);
      }
    }
  }

  lemma {:induction false} SplitAppend(s: Bytes, f: Bytes)
    requires NoNL(f)
    ensures Split(s + f) == Init(Split(s)) + [Last(Split(s)) + f]
  {
    if f == [] {
      Nil(s);
      InitLast(Split(s));
      Nil(Last(Split(s)));
    } else {
      InitAppend(s, f);
      SplitAppend(s, Init(f));
      InitPush(Init(Split(s)), Last(Split(s)) + Init(f));
      InitLast(f);
      Assoc(Last(Split(s)), Init(f), [Last(f)]);
    }
  }

  lemma {:induction false} SplitJoin(fs: seq<Bytes>)
    requires Fields(fs)
    ensures Split(Join(fs)) == fs
  {
    if |fs| == 1 {
      SplitAppend([], fs[0]);
      Nil(fs[0]);
      Nil([fs[0]]);
      assert Split([]) == [[]] && Init(Split([])) == [];
      assert fs == [fs[0]];
    } else {
      var h := Join(Init(fs)) + [NL];
      SplitJoin(Init(fs));
      InitPush(Join(Init(fs)), NL);
      InitPush(Init(fs), []);
      SplitAppend(h, Last(fs));
      InitLast(fs);
      Nil(Last(fs));
    }
  }

  lemma {:induction false} JoinAppend(a: seq<Bytes>, b: seq<Bytes>)
    requires a != [] && b != []
    ensures Join(a + b) == Join(a) + [NL] + Join(b)
  {
    InitAppend(a, b);
    if |b| == 1 {
      assert b == [b[0]];
      JoinPush(a, b[0]);
    } else {
      JoinAppend(a, Init(b));
      Assoc(Join(a) + [NL], Join(Init(b)), [NL]);
      Assoc(Join(a) + [NL], Join(Init(b)) + [NL], Last(b));
    }
  }

  /** A line without its newline. */
  function Chomp(l: Bytes): Bytes {
    if Terminated(l) then Init(l) else l
  }

  function ChompAll(ls: seq<Bytes>): (r: seq<Bytes>)
    ensures |r| == |ls| && forall i :: 0 <= i < |ls| ==> r[i] == Chomp(ls[i])
  {
    seq(|ls|, i requires 0 <= i < |ls| => Chomp(ls[i]))
  }

  lemma ChompAllPush(ls: seq<Bytes>, l: Bytes)
    ensures ChompAll(ls + [l]) == ChompAll(ls) + [Chomp(l)]
  {
  }

  /** A first byte after a newline, or at the start. */
  lemma FieldAfterNL(ls: seq<Bytes>, fs: seq<Bytes>, c: byte)
    requires fs == ChompAll(ls) + [[]]
    ensures (if c == NL then fs + [[]] else Init(fs) + [Last(fs) + [c]]) == ChompAll(ls + [[c]]) + if c
            == NL then [[]] else []
  {
    ChompAllPush(ls, [c]);
    InitPush(ChompAll(ls), []);
    assert Chomp([c]) == if c == NL then [] else [c];
    Nil([c]);
    Nil(ChompAll(ls) + [[c]]);
  }

  /** A byte inside a line. */
  lemma FieldGoesOn(ls: seq<Bytes>, fs: seq<Bytes>, c: byte)
    requires ls != [] && !Terminated(Last(ls)) && fs == ChompAll(ls) + []
    ensures fs != []
    ensures (if c == NL then fs + [[]] else Init(fs) + [Last(fs) + [c]])
      == ChompAll(Init(ls) + [Last(ls) + [c]]) + if c == NL then [[]] else []
  {
    var l := Last(ls);
    InitLast(ls);
    ChompAllPush(Init(ls), l);
    ChompAllPush(Init(ls), l + [c]);
    InitPush(ChompAll(Init(ls)), Chomp(l));
    InitPush(l, c);
    Nil(ChompAll(ls));
    Nil(ChompAll(Init(ls)) + [l + [c]]);
  }

  /** Splitting on newlines is cutting into lines and dropping each newline,
      with one empty field after a final newline. */
  lemma {:induction false} SplitIsLines(s: Bytes)
    ensures Split(s) == ChompAll(Lines(s)) + if s == [] || Terminated(s) then [[]] else []
  {
    if s == [] {
      assert ChompAll([]) == [];
    } else {
      var h, c := Init(s), Last(s);
      SplitIsLines(h);
      LinesSound(h);
      var ls, fs := Lines(h), Split(h);
      if h == [] || Terminated(h) {
        FieldAfterNL(ls, fs, c);
      } else {
        FieldGoesOn(ls, fs, c);
      }
    }
  }
}
