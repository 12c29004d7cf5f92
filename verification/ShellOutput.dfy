/** Capturing the output of a command chunk by chunk, in bounded memory. */
module ShellOutput {
  import opened Encoding
  import opened Text
  import opened Truncate

  const MAX_TAIL_BYTES: int := 2 * DEFAULT_MAX_BYTES

  // ----- boundaries ---------------------------------------------------------

  /** A text begins at a character ... */
  predicate Leads(t: Bytes) {
    t == [] || !Cont(t[0])
  }

  /** ... whose continuation is at most three bytes long. */
  ghost predicate ShortRuns(t: Bytes) {
    forall i :: !FourConts(t, i)
  }

  predicate FourConts(t: Bytes, i: int) {
    0 <= i && i + 3 < |t| && Cont(t[i]) && Cont(t[i + 1]) && Cont(t[i + 2]) && Cont(t[i + 3])
  }

  lemma ShortRunsPush(t: Bytes, e: Bytes)
    requires ShortRuns(t) && 1 <= |e| <= 4 && !Cont(e[0])
    ensures ShortRuns(t + e)
  {
    forall i ensures !FourConts(t + e, i) {
      assert !FourConts(t, i);
      assert (t + e)[|t|] == e[0];
    }
  }

  lemma {:induction false} Utf8Boundaries(rs: seq<Rune>)
    ensures Leads(Utf8(rs)) && ShortRuns(Utf8(rs))
  {
    if rs != [] {
      Utf8Boundaries(Init(rs));
      ShortRunsPush(Utf8(Init(rs)), Encode(Last(rs)));
    }
  }

  // ----- sanitizing ---------------------------------------------------------

  const TAB: int := 9

  predicate KeptRune(r: Rune) {
    r == TAB || r == NL as int || r == CR as int || !(r <= 0x1f || 0xfff9 <= r <= 0xfffb)
  }

  function SanitizeBinaryOutput(rs: seq<Rune>): seq<Rune> {
    if rs == [] then []
    else SanitizeBinaryOutput(Init(rs)) + if KeptRune(Last(rs)) then [Last(rs)] else []
  }

  /** strings.ReplaceAll(s, "\r", ""). */
  function DropCR(s: Bytes): Bytes {
    if s == [] then [] else DropCR(Init(s)) + if Last(s) == CR then [] else [Last(s)]
  }

  /** What a chunk contributes to the stream: its characters but control ones,
      annotation marks and carriage returns. */
  function Clean(rs: seq<Rune>): seq<Rune> {
    if rs == [] then []
    else Clean(Init(rs)) + if KeptRune(Last(rs)) && Last(rs) != CR as int then [Last(rs)] else []
  }

  lemma {:induction false} CleanAppend(a: seq<Rune>, b: seq<Rune>)
    ensures Clean(a + b) == Clean(a) + Clean(b)
  {
    if b == [] {
      Nil(a);
      Nil(Clean(a));
    } else {
      InitAppend(a, b);
      CleanAppend(a, Init(b));
      Assoc(Clean(a), Clean(Init(b)), if KeptRune(Last(b)) && Last(b) != CR as int then [Last(b)] else []);
    }
  }

  lemma {:induction false} DropCRAppend(a: Bytes, b: Bytes)
    ensures DropCR(a + b) == DropCR(a) + DropCR(b)
  {
    if b == [] {
      Nil(a);
      Nil(DropCR(a));
    } else {
      InitAppend(a, b);
      DropCRAppend(a, Init(b));
      Assoc(DropCR(a), DropCR(Init(b)), if Last(b) == CR then [] else [Last(b)]);
    }
  }

  lemma {:induction false} NoCRDrops(s: Bytes)
    requires CR !in s
    ensures DropCR(s) == s
  {
    if s != [] {
      NoCRDrops(Init(s));
      InitLast(s);
    }
  }

  lemma DropCROfRune(r: Rune)
    ensures DropCR(Encode(r)) == if r == CR as int then [] else Encode(r)
  {
    if r == CR as int {
      assert Init([CR]) == [] && DropCR([CR]) == [];
    } else {
      NoCRDrops(Encode(r));
    }
  }

  /** Dropping the CR bytes of the encoding is dropping the CR characters. */
  lemma {:induction false} CleanText(rs: seq<Rune>)
    ensures DropCR(Utf8(SanitizeBinaryOutput(rs))) == Utf8(Clean(rs))
  {
    if rs != [] {
      var kept, r := SanitizeBinaryOutput(Init(rs)), Last(rs);
      CleanText(Init(rs));
      Nil(kept);
      Nil(Clean(Init(rs)));
      Nil(Utf8(Clean(Init(rs))));
      if KeptRune(r) {
        InitPush(kept, r);
        InitPush(Clean(Init(rs)), r);
        DropCRAppend(Utf8(kept), Encode(r));
        DropCROfRune(r);
      }
    }
  }

  /** Tab, newline, and all characters but the control ones and annotation marks. */
  ghost predicate Ordinary(r: Rune) {
    r == TAB || r == NL as int || (r >= 0x20 && !(0xFFF9 <= r <= 0xFFFB))
  }

  ghost predicate AllOrdinary(rs: seq<Rune>) {
    forall i :: 0 <= i < |rs| ==> Ordinary(rs[i])
  }

  /** Of each character, it is kept exactly if it is ordinary. */
  lemma CleanOne(r: Rune)
    ensures Clean([r]) == if Ordinary(r) then [r] else []
  {
    assert Init([r]) == [];
  }

  lemma {:induction false} CleanOrdinary(rs: seq<Rune>)
    ensures AllOrdinary(Clean(rs))
    ensures AllOrdinary(rs) ==> Clean(rs) == rs
  {
    if rs != [] {
      CleanOrdinary(Init(rs));
      CleanOne(Last(rs));
      InitLast(rs);
    }
  }

  /** No control byte but tab and newline. */
  ghost predicate Legible(s: Bytes) {
    forall i :: 0 <= i < |s| ==> s[i] as int == TAB || s[i] == NL || s[i] >= 0x20
  }

  lemma {:induction false} OrdinaryLegible(rs: seq<Rune>)
    requires AllOrdinary(rs)
    ensures Legible(Utf8(rs))
  {
    if rs != [] {
      OrdinaryLegible(Init(rs));
    }
  }

  ghost predicate AllLegible(ls: seq<Bytes>) {
    forall i :: 0 <= i < |ls| ==> Legible(ls[i])
  }

  lemma PushLegible(ls: seq<Bytes>, c: byte)
    requires AllLegible(ls) && Legible([c])
    ensures AllLegible(Push(ls, c))
  {
    assert [c][0] == c;
    if ls != [] && !Terminated(Last(ls)) {
      assert Legible(Last(ls));
      assert Legible(Last(ls) + [c]);
    }
  }

  lemma ChompLegible(ls: seq<Bytes>)
    requires AllLegible(ls)
    ensures AllLegible(ChompAll(ls))
  {
    forall i | 0 <= i < |ls| ensures Legible(ChompAll(ls)[i]) {
      assert Legible(ls[i]);
    }
  }

  lemma {:induction false} LinesLegible(s: Bytes)
    requires Legible(s)
    ensures AllLegible(Lines(s))
  {
    if s != [] {
      LinesLegible(Init(s));
      PushLegible(Lines(Init(s)), Last(s));
    }
  }

  lemma {:induction false} JoinLegible(ls: seq<Bytes>)
    requires AllLegible(ls)
    ensures Legible(Join(ls))
  {
    if |ls| == 1 {
      assert Join(ls) == ls[0];
    } else if |ls| > 1 {
      JoinLegible(Init(ls));
      assert Legible(Last(ls)) && Legible([NL]);
    }
  }

  lemma EndLegible(ls: seq<Bytes>, i: nat)
    requires AllLegible(ls) && i <= |ls|
    ensures Legible(Join(ls[i..]))
  {
    JoinLegible(ls[i..]);
  }

  lemma SuffixLegible(s: Bytes, m: int)
    requires Legible(s)
    ensures Legible(FromEnd(s, m))
  {
  }

  /** Nor does truncating bring one in. */
  lemma {:induction false} TailLegible(s: Bytes, o: Options)
    requires Legible(s)
    ensures Legible(TailOf(s, o).content)
  {
    var lines := ChompAll(Lines(s));
    var k := TailKept(lines, o, |lines|);
    LinesLegible(s);
    ChompLegible(Lines(s));
    EndLegible(lines, |lines| - k);
    if lines != [] {
      SuffixLegible(Last(lines), o.maxBytes);
    }
  }

  // ----- the kept end of a stream -------------------------------------------

  lemma {:induction false} SkipUnique(s: Bytes, i: nat, p: nat)
    requires i <= p <= |s| && (forall j :: i <= j < p ==> Cont(s[j])) && (p < |s| ==> !Cont(s[p]))
    ensures SkipCont(s, i) == p
  {
  }

  lemma SkipInSuffix(s: Bytes, p: nat, i: nat)
    requires p <= i <= |s|
    ensures SkipCont(s, i) == p + SkipCont(s[p..], i - p)
  {
    var q := SkipCont(s[p..], i - p);
    forall j | i <= j < p + q ensures Cont(s[j]) {
      assert s[p..][j - p] == s[j];
    }
    if p + q < |s| {
      assert s[p..][q] == s[p + q];
    }
    SkipUnique(s, i, p + q);
  }

  lemma DropTwice<T>(s: seq<T>, p: nat, q: nat)
    requires p + q <= |s|
    ensures s[p..][q..] == s[p + q..]
  {
  }

  /** The end of a text depends only on its last bytes. */
  lemma FromEndOfSuffix(s: Bytes, p: nat, m: int)
    requires 0 < m && p <= |s| && m < |s| - p
    ensures FromEnd(s[p..], m) == FromEnd(s, m)
  {
    var i, t := |s| - m, s[p..];
    var q := SkipCont(t, i - p);
    SkipInSuffix(s, p, i);
    DropTwice(s, p, q);
    assert FromEnd(t, m) == t[q..];
  }

  /** Trimming what was kept so far and the next chunk is trimming the whole. */
  lemma TrimAgain(s: Bytes, t: Bytes, m: int)
    requires 0 < m && Leads(t)
    ensures FromEnd(FromEnd(s, m) + t, m) == FromEnd(s + t, m)
  {
    if |s| > m {
      var p := SkipCont(s, |s| - m);
      var all := s + t;
      assert s[p..] + t == all[p..];
      if |all| - p <= m {
        forall j | |all| - m <= j < p ensures Cont(all[j]) {
          assert all[j] == s[j];
        }
        assert p < |all| ==> all[p] == if p < |s| then s[p] else t[0];
        SkipUnique(all, |all| - m, p);
      } else {
        FromEndOfSuffix(all, p, m);
      }
    }
  }

  /** Little more than the limit is given up to end on a boundary. */
  lemma TrimKeepsMost(s: Bytes, m: int)
    requires 3 < m <= |s| && ShortRuns(s)
    ensures |FromEnd(s, m)| >= m - 3
  {
    if |s| > m {
      var a := |s| - m;
      var p := SkipCont(s, a);
      assert !FourConts(s, a);
    }
  }

  // ----- the tail of a stream from its kept end -----------------------------

  /** Two line lists agree from the end, but that the first line of the second
      may be only the end of its counterpart. */
  ghost predicate EndsLike(long: seq<Bytes>, short: seq<Bytes>) {
    && |short| <= |long|
    && (forall j :: 0 < j < |short| ==> short[j] == long[|long| - |short| + j])
    && (short != [] ==> EndOf(long[|long| - |short|], short[0]))
  }

  ghost predicate EndOf(l: Bytes, e: Bytes) {
    |e| <= |l| && l[|l| - |e|..] == e
  }

  lemma EndOfPush(l: Bytes, e: Bytes, c: byte)
    requires EndOf(l, e) && e != []
    ensures EndOf(l + [c], e + [c]) && (Terminated(l) <==> Terminated(e))
  {
    assert (l + [c])[|l| - |e|..] == l[|l| - |e|..] + [c];
    assert Last(e) == l[|l| - |e|..][|e| - 1];
  }

  lemma EndsLikeLast(long: seq<Bytes>, short: seq<Bytes>)
    requires EndsLike(long, short) && short != [] && short[0] != []
    ensures Terminated(Last(long)) <==> Terminated(Last(short))
    ensures |short| > 1 ==> Last(short) == Last(long) && EndsLike(Init(long), Init(short))
  {
    if |short| == 1 {
      EndOfPush(Last(long), short[0], NL);
    } else {
      assert short[|short| - 1] == long[|long| - 1];
    }
  }

  lemma EndsLikeMore(long: seq<Bytes>, short: seq<Bytes>, x: Bytes)
    requires EndsLike(long, short) && short != []
    ensures EndsLike(long + [x], short + [x])
  {
  }

  lemma EndsLikeOne(long: seq<Bytes>, l: Bytes, e: Bytes)
    requires EndOf(l, e)
    ensures EndsLike(long + [l], [e])
  {
  }

  lemma EndsLikePush(long: seq<Bytes>, short: seq<Bytes>, c: byte)
    requires EndsLike(long, short) && (short != [] ==> short[0] != [])
    ensures EndsLike(Push(long, c), Push(short, c))
  {
    if short == [] {
      if long == [] || Terminated(Last(long)) {
        assert [c][0..] == [c];
        EndsLikeOne(long, [c], [c]);
      } else {
        assert (Last(long) + [c])[|Last(long)|..] == [c];
        EndsLikeOne(Init(long), Last(long) + [c], [c]);
      }
    } else {
      EndsLikeLast(long, short);
      if Terminated(Last(short)) {
        EndsLikeMore(long, short, [c]);
      } else if |short| == 1 {
        EndOfPush(Last(long), short[0], c);
        EndsLikeOne(Init(long), Last(long) + [c], short[0] + [c]);
        Nil([short[0] + [c]]);
      } else {
        EndsLikeMore(Init(long), Init(short), Last(short) + [c]);
      }
    }
  }

  lemma {:induction false} LinesEndLike(p: Bytes, t: Bytes)
    ensures EndsLike(Lines(p + t), Lines(t))
  {
    if t == [] {
      Nil(p);
    } else {
      InitAppend(p, t);
      LinesSound(Init(t));
      LinesEndLike(p, Init(t));
      EndsLikePush(Lines(p + Init(t)), Lines(Init(t)), Last(t));
    }
  }

  lemma EndOfChomp(l: Bytes, e: Bytes)
    requires EndOf(l, e) && e != []
    ensures EndOf(Chomp(l), Chomp(e))
  {
    EndOfPush(l, e, NL);
    if Terminated(l) {
      assert Init(l)[|l| - |e|..] == Init(l[|l| - |e|..]);
    }
  }

  lemma ChompedEndLike(long: seq<Bytes>, short: seq<Bytes>)
    requires EndsLike(long, short) && (short != [] ==> short[0] != [])
    ensures EndsLike(ChompAll(long), ChompAll(short))
  {
    if short != [] {
      EndOfChomp(long[|long| - |short|], short[0]);
    }
  }

  lemma {:induction false} SameTailSize(long: seq<Bytes>, short: seq<Bytes>, k: nat)
    requires EndsLike(long, short) && k <= |short|
    ensures TailSize(short, k) <= TailSize(long, k) && (k < |short| ==> TailSize(short, k) == TailSize(long, k))
  {
    if k > 0 {
      SameTailSize(long, short, k - 1);
      assert k < |short| ==> short[|short| - k] == long[|long| - k];
    }
  }

  /** If not all of the short list fits, both keep the same number of lines ... */
  lemma {:induction false} SameTailKept(long: seq<Bytes>, short: seq<Bytes>, o: Options)
    requires EndsLike(long, short) && TailSize(short, |short|) > o.maxBytes >= 0
    ensures TailKept(short, o, |short|) < |short| && TailKept(long, o, |long|) == TailKept(short, o, |short|)
  {
    var k := TailKept(short, o, |short|);
    SameTailSize(long, short, k);
    SameTailSize(long, short, |short|);
    if k < |short| {
      SameTailSize(long, short, k + 1);
      assert !TailFits(short, o, k + 1);
      TailKeptIs(long, o, k, |long|);
    }
  }

  lemma SameSlice<T>(long: seq<T>, short: seq<T>, k: nat)
    requires k < |short| <= |long| && forall j :: 0 < j < |short| ==> short[j] == long[|long| - |short| + j]
    ensures long[|long| - k..] == short[|short| - k..]
  {
    var a, b := long[|long| - k..], short[|short| - k..];
    forall i | 0 <= i < k ensures a[i] == b[i] {
      assert short[|short| - k + i] == long[|long| - k + i];
    }
  }

  lemma {:induction false} OneLineSize(lines: seq<Bytes>)
    requires |lines| == 1
    ensures TailSize(lines, |lines|) == |lines[0]| && Last(lines) == lines[0]
  {
    assert TailSize(lines, 1) == |lines[0]|;
  }

  lemma EndOfLine(l: Bytes, e: Bytes, m: int)
    requires EndOf(l, e) && 0 < m < |e|
    ensures FromEnd(l, m) == FromEnd(e, m)
  {
    FromEndOfSuffix(l, |l| - |e|, m);
  }

  /** The end of the last line, of which more is left than the limit. */
  lemma {:induction false} SamePartial(long: seq<Bytes>, short: seq<Bytes>, m: int)
    requires EndsLike(long, short) && short != [] && 0 < m < TailSize(short, |short|)
    ensures FromEnd(Last(long), m) == FromEnd(Last(short), m)
  {
    if |short| == 1 {
      OneLineSize(short);
      EndOfLine(Last(long), short[0], m);
    } else {
      assert short[|short| - 1] == long[|long| - 1];
    }
  }

  /** ... and so yield the same tail. */
  lemma {:induction false} SameTail(long: seq<Bytes>, short: seq<Bytes>, n: nat, m: nat, o: Options)
    requires EndsLike(long, short) && TailSize(short, |short|) > o.maxBytes > 0
    ensures TailOfLines(long, n, o) == TailOfLines(short, m, o).(totalLines := |long|, totalBytes := n)
  {
    SameTailKept(long, short, o);
    SameSlice(long, short, TailKept(short, o, |short|));
    SamePartial(long, short, o.maxBytes);
  }

  /** All lines of a text joined again miss at most its final newline. */
  lemma {:induction false} AllLinesSize(t: Bytes)
    ensures TailSize(ChompAll(Lines(t)), |Lines(t)|) >= |t| - 1
  {
    var lines := ChompAll(Lines(t));
    TailSizeIsJoin(lines, |lines|);
    assert lines[|lines| - |lines|..] == lines;
    SplitIsLines(t);
    SplitSound(t);
    if t == [] || Terminated(t) {
      if lines != [] {
        JoinPush(lines, []);
      } else {
        assert lines + [[]] == [[]];
      }
    } else {
      Nil(lines);
    }
  }

  /** The tail of a text depends only on its end, but for the totals. */
  lemma {:induction false} TailOfEnd(p: Bytes, t: Bytes, o: Options)
    requires 0 < o.maxBytes && |t| >= o.maxBytes + 2
    ensures TailOf(p + t, o) == TailOf(t, o).(totalLines := |Lines(p + t)|, totalBytes := |p + t|)
  {
    LinesEndLike(p, t);
    LinesSound(t);
    ChompedEndLike(Lines(p + t), Lines(t));
    AllLinesSize(t);
    SameTail(ChompAll(Lines(p + t)), ChompAll(Lines(t)), |p + t|, |t|, o);
  }

  // ----- counting as the chunks come in -------------------------------------

  /** strings.Count(s, "\n"). */
  function CountNL(s: Bytes): nat {
    if s == [] then 0 else CountNL(Init(s)) + if Last(s) == NL then 1 else 0
  }

  /** strings.LastIndexByte(s, '\n'). */
  function LastIndexNL(s: Bytes): (i: int)
    ensures -1 <= i < |s|
  {
    if s == [] then -1 else if Last(s) == NL then |s| - 1 else LastIndexNL(Init(s))
  }

  /** Bytes after the last newline. */
  function OpenBytes(s: Bytes): nat {
    |Last(Split(s))|
  }

  lemma {:induction false} CountAppend(a: Bytes, b: Bytes)
    ensures CountNL(a + b) == CountNL(a) + CountNL(b)
  {
    if b == [] {
      Nil(a);
    } else {
      InitAppend(a, b);
      CountAppend(a, Init(b));
    }
  }

  lemma {:induction false} OpenAppend(a: Bytes, b: Bytes)
    ensures var i := LastIndexNL(b);
            OpenBytes(a + b) == if i >= 0 then |b| - i - 1 else OpenBytes(a) + |b|
  {
    if b == [] {
      Nil(a);
    } else {
      InitAppend(a, b);
      OpenAppend(a, Init(b));
    }
  }

  lemma {:induction false} LinesCounted(s: Bytes)
    ensures |Lines(s)| == CountNL(s) + if OpenBytes(s) > 0 then 1 else 0
    ensures OpenBytes(s) > 0 <==> s != [] && !Terminated(s)
  {
    if s != [] {
      LinesCounted(Init(s));
      LinesSound(Init(s));
    }
  }

  lemma {:induction false} LinesGrow(a: Bytes, b: Bytes)
    ensures |Lines(a)| <= |Lines(a + b)|
  {
    if b == [] {
      Nil(a);
    } else {
      InitAppend(a, b);
      LinesGrow(a, Init(b));
    }
  }

  // ----- the capture --------------------------------------------------------

  const LIMITS := Options(DEFAULT_MAX_LINES, DEFAULT_MAX_BYTES)

  /** What creating the spill file comes to. */
  datatype Temp = Created(path: string) | CreateFailed

  datatype Progress = Progress(output: Bytes, truncation: Truncation, fullOutputPath: string)

  /** The kept end of a stream has the tail of the whole stream. */
  lemma {:induction false} TailOfKept(stream: seq<Rune>)
    ensures var s := Utf8(stream);
            TailOf(FromEnd(s, MAX_TAIL_BYTES), LIMITS).(totalLines := |Lines(s)|, totalBytes := |s|)
              == TailOf(s, LIMITS)
    ensures var s := Utf8(stream);
            Fits(FromEnd(s, MAX_TAIL_BYTES), LIMITS) <==> Fits(s, LIMITS)
  {
    var s := Utf8(stream);
    if |s| > MAX_TAIL_BYTES {
      var tail, p := FromEnd(s, MAX_TAIL_BYTES), SkipCont(s, |s| - MAX_TAIL_BYTES);
      Utf8Boundaries(stream);
      TrimKeepsMost(s, MAX_TAIL_BYTES);
      assert s == s[..p] + tail;
      TailOfEnd(s[..p], tail, LIMITS);
    }
  }

  /** The spill file is the one created at the first overflow. */
  ghost function PathAfter(path: string, before: Bytes, after: Bytes, temp: Temp): string {
    if Fits(before, LIMITS) && !Fits(after, LIMITS) && temp.Created? then temp.path else path
  }

  /** The kept end of a stream and a chunk: trimmed, the kept end of both; and both in
      full, as long as nothing has been trimmed. */
  lemma KeptGrows(s: Bytes, text: Bytes, t: Bytes, tail: Bytes)
    requires tail == FromEnd(s, MAX_TAIL_BYTES) && Leads(text) && t == s + text
    ensures FromEnd(tail + text, MAX_TAIL_BYTES) == FromEnd(t, MAX_TAIL_BYTES)
    ensures |s| <= MAX_TAIL_BYTES ==> tail + text == t
  {
    TrimAgain(s, text, MAX_TAIL_BYTES);
  }

  class ShellCaptureState {
    var tail: Bytes
    var totalBytes: nat
    var completedLines: nat
    var hasOpenLine: bool
    var currentLineBytes: nat
    var fullOutputPath: string
    var fullOutputStarted: bool
    var spillErr: bool
    /** What stands in the spill file as long as no write to it failed. */
    var spill: Bytes
    /** All characters captured so far. */
    ghost var stream: seq<Rune>

    ghost predicate Counts(s: Bytes)
      reads this
    {
      && totalBytes == |s| && completedLines == CountNL(s)
      && currentLineBytes == OpenBytes(s) && (hasOpenLine <==> OpenBytes(s) > 0)
    }

    /** Spilling has begun exactly if s is too long, and unless a write failed, the
        file holds all of s. */
    ghost predicate Spilled(s: Bytes)
      reads this
    {
      && (fullOutputStarted <==> !Fits(s, LIMITS)) && (spillErr ==> fullOutputStarted)
      && (fullOutputStarted && !spillErr ==> spill == s) && (!fullOutputStarted ==> fullOutputPath == "")
    }

    ghost predicate Holds(s: Bytes)
      reads this
    {
      Counts(s) && Spilled(s) && tail == FromEnd(s, MAX_TAIL_BYTES)
    }

    ghost predicate Valid()
      reads this
    {
      Holds(Utf8(stream))
    }

    constructor ()
      ensures Valid() && stream == [] && !spillErr
    {
      tail, totalBytes, completedLines, hasOpenLine, currentLineBytes := [], 0, 0, false, 0;
      fullOutputPath, fullOutputStarted, spillErr, spill, stream := "", false, false, [], [];
      new;
      assert Lines([]) == [] && Split([]) == [[]];
    }

    /** Takes one chunk. `temp` and `appended` say how creating the spill file and
        writing to it turn out, should it come to that. */
    method ObserveChunk(chunk: seq<Rune>, temp: Temp, appended: bool) returns (text: Bytes)
      requires Valid()
      modifies this
      ensures Valid() && stream == old(stream) + Clean(chunk) && text == Utf8(Clean(chunk))
      ensures var first, over := Fits(Utf8(old(stream)), LIMITS), !Fits(Utf8(stream), LIMITS);
              spillErr <==> old(spillErr) || (over && (!appended || (first && temp.CreateFailed?)))
      ensures fullOutputPath == PathAfter(old(fullOutputPath), Utf8(old(stream)), Utf8(stream), temp)
    {
      ghost var s := Utf8(stream);
      text := DropCR(Utf8(SanitizeBinaryOutput(chunk)));
      CleanText(chunk);
      Utf8Append(stream, Clean(chunk));
      Utf8Boundaries(Clean(chunk));
      stream := stream + Clean(chunk);
      Observe(text, temp, appended, s, Utf8(stream));
    }

    method Observe(text: Bytes, temp: Temp, appended: bool, ghost s: Bytes, ghost t: Bytes)
      requires Holds(s) && Leads(text) && t == s + text
      modifies `tail, `totalBytes, `completedLines, `currentLineBytes, `hasOpenLine,
               `fullOutputPath, `fullOutputStarted, `spillErr, `spill
      ensures Holds(t)
      ensures spillErr <==>
                old(spillErr) || (!Fits(t, LIMITS) && (!appended || (Fits(s, LIMITS) && temp.CreateFailed?)))
      ensures fullOutputPath == PathAfter(old(fullOutputPath), s, t, temp)
    {
      KeptGrows(s, text, t, tail);
      Count(text, s, t);
      tail := tail + text;
      SpillOn(text, temp, appended, s, t);
      tail := TruncateStringToBytesFromEnd(tail, MAX_TAIL_BYTES);
    }

    method Count(text: Bytes, ghost s: Bytes, ghost t: Bytes)
      requires Counts(s) && t == s + text
      modifies `totalBytes, `completedLines, `currentLineBytes, `hasOpenLine
      ensures Counts(t)
    {
      CountAppend(s, text);
      OpenAppend(s, text);
      totalBytes := totalBytes + |text|;
      completedLines := completedLines + CountNL(text);
      var lastNewline := LastIndexNL(text);
      if lastNewline >= 0 {
        var trailing := text[lastNewline + 1..];
        currentLineBytes := |trailing|;
        hasOpenLine := |trailing| > 0;
      } else if |text| > 0 {
        currentLineBytes := currentLineBytes + |text|;
        hasOpenLine := true;
      }
    }

    /** Once a write has failed, nothing more is spilled. */
    method SpillOn(text: Bytes, temp: Temp, appended: bool, ghost s: Bytes, ghost t: Bytes)
      requires t == s + text && Counts(t) && Spilled(s) && (|s| <= MAX_TAIL_BYTES ==> tail == t)
      modifies `fullOutputPath, `fullOutputStarted, `spillErr, `spill
      ensures Spilled(t)
      ensures spillErr <==>
                old(spillErr) || (!Fits(t, LIMITS) && (!appended || (Fits(s, LIMITS) && temp.CreateFailed?)))
      ensures fullOutputPath == PathAfter(old(fullOutputPath), s, t, temp)
    {
      if !spillErr {
        Spill(text, temp, appended, s, t);
      } else {
        LinesGrow(s, text);
      }
    }

    /** Spills everything at the first overflow, and each further chunk after it. */
    method Spill(text: Bytes, temp: Temp, appended: bool, ghost s: Bytes, ghost t: Bytes)
      requires t == s + text && Counts(t) && Spilled(s) && !spillErr && (|s| <= MAX_TAIL_BYTES ==> tail == t)
      modifies `fullOutputPath, `fullOutputStarted, `spillErr, `spill
      ensures Spilled(t)
      ensures spillErr <==> !Fits(t, LIMITS) && (!appended || (Fits(s, LIMITS) && temp.CreateFailed?))
      ensures fullOutputPath == PathAfter(old(fullOutputPath), s, t, temp)
    {
      LinesGrow(s, text);
      LinesCounted(t);
      var totalLines := if hasOpenLine then completedLines + 1 else completedLines;
      var overflowing := totalBytes > DEFAULT_MAX_BYTES || totalLines > DEFAULT_MAX_LINES;
      if overflowing && !fullOutputStarted {
        fullOutputStarted := true;
        match temp
        case CreateFailed =>
          spillErr := true;
        case Created(path) =>
          fullOutputPath := path;
          if appended {
            spill := tail;
          } else {
            spillErr := true;
          }
      } else if fullOutputStarted {
        if appended {
          spill := spill + text;
        } else {
          spillErr := true;
        }
      }
    }

    /** The output and its truncation are those of the whole stream. */
    method Snapshot() returns (p: Progress)
      requires Valid()
      ensures p.truncation == TailOf(Utf8(stream), LIMITS)
      ensures p.output == p.truncation.content && p.fullOutputPath == fullOutputPath
    {
      TailOfKept(stream);
      LinesCounted(Utf8(stream));
      var tailTruncation := TruncateTail(tail, Options(0, 0));
      var totalLines := if hasOpenLine then completedLines + 1 else completedLines;
      var truncated := totalLines > DEFAULT_MAX_LINES || totalBytes > DEFAULT_MAX_BYTES;
      var reason :=
        if !truncated then NoLimit
        else if tailTruncation.reason != NoLimit then tailTruncation.reason
        else if totalBytes > DEFAULT_MAX_BYTES then ByteLimit
        else LineLimit;
      var truncation := tailTruncation.(truncated := truncated, totalLines := totalLines, totalBytes := totalBytes,
                                        reason := reason);
      var output := tail;
      if truncated {
        output := truncation.content;
      }
      p := Progress(output, truncation, fullOutputPath);
    }
  }

  // ----- a whole command ----------------------------------------------------

  /** A chunk as it comes in, and how spilling it turns out if it comes to that. */
  datatype Chunk = Chunk(runes: seq<Rune>, temp: Temp, appended: bool)

  datatype ShellCapture =
    | Captured(output: Bytes, truncation: Truncation, fullOutputPath: string, lastLineBytes: nat)
    | ExecFailed
    | SpillFailed

  function Received(chunks: seq<Chunk>): seq<Rune> {
    if chunks == [] then [] else Received(Init(chunks)) + Last(chunks).runes
  }

  /** All that the first i chunks contribute. */
  ghost function Stream(chunks: seq<Chunk>, i: nat): Bytes
    requires i <= |chunks|
  {
    Utf8(Clean(Received(chunks[..i])))
  }

  ghost predicate SpillFails(chunks: seq<Chunk>, i: nat)
    requires i < |chunks|
  {
    !Fits(Stream(chunks, i + 1), LIMITS)
    && (!chunks[i].appended || (Fits(Stream(chunks, i), LIMITS) && chunks[i].temp.CreateFailed?))
  }

  ghost function PathTo(chunks: seq<Chunk>, i: nat): string
    requires i <= |chunks|
  {
    if i == 0 then "" else PathAfter(PathTo(chunks, i - 1), Stream(chunks, i - 1), Stream(chunks, i),
                                     chunks[i - 1].temp)
  }

  lemma {:induction false} PathNext(chunks: seq<Chunk>, i: nat, next: nat)
    requires i < |chunks| && next == i + 1
    ensures PathTo(chunks, next) == PathAfter(PathTo(chunks, i), Stream(chunks, i), Stream(chunks, next),
                                              chunks[i].temp)
  {
  }

  ghost predicate SpillFailsBy(chunks: seq<Chunk>, n: nat)
    requires n <= |chunks|
  {
    exists i :: 0 <= i < n && SpillFails(chunks, i)
  }

  lemma SpillFailsNext(chunks: seq<Chunk>, n: nat)
    requires n < |chunks|
    ensures SpillFailsBy(chunks, n + 1) <==> SpillFailsBy(chunks, n) || SpillFails(chunks, n)
  {
  }

  /** A snapshot of all output so far. */
  ghost predicate Shows(p: Progress, s: Bytes, path: string) {
    p.truncation == TailOf(s, LIMITS) && p.output == p.truncation.content && p.fullOutputPath == path
  }

  /** Progress i is of the first i + 1 chunks. */
  ghost predicate AllShow(progress: seq<Progress>, chunks: seq<Chunk>)
    requires |progress| <= |chunks|
  {
    progress == [] ||
    (AllShow(Init(progress), chunks) && Shows(Last(progress), Stream(chunks, |progress|), PathTo(chunks, |progress|)))
  }

  lemma {:induction false} AllShowPush(progress: seq<Progress>, p: Progress, chunks: seq<Chunk>, n: nat)
    requires n == |progress| + 1 <= |chunks| && AllShow(progress, chunks)
             && Shows(p, Stream(chunks, n), PathTo(chunks, n))
    ensures AllShow(progress + [p], chunks)
  {
    InitPush(progress, p);
  }

  lemma ReceivedNext(chunks: seq<Chunk>, i: nat)
    requires i < |chunks|
    ensures Clean(Received(chunks[..i + 1])) == Clean(Received(chunks[..i])) + Clean(chunks[i].runes)
  {
    SliceTo(chunks, 0, i);
    InitPush(chunks[..i], chunks[i]);
    CleanAppend(Received(chunks[..i]), chunks[i].runes);
  }

  /** All that has been received is legible, cut off or not. */
  lemma StreamLegible(chunks: seq<Chunk>, i: nat)
    requires i <= |chunks|
    ensures Legible(Stream(chunks, i)) && Legible(TailOf(Stream(chunks, i), LIMITS).content)
  {
    CleanOrdinary(Received(chunks[..i]));
    OrdinaryLegible(Clean(Received(chunks[..i])));
    TailLegible(Stream(chunks, i), LIMITS);
  }

  lemma {:induction false} AllShowLegible(progress: seq<Progress>, chunks: seq<Chunk>, i: nat)
    requires |progress| <= |chunks| && AllShow(progress, chunks) && i < |progress|
    ensures Legible(progress[i].output)
  {
    if i < |progress| - 1 {
      AllShowLegible(Init(progress), chunks, i);
    } else {
      StreamLegible(chunks, |progress|);
    }
  }

  /** All characters but those dropped can be read from the stream. */
  lemma {:induction false} StreamReads(chunks: seq<Chunk>)
    ensures ReadUtf8(Stream(chunks, |chunks|)) == WellFormed(Clean(Received(chunks)))
    ensures AllOrdinary(Received(chunks)) ==> Clean(Received(chunks)) == Received(chunks)
  {
    assert chunks[..|chunks|] == chunks;
    ReadBack(Clean(Received(chunks)));
    CleanOrdinary(Received(chunks));
  }

  lemma StreamGrows(chunks: seq<Chunk>, i: nat, next: nat)
    requires i < |chunks| && next == i + 1
    ensures Fits(Stream(chunks, next), LIMITS) ==> Fits(Stream(chunks, i), LIMITS)
  {
    ReceivedNext(chunks, i);
    Utf8Append(Clean(Received(chunks[..i])), Clean(chunks[i].runes));
    LinesGrow(Stream(chunks, i), Utf8(Clean(chunks[i].runes)));
  }

  lemma {:induction false} OverflowStays(chunks: seq<Chunk>, i: nat, n: nat)
    requires i <= n <= |chunks| && Fits(Stream(chunks, n), LIMITS)
    ensures Fits(Stream(chunks, i), LIMITS)
  {
    if i < n {
      var m := n - 1;
      StreamGrows(chunks, m, n);
      OverflowStays(chunks, i, m);
    }
  }

  lemma {:induction false} NoPathBefore(chunks: seq<Chunk>, i: nat)
    requires i <= |chunks| && Fits(Stream(chunks, i), LIMITS)
    ensures PathTo(chunks, i) == ""
  {
    if i > 0 {
      StreamGrows(chunks, i - 1, i);
      NoPathBefore(chunks, i - 1);
    }
  }

  lemma {:induction false} PathKept(chunks: seq<Chunk>, m: nat, n: nat)
    requires m < |chunks| && n == m + 1 && !Fits(Stream(chunks, m), LIMITS)
    ensures PathTo(chunks, n) == PathTo(chunks, m)
  {
    PathNext(chunks, m, n);
  }

  lemma {:induction false} PathCreated(chunks: seq<Chunk>, i: nat, next: nat)
    requires i < |chunks| && next == i + 1 && Fits(Stream(chunks, i), LIMITS) && !Fits(Stream(chunks, next), LIMITS)
    ensures PathTo(chunks, next) == if chunks[i].temp.Created? then chunks[i].temp.path else ""
  {
    PathNext(chunks, i, next);
    NoPathBefore(chunks, i);
  }

  /** The path named at the end is that of the file created when chunk i made the output
      too long. */
  lemma {:induction false} PathOfOverflow(chunks: seq<Chunk>, i: nat, next: nat, n: nat)
    requires next == i + 1 <= n <= |chunks| && Fits(Stream(chunks, i), LIMITS) && !Fits(Stream(chunks, next), LIMITS)
    ensures PathTo(chunks, n) == if chunks[i].temp.Created? then chunks[i].temp.path else ""
  {
    if next == n {
      PathCreated(chunks, i, next);
    } else {
      var m := n - 1;
      PathOfOverflow(chunks, i, next, m);
      if Fits(Stream(chunks, m), LIMITS) {
        OverflowStays(chunks, next, m);
      }
      PathKept(chunks, m, n);
    }
  }

  /** However the output was cut into chunks, every snapshot and the final result
      are the truncated tail of all output so far, and if that is not all of it, the
      file holds all of it. */
  method ExecuteShellWithCapture(chunks: seq<Chunk>, execFails: bool)
    returns (r: ShellCapture, progress: seq<Progress>, file: Bytes)
    ensures |progress| == |chunks| && AllShow(progress, chunks)
    ensures r.ExecFailed? <==> execFails
    ensures r.SpillFailed? <==> !execFails && SpillFailsBy(chunks, |chunks|)
    ensures r.Captured? ==>
              var s := Stream(chunks, |chunks|);
              && r.truncation == TailOf(s, LIMITS) && r.output == r.truncation.content
                && r.lastLineBytes == OpenBytes(s)
              && r.fullOutputPath == PathTo(chunks, |chunks|)
              && (Fits(s, LIMITS) ==> r.output == s && r.fullOutputPath == "")
              && (!Fits(s, LIMITS) ==> file == s)
    ensures r.Captured? ==>
              ReadUtf8(if Fits(Stream(chunks, |chunks|), LIMITS) then r.output else file)
                == WellFormed(Clean(Received(chunks)))
    ensures r.Captured? && AllOrdinary(Received(chunks)) && Fits(Stream(chunks, |chunks|), LIMITS) ==>
              ReadUtf8(r.output) == WellFormed(Received(chunks))
    ensures r.Captured? ==> Legible(r.output)
    ensures forall i :: 0 <= i < |progress| ==> Legible(progress[i].output)
  {
    var state := new ShellCaptureState();
    progress := [];
    for i := 0 to |chunks|
      invariant Fed(state, chunks, i) && fresh(state) && (state.spillErr <==> SpillFailsBy(chunks, i))
      invariant |progress| == i && AllShow(progress, chunks)
    {
      var p := Feed(state, chunks, i);
      SpillFailsNext(chunks, i);
      AllShowPush(progress, p, chunks, i + 1);
      progress := progress + [p];
    }
    file := state.spill;
    StreamReads(chunks);
    StreamLegible(chunks, |chunks|);
    forall i | 0 <= i < |progress| ensures Legible(progress[i].output) {
      AllShowLegible(progress, chunks, i);
    }
    if execFails {
      r := ExecFailed;
    } else if state.spillErr {
      r := SpillFailed;
    } else {
      var p := state.Snapshot();
      r := Captured(p.output, p.truncation, p.fullOutputPath, state.currentLineBytes);
    }
  }

  ghost predicate Fed(state: ShellCaptureState, chunks: seq<Chunk>, i: nat)
    requires i <= |chunks|
    reads state
  {
    state.Valid() && state.stream == Clean(Received(chunks[..i])) && state.fullOutputPath == PathTo(chunks, i)
  }

  method Feed(state: ShellCaptureState, chunks: seq<Chunk>, i: nat) returns (p: Progress)
    requires i < |chunks| && Fed(state, chunks, i)
    modifies state
    ensures Fed(state, chunks, i + 1) && Shows(p, Stream(chunks, i + 1), PathTo(chunks, i + 1))
    ensures state.spillErr <==> old(state.spillErr) || SpillFails(chunks, i)
  {
    ReceivedNext(chunks, i);
    PathNext(chunks, i, i + 1);
    var text := state.ObserveChunk(chunks[i].runes, chunks[i].temp, chunks[i].appended);
    p := state.Snapshot();
  }
}
