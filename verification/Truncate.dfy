/** Cutting a tool's output down to a number of lines and bytes, from either end. */
module Truncate {
  import opened Text

  const DEFAULT_MAX_LINES: int := 2000
  const DEFAULT_MAX_BYTES: int := 51200

  datatype Options = Options(maxLines: int, maxBytes: int)

  datatype Limit = NoLimit | LineLimit | ByteLimit

  datatype Truncation = Truncation(content: Bytes, truncated: bool, reason: Limit, totalLines: nat, totalBytes: nat,
                                   outputLines: nat, outputBytes: nat, lastLinePartial: bool,
                                     firstLineExceedsLimit: bool,
                                   maxLines: int, maxBytes: int)

  /** Zero selects the default. */
  function ResolveLimits(opts: Options): (o: Options)
    ensures o.maxLines != 0 && o.maxBytes != 0
    ensures (opts.maxLines != 0 ==> o.maxLines == opts.maxLines) && (opts.maxBytes != 0 ==> o.maxBytes == opts.maxBytes)
  {
    Options(if opts.maxLines == 0 then DEFAULT_MAX_LINES else opts.maxLines,
            if opts.maxBytes == 0 then DEFAULT_MAX_BYTES else opts.maxBytes)
  }

  /** The lines of a text without their newlines: a final newline opens no line. */
  function SplitLinesForCounting(content: Bytes): (lines: seq<Bytes>)
    ensures lines == ChompAll(Lines(content))
  {
    SplitIsLines(content);
    if content == [] then assert ChompAll([]) == []; []
    else if Terminated(content) then InitPush(ChompAll(Lines(content)), []); Init(Split(content))
    else Nil(ChompAll(Lines(content))); Split(content)
  }

  // ----- how much is kept ---------------------------------------------------

  /** Bytes of the first k lines joined by newlines. */
  function HeadSize(lines: seq<Bytes>, k: nat): nat
    requires k <= |lines|
  {
    if k == 0 then 0 else HeadSize(lines, k - 1) + |lines[k - 1]| + if k > 1 then 1 else 0
  }

  /** Bytes of the last k lines joined by newlines. */
  function TailSize(lines: seq<Bytes>, k: nat): nat
    requires k <= |lines|
  {
    if k == 0 then 0 else TailSize(lines, k - 1) + |lines[|lines| - k]| + if k > 1 then 1 else 0
  }

  lemma {:induction false} HeadSizeIsJoin(lines: seq<Bytes>, k: nat)
    requires k <= |lines|
    ensures |Join(lines[..k])| == HeadSize(lines, k)
  {
    if k > 0 {
      HeadSizeIsJoin(lines, k - 1);
      SliceTo(lines, 0, k - 1);
      if k == 1 {
        assert lines[..1] == [lines[0]];
      } else {
        JoinPush(lines[..k - 1], lines[k - 1]);
      }
    }
  }

  lemma {:induction false} TailSizeIsJoin(lines: seq<Bytes>, k: nat)
    requires k <= |lines|
    ensures |Join(lines[|lines| - k..])| == TailSize(lines, k)
  {
    if k > 0 {
      TailSizeIsJoin(lines, k - 1);
      var i := |lines| - k;
      assert lines[i..] == [lines[i]] + lines[i + 1..];
      if k == 1 {
        assert lines[i..] == [lines[i]];
      } else {
        JoinAppend([lines[i]], lines[i + 1..]);
      }
    }
  }

  predicate HeadFits(lines: seq<Bytes>, o: Options, k: nat)
    requires k <= |lines|
  {
    k <= o.maxLines && HeadSize(lines, k) <= o.maxBytes
  }

  predicate TailFits(lines: seq<Bytes>, o: Options, k: nat)
    requires k <= |lines|
  {
    k <= o.maxLines && TailSize(lines, k) <= o.maxBytes
  }

  /** The most lines, up to n, that fit from the front ... */
  function HeadKept(lines: seq<Bytes>, o: Options, n: nat): (k: nat)
    requires n <= |lines|
    ensures k <= n && (k == 0 || HeadFits(lines, o, k)) && forall j :: k < j <= n ==> !HeadFits(lines, o, j)
  {
    if n == 0 || HeadFits(lines, o, n) then n else HeadKept(lines, o, n - 1)
  }

  /** ... and from the end. */
  function TailKept(lines: seq<Bytes>, o: Options, n: nat): (k: nat)
    requires n <= |lines|
    ensures k <= n && (k == 0 || TailFits(lines, o, k)) && forall j :: k < j <= n ==> !TailFits(lines, o, j)
  {
    if n == 0 || TailFits(lines, o, n) then n else TailKept(lines, o, n - 1)
  }

  /** Fewer lines fit as well, so the first that does not fit decides. */
  lemma {:induction false} HeadKeptIs(lines: seq<Bytes>, o: Options, k: nat, n: nat)
    requires k <= n <= |lines| && (k == 0 || HeadFits(lines, o, k)) && (k < n ==> !HeadFits(lines, o, k + 1))
    ensures HeadKept(lines, o, n) == k
  {
    if k < n {
      HeadGrows(lines, k + 1, n);
      HeadKeptIs(lines, o, k, n - 1);
    }
  }

  lemma {:induction false} TailKeptIs(lines: seq<Bytes>, o: Options, k: nat, n: nat)
    requires k <= n <= |lines| && (k == 0 || TailFits(lines, o, k)) && (k < n ==> !TailFits(lines, o, k + 1))
    ensures TailKept(lines, o, n) == k
  {
    if k < n {
      TailGrows(lines, k + 1, n);
      TailKeptIs(lines, o, k, n - 1);
    }
  }

  lemma {:induction false} HeadGrows(lines: seq<Bytes>, i: nat, j: nat)
    requires i <= j <= |lines|
    ensures HeadSize(lines, i) <= HeadSize(lines, j)
  {
    if i < j {
      HeadGrows(lines, i, j - 1);
    }
  }

  lemma {:induction false} TailGrows(lines: seq<Bytes>, i: nat, j: nat)
    requires i <= j <= |lines|
    ensures TailSize(lines, i) <= TailSize(lines, j)
  {
    if i < j {
      TailGrows(lines, i, j - 1);
    }
  }

  // ----- a suffix on a character boundary -----------------------------------

  /** Bytes that continue a UTF-8 sequence. */
  predicate Cont(b: byte) {
    0x80 <= b < 0xC0
  }

  /** The first place from i on that does not continue a sequence. */
  function SkipCont(s: Bytes, i: nat): (p: nat)
    requires i <= |s|
    ensures i <= p <= |s| && (forall j :: i <= j < p ==> Cont(s[j])) && (p < |s| ==> !Cont(s[p]))
    decreases |s| - i
  {
    if i < |s| && Cont(s[i]) then SkipCont(s, i + 1) else i
  }

  ghost function FromEnd(s: Bytes, maxBytes: int): Bytes {
    if maxBytes <= 0 then [] else if |s| <= maxBytes then s else s[SkipCont(s, |s| - maxBytes)..]
  }

  /** The longest suffix of a text too long that fits and does not begin inside a
      character. */
  lemma FromEndIsLongest(s: Bytes, maxBytes: int, r: Bytes)
    requires 0 < maxBytes < |s| && |r| <= maxBytes && s[|s| - |r|..] == r && (r == [] || !Cont(r[0]))
    ensures var e := FromEnd(s, maxBytes);
            |e| <= maxBytes && s[|s| - |e|..] == e && (e == [] || !Cont(e[0])) && |r| <= |e|
  {
    var p := SkipCont(s, |s| - maxBytes);
    if r != [] {
      assert s[|s| - |r|] == r[0];
    }
  }

  method TruncateStringToBytesFromEnd(s: Bytes, maxBytes: int) returns (r: Bytes)
    ensures r == FromEnd(s, maxBytes)
  {
    if maxBytes <= 0 {
      return [];
    }
    if |s| <= maxBytes {
      return s;
    }
    var start := |s| - maxBytes;
    while start < |s| && Cont(s[start])
      invariant |s| - maxBytes <= start <= |s|
      invariant SkipCont(s, |s| - maxBytes) == SkipCont(s, start)
    {
      start := start + 1;
    }
    return s[start..];
  }

  // ----- what truncation yields ---------------------------------------------

  ghost function Whole(content: Bytes, o: Options): Truncation {
    var n := |Lines(content)|;
    Truncation(content, false, NoLimit, n, |content|, n, |content|, false, false, o.maxLines, o.maxBytes)
  }

  predicate Fits(content: Bytes, o: Options) {
    |Lines(content)| <= o.maxLines && |content| <= o.maxBytes
  }

  /** The head of a text: all of it, or as many leading whole lines as fit, or
      nothing but a mark that not even one line does. */
  ghost function HeadOf(content: Bytes, o: Options): Truncation {
    var lines := ChompAll(Lines(content));
    if Fits(content, o) then Whole(content, o)
    else if lines == [] || |lines[0]| > o.maxBytes then
      Truncation([], true, ByteLimit, |lines|, |content|, 0, 0, false, true, o.maxLines, o.maxBytes)
    else
      var k := HeadKept(lines, o, |lines|);
      Truncation(Join(lines[..k]), true, if k < |lines| && k < o.maxLines then ByteLimit else LineLimit,
                 |lines|, |content|, k, |Join(lines[..k])|, false, false, o.maxLines, o.maxBytes)
  }

  /** The tail of a text: all of it, or as many trailing whole lines as fit, or if
      that is none, the end of the last line. */
  ghost function TailOf(content: Bytes, o: Options): Truncation {
    if Fits(content, o) then Whole(content, o)
    else TailOfLines(ChompAll(Lines(content)), |content|, o)
  }

  ghost function TailOfLines(lines: seq<Bytes>, totalBytes: nat, o: Options): Truncation {
    var k := TailKept(lines, o, |lines|);
    var full := k < |lines| && k < o.maxLines;
    var partial := full && k == 0;
    var out := if partial then FromEnd(Last(lines), o.maxBytes) else Join(lines[|lines| - k..]);
    var n := if partial then 1 else k;
    var reason := if full && !(n >= o.maxLines && |out| <= o.maxBytes) then ByteLimit else LineLimit;
    Truncation(out, true, reason, |lines|, totalBytes, n, |out|, partial, false, o.maxLines, o.maxBytes)
  }

  /** Lines from i on are all that fit: with one more in front, they would be too many or
      too long. */
  ghost predicate FitsFrom(lines: seq<Bytes>, i: nat, o: Options) {
    && i <= |lines| && |lines| - i <= o.maxLines && |Join(lines[i..])| <= o.maxBytes
    && (i > 0 ==> |lines| - i == o.maxLines || |Join(lines[i - 1..])| > o.maxBytes)
  }

  /** The tail of a text that is too long, told of its joined lines: the most whole lines
      at its end, or if not even the last fits, the end of that line. */
  lemma {:induction false} TailIsLongest(content: Bytes, o: Options)
    requires !Fits(content, o) && o.maxLines > 0 && o.maxBytes > 0
    ensures var t, lines := TailOf(content, o), ChompAll(Lines(content));
            && t.truncated && t.outputBytes == |t.content| && t.totalLines == |lines| && t.totalBytes == |content|
            && t.lastLinePartial == (lines != [] && |Last(lines)| > o.maxBytes)
            && (t.outputLines == o.maxLines ==> t.reason == LineLimit)
            && if t.lastLinePartial then t.content == FromEnd(Last(lines), o.maxBytes) && t.outputLines == 1
               else t.outputLines <= |lines| && FitsFrom(lines, |lines| - t.outputLines, o)
                    && t.content == Join(lines[|lines| - t.outputLines..])
  {
    var lines := ChompAll(Lines(content));
    var k := TailKept(lines, o, |lines|);
    JoinedLength(content, lines);
    LastLineSize(lines);
    KeptFromEnd(lines, o, k, |lines| - k);
    if k > 0 {
      TailGrows(lines, 1, k);
    } else {
      assert !TailFits(lines, o, 1);
    }
  }

  lemma {:induction false} KeptFromEnd(lines: seq<Bytes>, o: Options, k: nat, i: nat)
    requires o.maxLines > 0 && o.maxBytes > 0 && k == TailKept(lines, o, |lines|) && i == |lines| - k
    ensures FitsFrom(lines, i, o)
  {
    TailSizeIsJoin(lines, k);
    if k < |lines| {
      assert !TailFits(lines, o, k + 1);
      TailSizeIsJoin(lines, k + 1);
    }
  }

  lemma {:induction false} KeptFromFront(lines: seq<Bytes>, o: Options, k: nat)
    requires o.maxLines > 0 && o.maxBytes > 0 && k == HeadKept(lines, o, |lines|)
    ensures FitsTo(lines, k, o)
  {
    HeadSizeIsJoin(lines, k);
    if k < |lines| {
      assert !HeadFits(lines, o, k + 1);
      HeadSizeIsJoin(lines, k + 1);
    }
  }

  lemma {:induction false} LastLineSize(lines: seq<Bytes>)
    requires lines != []
    ensures TailSize(lines, 1) == |Last(lines)|
  {
    assert TailSize(lines, 0) == 0;
  }

  /** The first k lines are all that fit. */
  ghost predicate FitsTo(lines: seq<Bytes>, k: nat, o: Options) {
    && k <= |lines| && k <= o.maxLines && |Join(lines[..k])| <= o.maxBytes
    && (k < |lines| ==> k == o.maxLines || |Join(lines[..k + 1])| > o.maxBytes)
  }

  /** The head likewise, but of a first line too long nothing is kept. */
  lemma {:induction false} HeadIsLongest(content: Bytes, o: Options)
    requires !Fits(content, o) && o.maxLines > 0 && o.maxBytes > 0
    ensures var t, lines := HeadOf(content, o), ChompAll(Lines(content));
            && t.truncated && t.outputBytes == |t.content| && t.totalLines == |lines| && t.totalBytes == |content|
            && t.firstLineExceedsLimit == (lines == [] || |lines[0]| > o.maxBytes)
            && if t.firstLineExceedsLimit then t.content == [] && t.outputLines == 0
               else FitsTo(lines, t.outputLines, o) && t.content == Join(lines[..t.outputLines])
                    && (t.outputLines == o.maxLines ==> t.reason == LineLimit)
  {
    var lines := ChompAll(Lines(content));
    KeptFromFront(lines, o, HeadKept(lines, o, |lines|));
  }

  /** A text is its lines joined, and a newline more if it ends in one. */
  lemma {:induction false} JoinedLength(content: Bytes, lines: seq<Bytes>)
    requires lines == ChompAll(Lines(content))
    ensures |content| == |Join(lines)| + (if Terminated(content) then 1 else 0) && (lines == [] <==> content == [])
  {
    SplitIsLines(content);
    SplitSound(content);
    LinesSound(content);
    if content == [] {
      assert lines == [];
    } else if Terminated(content) {
      JoinPush(lines, []);
      Nil(Join(lines) + [NL]);
    } else {
      Nil(lines);
    }
  }

  /** The text is only too long by its final newline. */
  ghost predicate TooLongByNewline(content: Bytes, o: Options) {
    Terminated(content) && |content| == o.maxBytes + 1 && |Lines(content)| < o.maxLines
  }

  /** Fewer lines are shown than the line limit allows, and yet it is named. */
  ghost predicate BlamesLines(t: Truncation, o: Options) {
    t.truncated && t.reason == LineLimit && t.outputLines < o.maxLines
  }

  lemma {:induction false} AllHeadFits(content: Bytes, lines: seq<Bytes>, o: Options, k: nat)
    requires lines == ChompAll(Lines(content)) && lines != [] && !Fits(content, o) && |lines| < o.maxLines
    requires k == HeadKept(lines, o, |lines|)
    ensures k == |lines| <==> TooLongByNewline(content, o)
  {
    JoinedLength(content, lines);
    HeadSizeIsJoin(lines, |lines|);
    assert lines[..|lines|] == lines;
  }

  /** The line limit is named without being reached exactly if the text is too long by
      its final newline only. */
  lemma HeadBlames(content: Bytes, o: Options)
    ensures BlamesLines(HeadOf(content, o), o) <==> TooLongByNewline(content, o)
  {
    var lines := ChompAll(Lines(content));
    JoinedLength(content, lines);
    if !Fits(content, o) && lines != [] {
      if |lines| < o.maxLines {
        AllHeadFits(content, lines, o, HeadKept(lines, o, |lines|));
      }
      FirstWithin(lines);
    }
  }

  lemma {:induction false} FirstWithin(lines: seq<Bytes>)
    requires lines != []
    ensures |lines[0]| <= |Join(lines)|
  {
    if |lines| > 1 {
      FirstWithin(Init(lines));
    }
  }

  lemma {:induction false} AllTailFits(content: Bytes, lines: seq<Bytes>, o: Options, k: nat)
    requires lines == ChompAll(Lines(content)) && lines != [] && !Fits(content, o) && |lines| < o.maxLines
    requires k == TailKept(lines, o, |lines|)
    ensures k == |lines| <==> TooLongByNewline(content, o)
  {
    JoinedLength(content, lines);
    TailSizeIsJoin(lines, |lines|);
    assert lines[|lines| - |lines|..] == lines;
  }

  /** From the end likewise, and also for no text at all if the byte limit is negative. */
  lemma TailBlames(content: Bytes, o: Options)
    ensures BlamesLines(TailOf(content, o), o) <==>
              TooLongByNewline(content, o) || (content == [] && o.maxBytes < 0 < o.maxLines)
  {
    var lines := ChompAll(Lines(content));
    JoinedLength(content, lines);
    if !Fits(content, o) && lines != [] && |lines| < o.maxLines {
      AllTailFits(content, lines, o, TailKept(lines, o, |lines|));
    }
  }

  /** One line and its newline, against a limit of one byte and two lines. */
  lemma BlamesAtOneByte()
    ensures BlamesLines(HeadOf([65, NL], Options(2, 1)), Options(2, 1))
    ensures BlamesLines(TailOf([65, NL], Options(2, 1)), Options(2, 1))
  {
    assert Lines([]) == [] && Lines([65]) == [[65]] by {
      InitPush<byte>([], 65);
    }
    assert [65, NL] == [65] + [NL];
    LinesPush([65], NL);
    HeadBlames([65, NL], Options(2, 1));
    TailBlames([65, NL], Options(2, 1));
  }

  /** Whole lines from the front as long as they fit. */
  method CollectHead(lines: seq<Bytes>, o: Options) returns (kept: seq<Bytes>, count: nat, reason: Limit)
    ensures kept == lines[..HeadKept(lines, o, |lines|)] && count == HeadSize(lines, |kept|)
    ensures reason == if |kept| < |lines| && |kept| < o.maxLines then ByteLimit else LineLimit
  {
    kept, count, reason := [], 0, LineLimit;
    var i := 0;
    while i < |lines| && i < o.maxLines
      invariant i <= |lines| && kept == lines[..i] && count == HeadSize(lines, i) && reason == LineLimit
      invariant i == 0 || HeadFits(lines, o, i)
    {
      var lineBytes := if i > 0 then |lines[i]| + 1 else |lines[i]|;
      if count + lineBytes > o.maxBytes {
        reason := ByteLimit;
        break;
      }
      SliceTo(lines, 0, i);
      kept := kept + [lines[i]];
      count := count + lineBytes;
      i := i + 1;
    }
    HeadKeptIs(lines, o, i, |lines|);
  }

  /** Indexing the first line of an empty text is an error, which only a negative
      limit brings about. */
  method TruncateHead(content: Bytes, opts: Options) returns (t: Truncation)
    requires content != [] || (opts.maxLines >= 0 && opts.maxBytes >= 0)
    ensures t == HeadOf(content, ResolveLimits(opts))
  {
    var o := ResolveLimits(opts);
    var totalBytes := |content|;
    var lines := SplitLinesForCounting(content);
    var totalLines := |lines|;
    if totalLines <= o.maxLines && totalBytes <= o.maxBytes {
      return Truncation(content, false, NoLimit, totalLines, totalBytes, totalLines, totalBytes, false, false,
                        o.maxLines, o.maxBytes);
    }
    LinesSound(content);
    if |lines[0]| > o.maxBytes {
      return Truncation([], true, ByteLimit, totalLines, totalBytes, 0, 0, false, true, o.maxLines, o.maxBytes);
    }
    var kept, count, reason := CollectHead(lines, o);
    if |kept| >= o.maxLines && count <= o.maxBytes {
      reason := LineLimit;
    }
    var out := Join(kept);
    t := Truncation(out, true, reason, totalLines, totalBytes, |kept|, |out|, false, false, o.maxLines, o.maxBytes);
  }

  /** r holds the last lines, last first. */
  ghost predicate LastFirst<T>(r: seq<T>, lines: seq<T>) {
    |r| <= |lines| && forall j :: 0 <= j < |r| ==> r[j] == lines[|lines| - 1 - j]
  }

  method Backwards<T>(r: seq<T>, ghost lines: seq<T>) returns (kept: seq<T>)
    requires LastFirst(r, lines)
    ensures kept == lines[|lines| - |r|..]
  {
    kept := seq(|r|, j requires 0 <= j < |r| => r[|r| - 1 - j]);
  }

  /** Whole lines from the end as long as they fit. */
  method CollectTail(lines: seq<Bytes>, o: Options) returns (reversed: seq<Bytes>, count: nat, reason: Limit)
    ensures LastFirst(reversed, lines) && |reversed| == TailKept(lines, o, |lines|)
    ensures count == TailSize(lines, |reversed|)
    ensures reason == if |reversed| < |lines| && |reversed| < o.maxLines then ByteLimit else LineLimit
  {
    reversed, count, reason := [], 0, LineLimit;
    var i := |lines| - 1;
    while i >= 0 && |reversed| < o.maxLines
      invariant -1 <= i < |lines| && |reversed| == |lines| - 1 - i && LastFirst(reversed, lines)
      invariant count == TailSize(lines, |reversed|) && reason == LineLimit
      invariant |reversed| == 0 || TailFits(lines, o, |reversed|)
    {
      var line := lines[i];
      var lineBytes := if |reversed| > 0 then |line| + 1 else |line|;
      if count + lineBytes > o.maxBytes {
        reason := ByteLimit;
        break;
      }
      reversed := reversed + [line];
      count := count + lineBytes;
      i := i - 1;
    }
    TailKeptIs(lines, o, |reversed|, |lines|);
  }

  method TruncateTail(content: Bytes, opts: Options) returns (t: Truncation)
    ensures t == TailOf(content, ResolveLimits(opts))
  {
    var o := ResolveLimits(opts);
    var totalBytes := |content|;
    var lines := SplitLinesForCounting(content);
    var totalLines := |lines|;
    if totalLines <= o.maxLines && totalBytes <= o.maxBytes {
      return Truncation(content, false, NoLimit, totalLines, totalBytes, totalLines, totalBytes, false, false,
                        o.maxLines, o.maxBytes);
    }
    t := TruncateTailLines(lines, totalBytes, o);
  }

  method TruncateTailLines(lines: seq<Bytes>, totalBytes: nat, o: Options) returns (t: Truncation)
    ensures t == TailOfLines(lines, totalBytes, o)
  {
    var reversed, count, reason := CollectTail(lines, o);
    TailSizeIsJoin(lines, |reversed|);
    var kept := Backwards(reversed, lines);
    var partial := reason == ByteLimit && |reversed| == 0;
    if partial {
      var end := TruncateStringToBytesFromEnd(lines[|lines| - 1], o.maxBytes);
      kept, count := [end], |end|;
    }
    if |kept| >= o.maxLines && count <= o.maxBytes {
      reason := LineLimit;
    }
    var out := Join(kept);
    t := Truncation(out, true, reason, |lines|, totalBytes, |kept|, |out|, partial, false, o.maxLines, o.maxBytes);
  }
}
