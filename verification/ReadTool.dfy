/** Reading a text file window by window, and reading all of it by following the
    offsets each window names. */
module ReadTool {
  import opened Text
  import opened Wrappers
  import opened Truncate
  import opened Numbers

  /** A window of a file; `next` is the offset to continue with. */
  datatype ReadResult =
    | BeyondEnd(offset: int, total: nat)
    | LineTooLong(line: int)
    | Page(content: Bytes, cut: Limit, next: Option<int>)

  /** Offsets count lines from 1; no offset and a negative one mean the first. */
  function StartLine(offset: int): (start: nat)
    ensures offset >= 1 ==> start + 1 == offset
    ensures offset < 1 ==> start == 0
  {
    if offset > 0 then offset - 1 else 0
  }

  /** Where the window ends that the caller asks for. */
  function EndLine(start: nat, limit: Option<int>, total: nat): (end: nat)
    requires start <= total
    ensures start <= end <= total && (end < total ==> limit.Some? && end - start == Max(0, limit.value))
    ensures limit.Some? ==> end - start <= Max(0, limit.value)
  {
    if limit.None? || start + limit.value > total then total
    else if limit.value < 0 then start else start + limit.value
  }

  /** The first k fields fit, and no longer part does. */
  ghost predicate Longest(fs: seq<Bytes>, k: nat) {
    && k <= |fs| && |Join(fs[..k])| <= DEFAULT_MAX_BYTES
    && (k < |fs| ==> k >= DEFAULT_MAX_LINES || |Join(fs[..k + 1])| > DEFAULT_MAX_BYTES)
  }

  /** Counted lines are the fields of a text without an empty last one. */
  lemma {:induction false} CountedFields(fs: seq<Bytes>)
    requires Fields(fs)
    ensures var lines := ChompAll(Lines(Join(fs)));
            lines == fs || (fs == lines + [[]] && |Join(fs)| == if lines == [] then 0 else |Join(lines)| + 1)
  {
    var lines := ChompAll(Lines(Join(fs)));
    SplitJoin(fs);
    SplitIsLines(Join(fs));
    Nil(lines);
    if fs == lines + [[]] {
      if lines == [] {
        assert fs == [[]];
      } else {
        JoinPush(lines, []);
      }
    }
  }

  lemma HeadIsPart(fs: seq<Bytes>, lines: seq<Bytes>, k: nat)
    requires (lines == fs || fs == lines + [[]]) && k <= |lines|
    ensures lines[..k] == fs[..k]
  {
  }

  lemma {:induction false} JoinBounds(fs: seq<Bytes>, i: nat)
    requires i < |fs|
    ensures |fs[i]| <= |Join(fs)|
  {
    if 1 < |fs| && i < |fs| - 1 {
      JoinBounds(Init(fs), i);
    }
  }

  lemma {:induction false} HeadIsLongest(fs: seq<Bytes>, lines: seq<Bytes>, k: nat, o: Options)
    requires o == Options(DEFAULT_MAX_LINES, DEFAULT_MAX_BYTES) && k <= |lines| && k < |fs|
    requires lines == fs || fs == lines + [[]]
    requires HeadFits(lines, o, k)
             && (if k < |lines| then !HeadFits(lines, o, k + 1) else |Join(fs)| > DEFAULT_MAX_BYTES)
    ensures Longest(fs, k) && Join(lines[..k]) == Join(fs[..k])
  {
    HeadSizeIsJoin(lines, k);
    HeadIsPart(fs, lines, k);
    if k < |lines| {
      HeadSizeIsJoin(lines, k + 1);
      HeadIsPart(fs, lines, k + 1);
    } else {
      assert fs[..k + 1] == fs;
    }
  }

  /** Truncating the text of some lines shows the longest part of them that fits,
      unless already the first is too long. */
  lemma {:induction false} WindowShown(fs: seq<Bytes>, t: Truncation, o: Options)
    requires Fields(fs) && o == Options(DEFAULT_MAX_LINES, DEFAULT_MAX_BYTES) && t == HeadOf(Join(fs), o)
    ensures t.firstLineExceedsLimit <==> |fs[0]| > DEFAULT_MAX_BYTES
    ensures !t.truncated ==> t.content == Join(fs) && |Join(fs)| <= DEFAULT_MAX_BYTES
    ensures t.truncated && !t.firstLineExceedsLimit ==>
              0 < t.outputLines < |fs| && t.content == Join(fs[..t.outputLines]) && Longest(fs, t.outputLines)
  {
    JoinBounds(fs, 0);
    if !Fits(Join(fs), o) {
      var lines := ChompAll(Lines(Join(fs)));
      CountedFields(fs);
      assert lines != [] && lines[0] == fs[0];
      if |fs[0]| <= DEFAULT_MAX_BYTES {
        assert HeadSize(lines, 1) == |lines[0]|;
        assert HeadFits(lines, o, 1);
        var k := HeadKept(lines, o, |lines|);
        if k == |lines| {
          HeadSizeIsJoin(lines, k);
          assert lines[..k] == lines;
        }
        HeadIsLongest(fs, lines, k, o);
      }
    }
  }

  /** What limit, if any, cuts the text of some lines. */
  ghost function CutOf(window: seq<Bytes>): Limit {
    HeadOf(Join(window), Options(DEFAULT_MAX_LINES, DEFAULT_MAX_BYTES)).reason
  }

  method TruncateWindow(window: seq<Bytes>) returns (t: Truncation)
    requires window == [] || Fields(window)
    ensures t.firstLineExceedsLimit <==> window != [] && |window[0]| > DEFAULT_MAX_BYTES
    ensures !t.truncated ==> t.content == Join(window) && |Join(window)| <= DEFAULT_MAX_BYTES
    ensures t.truncated && !t.firstLineExceedsLimit ==>
              0 < t.outputLines < |window| && t.content == Join(window[..t.outputLines])
                && Longest(window, t.outputLines)
    ensures t.firstLineExceedsLimit ==> t.truncated
    ensures t.reason == CutOf(window) && (t.truncated <==> t.reason != NoLimit)
  {
    t := TruncateHead(Join(window), Options(0, 0));
    if window == [] {
      assert Lines([]) == [];
    } else {
      WindowShown(window, t, Options(DEFAULT_MAX_LINES, DEFAULT_MAX_BYTES));
    }
  }

  /** The lines between the start of a window and where it tells to go on. */
  ghost function Shown(r: ReadResult, start: nat, total: nat): int {
    if r.Page? && r.next.Some? then r.next.value - 1 - start else total - start
  }

  /** What is shown of a window: its longest part that fits, and where to go on
      unless that reaches the end of the file. */
  ghost predicate ShowsWindow(r: ReadResult, window: seq<Bytes>, start: nat, total: nat, shown: int) {
    if window != [] && |window[0]| > DEFAULT_MAX_BYTES then r == LineTooLong(start + 1)
    else
      && r.Page? && shown >= 0 && Longest(window, shown) && r.content == Join(window[..shown])
        && (window != [] ==> shown > 0)
      && r.next == (if start + shown < total then Some(start + shown + 1) else None)
      && r.cut == CutOf(window) && (r.cut == NoLimit ==> shown == |window|)
  }

  ghost predicate Answers(r: ReadResult, lines: seq<Bytes>, offset: int, limit: Option<int>) {
    var start := StartLine(offset);
    if start >= |lines| then r == BeyondEnd(offset, |lines|)
    else ShowsWindow(r, lines[start..EndLine(start, limit, |lines|)], start, |lines|, Shown(r, start, |lines|))
  }

  lemma {:induction false} PartOf<T>(s: seq<T>, n: nat, end: nat, k: nat, m: nat)
    requires n <= end <= |s| && k <= end - n && m == n + k
    ensures s[n..end][..k] == s[n..m] == Span(s, n, m)
  {
    SpanIsSlice(s, n, m);
  }

  /** A limit of n shows up to n lines: exactly n, unless the file ends before or the page
      is cut. */
  lemma LimitHolds(r: ReadResult, lines: seq<Bytes>, offset: int, limit: Option<int>) returns (shown: nat)
    requires Answers(r, lines, offset, limit) && r.Page?
    ensures StartLine(offset) + shown <= |lines|
    ensures r.content == Join(lines[StartLine(offset)..StartLine(offset) + shown])
    ensures limit.Some? ==> shown <= Max(0, limit.value)
    ensures r.cut == NoLimit ==>
              shown == |lines| - StartLine(offset) || (limit.Some? && shown == Max(0, limit.value))
  {
    var start := StartLine(offset);
    var end := EndLine(start, limit, |lines|);
    shown := Shown(r, start, |lines|);
    PartOf(lines, start, end, shown, start + shown);
  }

  lemma FieldsPart(fs: seq<Bytes>, i: nat, j: nat)
    requires Fields(fs) && i <= j <= |fs|
    ensures i < j ==> Fields(fs[i..j])
    ensures i == j ==> fs[i..j] == []
  {
  }

  method ReadTextToolResult(data: Bytes, offset: int, limit: Option<int>) returns (r: ReadResult)
    ensures Answers(r, Split(data), offset, limit)
  {
    var lines := Split(data);
    SplitSound(data);
    var start := StartLine(offset);
    if start >= |lines| {
      return BeyondEnd(offset, |lines|);
    }
    var end := EndLine(start, limit, |lines|);
    FieldsPart(lines, start, end);
    r := ShowWindow(lines[start..end], start, |lines|);
  }

  method ShowWindow(window: seq<Bytes>, start: nat, total: nat) returns (r: ReadResult)
    requires (window == [] || Fields(window)) && start + |window| <= total
    ensures ShowsWindow(r, window, start, total, Shown(r, start, total))
  {
    var t := TruncateWindow(window);
    assert window[..|window|] == window;
    if t.firstLineExceedsLimit {
      r := LineTooLong(start + 1);
    } else if t.truncated {
      r := Page(t.content, t.reason, Some(start + 1 + t.outputLines));
    } else if start + |window| < total {
      r := Page(t.content, NoLimit, Some(start + |window| + 1));
    } else {
      r := Page(t.content, NoLimit, None);
    }
  }

  /** The pages are the lines before the offset, none of which is too long. */
  ghost predicate Covers(pages: seq<Bytes>, lines: seq<Bytes>, offset: int) {
    && 1 <= offset <= |lines| + 1 && Join(pages) == Join(Span(lines, 0, offset - 1)) && (pages == [] <==> offset == 1)
    && NoneTooLong(lines, offset - 1)
  }

  /** Of the first n lines none is too long. */
  ghost predicate NoneTooLong(lines: seq<Bytes>, n: nat)
    requires n <= |lines|
  {
    forall j :: 0 <= j < n ==> |lines[j]| <= DEFAULT_MAX_BYTES
  }

  /** The line at the offset is too long, or there is one page more, which ends the
      file or names a later offset. */
  ghost predicate Continues(r: ReadResult, pages: seq<Bytes>, lines: seq<Bytes>, offset: int) {
    match r
    case BeyondEnd(_, _) => false
    case LineTooLong(line) => line == offset && 1 <= offset <= |lines| && |lines[offset - 1]| > DEFAULT_MAX_BYTES
    case Page(content, _, None) => Covers(pages + [content], lines, |lines| + 1)
    case Page(content, _, Some(next)) => offset < next <= |lines| && Covers(pages + [content], lines, next)
  }

  lemma {:induction false} JoinPages(pages: seq<Bytes>, front: seq<Bytes>, part: seq<Bytes>)
    requires Join(pages) == Join(front) && (pages == [] <==> front == []) && part != []
    ensures Join(pages + [Join(part)]) == Join(front + part)
  {
    if pages == [] {
      assert [] + [Join(part)] == [Join(part)];
      Nil(part);
    } else {
      JoinPush(pages, Join(part));
      JoinAppend(front, part);
    }
  }

  lemma {:induction false} PageJoins(pages: seq<Bytes>, lines: seq<Bytes>, n: nat, m: nat, part: seq<Bytes>)
    requires n < m <= |lines| && part == Span(lines, n, m)
    requires Join(pages) == Join(Span(lines, 0, n)) && (pages == [] <==> n == 0)
    ensures Join(pages + [Join(part)]) == Join(Span(lines, 0, m))
  {
    SpanSplit(lines, 0, n, m);
    JoinPages(pages, Span(lines, 0, n), part);
  }

  lemma {:induction false} NoneInPartTooLong(lines: seq<Bytes>, n: nat, m: nat, part: seq<Bytes>)
    requires n <= m <= |lines| && part == lines[n..m] && NoneTooLong(lines, n) && |Join(part)| <= DEFAULT_MAX_BYTES
    ensures NoneTooLong(lines, m)
  {
    forall j | n <= j < m ensures |lines[j]| <= DEFAULT_MAX_BYTES {
      JoinBounds(part, j - n);
      assert part[j - n] == lines[j];
    }
  }

  lemma {:induction false} PagePushed(pages: seq<Bytes>, lines: seq<Bytes>, n: nat, end: nat, k: nat, m: nat,
                                      part: seq<Bytes>)
    requires n <= end <= |lines| && 0 < k <= end - n && m == n + k
    requires Join(pages) == Join(Span(lines, 0, n)) && (pages == [] <==> n == 0) && NoneTooLong(lines, n)
    requires part == lines[n..end][..k] && |Join(part)| <= DEFAULT_MAX_BYTES
    ensures Join(pages + [Join(part)]) == Join(Span(lines, 0, m)) && NoneTooLong(lines, m)
  {
    PartOf(lines, n, end, k, m);
    PageJoins(pages, lines, n, m, part);
    NoneInPartTooLong(lines, n, m, part);
  }

  lemma {:induction false} PageCovers(pages: seq<Bytes>, lines: seq<Bytes>, offset: int, n: nat, end: nat, k: nat,
                                      next: int)
    requires Covers(pages, lines, offset) && n == offset - 1 && n <= end <= |lines|
    requires 0 < k && Longest(lines[n..end], k) && next == offset + k
    ensures Covers(pages + [Join(lines[n..end][..k])], lines, next)
  {
    PagePushed(pages, lines, n, end, k, next - 1, lines[n..end][..k]);
  }

  lemma {:induction false} PageContinues(r: ReadResult, pages: seq<Bytes>, lines: seq<Bytes>, offset: int, n: nat,
                                         end: nat, k: nat)
    requires Covers(pages, lines, offset) && n == offset - 1 && n <= end <= |lines|
    requires 0 < k && Longest(lines[n..end], k) && r.Page? && r.content == Join(lines[n..end][..k])
    requires r.next == if n + k < |lines| then Some(n + k + 1) else None
    ensures Continues(r, pages, lines, offset)
  {
    PageCovers(pages, lines, offset, n, end, k, offset + k);
  }

  lemma {:induction false} WindowContinues(r: ReadResult, pages: seq<Bytes>, lines: seq<Bytes>, offset: int, n: nat,
                                           end: nat,
                                           k: int)
    requires Covers(pages, lines, offset) && n == offset - 1 && n < end <= |lines|
    requires ShowsWindow(r, lines[n..end], n, |lines|, k)
    ensures Continues(r, pages, lines, offset)
  {
    assert lines[n..end][0] == lines[n];
    if |lines[n]| <= DEFAULT_MAX_BYTES {
      PageContinues(r, pages, lines, offset, n, end, k);
    }
  }

  method NextWindow(data: Bytes, offset: int, limit: Option<int>, ghost pages: seq<Bytes>, ghost lines: seq<Bytes>)
    returns (r: ReadResult)
    requires lines == Split(data) && offset <= |lines| && (limit.Some? ==> limit.value >= 1)
    requires Covers(pages, lines, offset)
    ensures Continues(r, pages, lines, offset)
  {
    r := ReadTextToolResult(data, offset, limit);
    var n := offset - 1;
    WindowContinues(r, pages, lines, offset, n, EndLine(n, limit, |lines|), Shown(r, n, |lines|));
  }

  /** Following the offsets from the first line on comes to an end. The windows
      joined by newlines are the file exactly if none of its lines is too long;
      otherwise they are all before the first such line. */
  method FollowOffsets(data: Bytes, limit: Option<int>) returns (pages: seq<Bytes>, tooLong: Option<int>)
    requires limit.Some? ==> limit.value >= 1
    ensures tooLong.None? <==> NoneTooLong(Split(data), |Split(data)|)
    ensures tooLong.None? ==> Join(pages) == data
    ensures tooLong.Some? ==>
              var offset := tooLong.value;
              Covers(pages, Split(data), offset) && offset <= |Split(data)|
                && |Split(data)[offset - 1]| > DEFAULT_MAX_BYTES
  {
    ghost var lines := Split(data);
    SplitSound(data);
    pages, tooLong := [], None;
    var offset := 1;
    while true
      invariant offset <= |lines| && Covers(pages, lines, offset)
      decreases |lines| - offset
    {
      var r := NextWindow(data, offset, limit, pages, lines);
      if r.LineTooLong? {
        tooLong := Some(r.line);
        return;
      }
      pages := pages + [r.content];
      if r.next.None? {
        CoversAll(pages, lines);
        return;
      }
      offset := r.next.value;
    }
  }

  lemma {:induction false} CoversAll(pages: seq<Bytes>, lines: seq<Bytes>)
    requires Covers(pages, lines, |lines| + 1)
    ensures Join(pages) == Join(lines) && NoneTooLong(lines, |lines|)
  {
    SpanAll(lines);
  }
}
