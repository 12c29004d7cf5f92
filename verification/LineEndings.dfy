/** Byte-order marks and line endings, and when taking them off and putting them
    back loses nothing. */
module LineEndings {
  import opened Text

  datatype Ending = LF | CRLF

  const BOM: Bytes := [0xEF, 0xBB, 0xBF]

  /** The first newline of a text, or -1. */
  function FirstNL(s: Bytes): (i: int)
    ensures -1 <= i < |s|
    ensures i == -1 ==> NoNL(s)
    ensures i >= 0 ==> s[i] == NL && NoNL(s[..i])
  {
    if s == [] then -1
    else
      var i := FirstNL(Init(s));
      if i >= 0 then assert Init(s)[..i] == s[..i]; i
      else if Last(s) == NL then assert Init(s) == s[..|s| - 1]; |s| - 1
      else -1
  }

  /** The ending of the first line that has one. */
  function DetectLineEnding(content: Bytes): Ending {
    var i := FirstNL(content);
    if i > 0 && content[i - 1] == CR then CRLF else LF
  }

  predicate EndsCRLF(s: Bytes) {
    |s| >= 2 && s[|s| - 2] == CR && s[|s| - 1] == NL
  }

  /** strings.ReplaceAll(s, "\r\n", "\n"). */
  function CollapseCRLF(s: Bytes): Bytes {
    if s == [] then []
    else if EndsCRLF(s) then CollapseCRLF(s[..|s| - 2]) + [NL]
    else CollapseCRLF(Init(s)) + [Last(s)]
  }

  /** strings.ReplaceAll(s, "\r", "\n"). */
  function ReplaceCR(s: Bytes): Bytes {
    if s == [] then [] else ReplaceCR(Init(s)) + [if Last(s) == CR then NL else Last(s)]
  }

  function NormalizeToLF(text: Bytes): Bytes {
    ReplaceCR(CollapseCRLF(text))
  }

  /** strings.ReplaceAll(s, "\n", "\r\n"). */
  function ExpandNL(s: Bytes): Bytes {
    if s == [] then [] else ExpandNL(Init(s)) + if Last(s) == NL then [CR, NL] else [Last(s)]
  }

  function RestoreLineEndings(text: Bytes, ending: Ending): Bytes {
    if ending == CRLF then ExpandNL(text) else text
  }

  predicate HasBOM(s: Bytes) {
    |s| >= 3 && s[..3] == BOM
  }

  /** The mark, if there is one, and the rest. */
  function StripBOM(content: Bytes): (r: (Bytes, Bytes))
    ensures r.0 + r.1 == content && r.0 == (if HasBOM(content) then BOM else [])
    ensures r.0 == if [0xEF, 0xBB, 0xBF] <= content then [0xEF, 0xBB, 0xBF] else []
  {
    if HasBOM(content) then (BOM, content[3..]) else ([], content)
  }

  // ----- texts of one kind --------------------------------------------------

  ghost predicate NoCR(s: Bytes) {
    forall i :: 0 <= i < |s| ==> s[i] != CR
  }

  /** Every newline follows a carriage return, and every carriage return precedes
      a newline. */
  ghost predicate Paired(s: Bytes) {
    forall i :: 0 <= i < |s| ==> PairedAt(s, i)
  }

  predicate PairedAt(s: Bytes, i: int)
    requires 0 <= i < |s|
  {
    (s[i] == NL ==> i > 0 && s[i - 1] == CR) && (s[i] == CR ==> i < |s| - 1 && s[i + 1] == NL)
  }

  lemma NoCRPush(s: Bytes, c: byte)
    ensures NoCR(s + [c]) <==> NoCR(s) && c != CR
  {
    assert (s + [c])[|s|] == c;
    assert forall i :: 0 <= i < |s| ==> (s + [c])[i] == s[i];
  }

  lemma {:induction false} ReplaceCRClears(s: Bytes)
    ensures NoCR(ReplaceCR(s))
    ensures NoCR(s) ==> ReplaceCR(s) == s
  {
    if s != [] {
      ReplaceCRClears(Init(s));
      InitLast(s);
      NoCRPush(ReplaceCR(Init(s)), if Last(s) == CR then NL else Last(s));
      NoCRPush(Init(s), Last(s));
    }
  }

  lemma {:induction false} CollapseKeeps(s: Bytes)
    requires NoCR(s)
    ensures CollapseCRLF(s) == s
  {
    if s != [] {
      CollapseKeeps(Init(s));
      InitLast(s);
    }
  }

  lemma NormalizeClears(s: Bytes)
    ensures NoCR(NormalizeToLF(s))
    ensures NoCR(s) ==> NormalizeToLF(s) == s
  {
    ReplaceCRClears(CollapseCRLF(s));
    if NoCR(s) {
      CollapseKeeps(s);
    }
  }

  lemma PairedPush(s: Bytes, e: Bytes)
    requires Paired(s) && (e == [CR, NL] || (|e| == 1 && e[0] != NL && e[0] != CR))
    ensures Paired(s + e)
  {
    forall i | 0 <= i < |s + e| ensures PairedAt(s + e, i) {
      if i < |s| {
        assert PairedAt(s, i);
      }
    }
  }

  /** What has its endings expanded has no newline or carriage return alone. */
  lemma {:induction false} ExpandPairs(s: Bytes)
    requires NoCR(s)
    ensures Paired(ExpandNL(s))
  {
    if s != [] {
      InitLast(s);
      NoCRPush(Init(s), Last(s));
      ExpandPairs(Init(s));
      PairedPush(ExpandNL(Init(s)), if Last(s) == NL then [CR, NL] else [Last(s)]);
    }
  }

  lemma PairedInit(s: Bytes)
    requires Paired(s) && s != []
    ensures if Last(s) == NL then EndsCRLF(s) && Paired(s[..|s| - 2]) && s == s[..|s| - 2] + [CR, NL]
            else Last(s) != CR && Paired(Init(s))
  {
    assert PairedAt(s, |s| - 1);
    var h := if Last(s) == NL then s[..|s| - 2] else Init(s);
    forall i | 0 <= i < |h| ensures PairedAt(h, i) {
      assert PairedAt(s, i) && PairedAt(s, i + 1);
    }
  }

  lemma {:induction false} ExpandBack(s: Bytes)
    requires Paired(s)
    ensures ExpandNL(NormalizeToLF(s)) == s
  {
    if s != [] {
      PairedInit(s);
      if Last(s) == NL {
        var h := s[..|s| - 2];
        ExpandBack(h);
        InitPush(CollapseCRLF(h), NL);
        InitPush(NormalizeToLF(h), NL);
      } else {
        ExpandBack(Init(s));
        InitPush(CollapseCRLF(Init(s)), Last(s));
        InitPush(NormalizeToLF(Init(s)), Last(s));
        InitLast(s);
      }
    }
  }

  lemma DetectPaired(s: Bytes)
    requires Paired(s) && !NoCR(s)
    ensures DetectLineEnding(s) == CRLF
  {
    var i :| 0 <= i < |s| && s[i] == CR;
    assert PairedAt(s, i);
    assert FirstNL(s) >= 0;
    assert PairedAt(s, FirstNL(s));
  }

  lemma DetectNoCR(s: Bytes)
    requires NoCR(s)
    ensures DetectLineEnding(s) == LF
  {
  }

  /** Normalizing and restoring gives back exactly the texts of one kind. */
  lemma RoundTrip(s: Bytes)
    ensures RestoreLineEndings(NormalizeToLF(s), DetectLineEnding(s)) == s <==> NoCR(s) || Paired(s)
  {
    NormalizeClears(s);
    if NoCR(s) {
      DetectNoCR(s);
    } else if Paired(s) {
      DetectPaired(s);
      ExpandBack(s);
    } else if DetectLineEnding(s) == CRLF {
      ExpandPairs(NormalizeToLF(s));
    }
  }

  /** Restoring keeps to the ending that was detected. */
  lemma RestoredKind(text: Bytes, ending: Ending)
    requires NoCR(text)
    ensures ending == LF ==> NoCR(RestoreLineEndings(text, ending))
    ensures ending == CRLF ==> Paired(RestoreLineEndings(text, ending))
  {
    ExpandPairs(text);
  }

  // ----- texts of any kind --------------------------------------------------

  lemma NotBefore(s: Bytes, j: nat, i: nat)
    requires i < j <= |s| && NoNL(s[..j])
    ensures s[i] != NL
  {
    assert s[..j][i] == s[i];
  }

  /** The first newline decides: the ending is CRLF exactly if that follows a
      carriage return. */
  lemma DetectFirst(s: Bytes)
    ensures DetectLineEnding(s) == CRLF <==>
            exists i :: 0 < i < |s| && s[i - 1] == CR && s[i] == NL && NoNL(s[..i])
  {
    if i :| 0 < i < |s| && s[i - 1] == CR && s[i] == NL && NoNL(s[..i]) {
      var j := FirstNL(s);
      if i < j {
        NotBefore(s, j, i);
      } else if 0 <= j < i {
        NotBefore(s, i, j);
      }
    }
  }

  datatype Break = Feed | Return | Pair

  /** A line ending and what follows it up to the next. */
  datatype Segment = Segment(ending: Break, field: Bytes)

  ghost function BreakText(b: Break): Bytes {
    match b case Feed => [NL] case Return => [CR] case Pair => [CR, NL]
  }

  ghost function Spelled(first: Bytes, rest: seq<Segment>): Bytes {
    if rest == [] then first else Spelled(first, Init(rest)) + BreakText(Last(rest).ending) + Last(rest).field
  }

  ghost function AllFeeds(rest: seq<Segment>): seq<Segment> {
    if rest == [] then [] else AllFeeds(Init(rest)) + [Segment(Feed, Last(rest).field)]
  }

  ghost predicate Plain(s: Bytes) {
    NoCR(s) && NoNL(s)
  }

  /** A return with a feed right behind it is a pair. */
  ghost predicate Apart(rest: seq<Segment>) {
    && (forall i :: 0 <= i < |rest| ==> Plain(rest[i].field))
    && (forall i :: 0 < i < |rest| ==> !(rest[i - 1] == Segment(Return, []) && rest[i].ending == Feed))
  }

  lemma {:induction false} CollapsePlain(s: Bytes, f: Bytes)
    requires Plain(f)
    ensures CollapseCRLF(s + f) == CollapseCRLF(s) + f
  {
    if f == [] {
      Nil(s);
      Nil(CollapseCRLF(s));
    } else {
      InitAppend(s, f);
      CollapsePlain(s, Init(f));
      Assoc(CollapseCRLF(s), Init(f), [Last(f)]);
      InitLast(f);
    }
  }

  lemma {:induction false} CollapsePair(s: Bytes, t: Bytes)
    requires t == s + [CR, NL]
    ensures CollapseCRLF(t) == CollapseCRLF(s) + [NL]
  {
    assert EndsCRLF(t) && t[..|t| - 2] == s;
  }

  lemma {:induction false} CollapseOther(s: Bytes, c: byte)
    requires c == NL && s != [] ==> Last(s) != CR
    ensures CollapseCRLF(s + [c]) == CollapseCRLF(s) + [c]
  {
    InitPush(s, c);
    assert !EndsCRLF(s + [c]);
  }

  lemma {:induction false} CollapseBreak(s: Bytes, b: Break)
    requires b == Feed && s != [] ==> Last(s) != CR
    ensures CollapseCRLF(s + BreakText(b)) == CollapseCRLF(s) + if b == Return then [CR] else [NL]
  {
    match b
    case Feed => CollapseOther(s, NL);
    case Return => CollapseOther(s, CR);
    case Pair => CollapsePair(s, s + [CR, NL]);
  }

  lemma {:induction false} ReplaceAppend(s: Bytes, t: Bytes)
    ensures ReplaceCR(s + t) == ReplaceCR(s) + ReplaceCR(t)
  {
    if t == [] {
      Nil(s);
      Nil(ReplaceCR(s));
    } else {
      InitAppend(s, t);
      ReplaceAppend(s, Init(t));
      Assoc(ReplaceCR(s), ReplaceCR(Init(t)), [if Last(t) == CR then NL else Last(t)]);
    }
  }

  lemma {:induction false} ExpandReads(t: Bytes)
    requires NoCR(t)
    ensures NormalizeToLF(ExpandNL(t)) == t
  {
    if t != [] {
      InitLast(t);
      NoCRPush(Init(t), Last(t));
      ExpandReads(Init(t));
      var s, c := ExpandNL(Init(t)), Last(t);
      if c == NL {
        CollapsePair(s, s + [CR, NL]);
        ReplaceAppend(CollapseCRLF(s), [NL]);
        assert Init([NL]) == [] && ReplaceCR([NL]) == [NL];
      } else {
        CollapseOther(s, c);
        ReplaceAppend(CollapseCRLF(s), [c]);
        assert Init([c]) == [] && ReplaceCR([c]) == [c];
      }
    }
  }

  /** What is restored reads as it was. */
  lemma RestoreReads(t: Bytes, ending: Ending)
    requires NoCR(t)
    ensures NormalizeToLF(RestoreLineEndings(t, ending)) == t
  {
    NormalizeClears(t);
    ExpandReads(t);
  }

  lemma NormalizeNext(s: Bytes, b: Break, f: Bytes)
    requires Plain(f) && (b == Feed && s != [] ==> Last(s) != CR)
    ensures NormalizeToLF(s + BreakText(b) + f) == NormalizeToLF(s) + [NL] + f
  {
    var e := if b == Return then [CR] else [NL];
    CollapsePlain(s + BreakText(b), f);
    CollapseBreak(s, b);
    ReplaceAppend(CollapseCRLF(s) + e, f);
    ReplaceAppend(CollapseCRLF(s), e);
    ReplaceCRClears(f);
    assert Init(e) == [] && ReplaceCR(e) == [NL];
  }

  lemma {:induction false} SpelledEnd(first: Bytes, rest: seq<Segment>)
    requires Plain(first) && Apart(rest) && Spelled(first, rest) != []
    requires Last(Spelled(first, rest)) == CR
    ensures rest != [] && Last(rest) == Segment(Return, [])
  {
    if rest != [] {
      assert Plain(Last(rest).field);
    }
  }

  /** Every line ending of a text, whatever its kind, becomes one newline, and nothing
      else changes. */
  lemma {:induction false} NormalizeEach(first: Bytes, rest: seq<Segment>)
    requires Plain(first) && Apart(rest)
    ensures NormalizeToLF(Spelled(first, rest)) == Spelled(first, AllFeeds(rest))
  {
    if rest == [] {
      NormalizeClears(first);
    } else {
      var init, l := Init(rest), Last(rest);
      NormalizeEach(first, init);
      if Spelled(first, init) != [] && Last(Spelled(first, init)) == CR {
        SpelledEnd(first, init);
      }
      NormalizeNext(Spelled(first, init), l.ending, l.field);
      InitPush(AllFeeds(init), Segment(Feed, l.field));
    }
  }
}
