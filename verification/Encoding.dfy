/** Characters as bytes, as section 3 of RFC 3629 lays them out, and read back. */
module Encoding {
  import opened Text
  import opened Truncate

  /** A Unicode scalar value. */
  type Rune = r: int | 0 <= r < 0x110000 && !(0xD800 <= r < 0xE000)

  /** Section 3 of RFC 3629. */
  function Encode(r: Rune): (e: Bytes)
    ensures 1 <= |e| <= 4 && !Cont(e[0]) && forall i :: 1 <= i < |e| ==> Cont(e[i])
    ensures if r < 0x80 then e == [r as byte] else forall i :: 0 <= i < |e| ==> e[i] >= 0x80
  {
    if r < 0x80 then [r as byte]
    else if r < 0x800 then [(0xC0 + r / 0x40) as byte, Trail(r)]
    else if r < 0x10000 then [(0xE0 + r / 0x1000) as byte, Trail(r / 0x40), Trail(r)]
    else [(0xF0 + r / 0x40000) as byte, Trail(r / 0x1000), Trail(r / 0x40), Trail(r)]
  }

  function Trail(r: nat): (b: byte)
    ensures Cont(b)
  {
    (0x80 + r % 0x40) as byte
  }

  function Utf8(rs: seq<Rune>): Bytes {
    if rs == [] then [] else Utf8(Init(rs)) + Encode(Last(rs))
  }

  lemma {:induction false} Utf8Append(a: seq<Rune>, b: seq<Rune>)
    ensures Utf8(a + b) == Utf8(a) + Utf8(b)
  {
    if b == [] {
      Nil(a);
      Nil(Utf8(a));
    } else {
      InitAppend(a, b);
      Utf8Append(a, Init(b));
      Assoc(Utf8(a), Utf8(Init(b)), Encode(Last(b)));
    }
  }

  // ----- reading ------------------------------------------------------------

  datatype Read<T> = WellFormed(value: T) | Malformed

  function Bits(b: byte, base: byte): int {
    b as int - base as int
  }

  /** The character that the bytes encode: the table of well-formed sequences in
      section 4 of RFC 3629. */
  function Decode(e: Bytes): Read<Rune> {
    if |e| == 1 && e[0] < 0x80 then WellFormed(e[0] as int)
    else if |e| == 2 && 0xC2 <= e[0] <= 0xDF && Cont(e[1]) then WellFormed(Bits(e[0], 0xC0) * 0x40 + Bits(e[1], 0x80))
    else if |e| == 3 && 0xE0 <= e[0] <= 0xEF && Cont(e[1]) && Cont(e[2])
            && (e[0] == 0xE0 ==> e[1] >= 0xA0) && (e[0] == 0xED ==> e[1] <= 0x9F) then
      WellFormed(Bits(e[0], 0xE0) * 0x1000 + Bits(e[1], 0x80) * 0x40 + Bits(e[2], 0x80))
    else if |e| == 4 && 0xF0 <= e[0] <= 0xF4 && Cont(e[1]) && Cont(e[2]) && Cont(e[3])
            && (e[0] == 0xF0 ==> e[1] >= 0x90) && (e[0] == 0xF4 ==> e[1] <= 0x8F) then
      WellFormed(Bits(e[0], 0xF0) * 0x40000 + Bits(e[1], 0x80) * 0x1000 + Bits(e[2], 0x80) * 0x40 + Bits(e[3], 0x80))
    else Malformed
  }

  lemma Digits(r: nat)
    ensures r == r / 0x40 * 0x40 + r % 0x40
    ensures r / 0x40 == r / 0x1000 * 0x40 + r / 0x40 % 0x40
    ensures r / 0x1000 == r / 0x40000 * 0x40 + r / 0x1000 % 0x40
  {
  }

  /** The encoding of a character is read as that character ... */
  lemma DecodeEncoded(r: Rune)
    ensures Decode(Encode(r)) == WellFormed(r)
  {
    Digits(r);
  }

  lemma LastDigit(q: int, c: int, r: int)
    requires 0 <= c < 0x40 && r == q * 0x40 + c
    ensures r % 0x40 == c && r / 0x40 == q
  {
  }

  lemma HigherDigits(q: int, c: int, r: int)
    requires r == q * 0x1000 + c
    ensures 0 <= c < 0x1000 ==> r / 0x1000 == q
  {
  }

  lemma HighestDigits(q: int, c: int, r: int)
    requires r == q * 0x40000 + c
    ensures 0 <= c < 0x40000 ==> r / 0x40000 == q
  {
  }

  lemma ThreeDigits(a: int, b: int, c: int, r: int)
    requires 0 <= b < 0x40 && 0 <= c < 0x40 && r == a * 0x1000 + b * 0x40 + c
    ensures r % 0x40 == c && r / 0x40 % 0x40 == b && r / 0x1000 == a
  {
    var q := a * 0x40 + b;
    LastDigit(q, c, r);
    LastDigit(a, b, q);
    HigherDigits(a, b * 0x40 + c, r);
  }

  lemma FourDigits(a: int, b: int, c: int, d: int, r: int)
    requires 0 <= b < 0x40 && 0 <= c < 0x40 && 0 <= d < 0x40
    requires r == a * 0x40000 + b * 0x1000 + c * 0x40 + d
    ensures r % 0x40 == d && r / 0x40 % 0x40 == c && r / 0x1000 % 0x40 == b && r / 0x40000 == a
  {
    var q := a * 0x40 + b;
    ThreeDigits(q, c, d, r);
    LastDigit(a, b, q);
    HighestDigits(a, b * 0x1000 + c * 0x40 + d, r);
  }

  /** ... and no other bytes are. */
  lemma EncodeDecoded(e: Bytes)
    ensures Decode(e).WellFormed? ==> Encode(Decode(e).value) == e
  {
    if Decode(e).WellFormed? {
      var r := Decode(e).value;
      if |e| == 3 {
        ThreeDigits(Bits(e[0], 0xE0), Bits(e[1], 0x80), Bits(e[2], 0x80), r);
      } else if |e| == 4 {
        FourDigits(Bits(e[0], 0xF0), Bits(e[1], 0x80), Bits(e[2], 0x80), Bits(e[3], 0x80), r);
      }
    }
  }

  /** Where the last character of a text begins. */
  function LastStart(s: Bytes): (i: nat)
    requires s != []
    ensures i < |s|
  {
    if |s| == 1 || !Cont(Last(s)) then |s| - 1 else LastStart(Init(s))
  }

  /** The characters of a text, if it is well-formed. */
  function ReadUtf8(s: Bytes): Read<seq<Rune>> {
    if s == [] then WellFormed([])
    else
      var i := LastStart(s);
      var rs, r := ReadUtf8(s[..i]), Decode(s[i..]);
      if rs.WellFormed? && r.WellFormed? then WellFormed(rs.value + [r.value]) else Malformed
  }

  lemma {:induction false} LastStartIs(s: Bytes, e: Bytes)
    requires e != [] && !Cont(e[0]) && forall i :: 1 <= i < |e| ==> Cont(e[i])
    ensures LastStart(s + e) == |s|
  {
    var t := s + e;
    if |e| == 1 {
      assert Last(t) == e[0];
    } else {
      assert Last(t) == e[|e| - 1];
      assert Init(t) == s + Init(e);
      LastStartIs(s, Init(e));
    }
  }

  /** A text is read as the characters it was made of. */
  lemma {:induction false} ReadBack(rs: seq<Rune>)
    ensures ReadUtf8(Utf8(rs)) == WellFormed(rs)
  {
    if rs != [] {
      var s, e := Utf8(Init(rs)), Encode(Last(rs));
      ReadBack(Init(rs));
      LastStartIs(s, e);
      assert (s + e)[..|s|] == s && (s + e)[|s|..] == e;
      DecodeEncoded(Last(rs));
      InitLast(rs);
    }
  }

  /** Nothing else is read so. */
  lemma {:induction false} ReadIsText(s: Bytes)
    ensures ReadUtf8(s).WellFormed? ==> Utf8(ReadUtf8(s).value) == s
  {
    if s != [] && ReadUtf8(s).WellFormed? {
      var i := LastStart(s);
      var rs, r := ReadUtf8(s[..i]).value, Decode(s[i..]).value;
      ReadIsText(s[..i]);
      EncodeDecoded(s[i..]);
      InitPush(rs, r);
      assert s[..i] + s[i..] == s;
    }
  }
}
