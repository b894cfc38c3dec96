// The hand-written UTF-8 coder of the generated runtime: JavaScript strings are
// sequences of UTF-16 code units; writeString turns them into UTF-8 bytes and
// readString turns bytes back, replacing every malformed sequence by U+FFFD.
module Utf8 {
  import opened JsNumbers
  import opened Arith

  type CodeUnit = x: int | 0 <= x < 0x1_0000
  type JsString = seq<CodeUnit>

  const REPLACEMENT: CodeUnit := 0xFFFD

  /**
   * A string constant of the source as code units. Every constant used is in the Basic
   * Multilingual Plane, where a character is one code unit; a character beyond it, which no
   * constant has, is given as U+FFFD.
   */
  function Literal(s: string): (r: JsString)
    ensures |r| == |s| && forall i :: 0 <= i < |s| && s[i] as int < 0x1_0000 ==> r[i] == s[i] as int
  {
    seq(|s|, i requires 0 <= i < |s| => if s[i] as int < 0x1_0000 then s[i] as int else REPLACEMENT)
  }

  predicate IsHighSurrogate(u: int) { 0xD800 <= u <= 0xDBFF }
  predicate IsLowSurrogate(u: int) { 0xDC00 <= u <= 0xDFFF }

  /** Every high surrogate is followed by a low one and every low surrogate preceded by a high one. */
  predicate WellFormed(t: JsString) {
    && (forall i :: 0 <= i < |t| - 1 ==> PairedAt(t, i))
    && (|t| > 0 ==> !IsLowSurrogate(t[0]) && !IsHighSurrogate(t[|t| - 1]))
  }

  /** A high surrogate at `i` exactly when a low one follows it. */
  predicate PairedAt(t: JsString, i: nat)
    requires i + 1 < |t|
  {
    IsHighSurrogate(t[i]) <==> IsLowSurrogate(t[i + 1])
  }

  /**
   * The number writeString encodes at the head of the text and how many code units it takes:
   * a high surrogate combines with whatever unit follows it, `(c << 10) + next - 0x35FDC00`.
   */
  function HeadCodePoint(t: JsString): (r: (nat, nat))
    requires |t| > 0
    ensures r.1 == 1 || r.1 == 2
    ensures r.1 <= |t| && r.0 <= 0x11_1FFF
    ensures r.1 == 2 <==> IsHighSurrogate(t[0]) && |t| > 1
    ensures r.1 == 1 ==> r.0 == t[0]
  {
    if IsHighSurrogate(t[0]) && 1 < |t| then ((t[0] as int) * 0x400 + t[1] - 0x35F_DC00, 2) else (t[0], 1)
  }

  /** writeString's byte count for one encoded number. */
  function Utf8Size(c: nat): nat {
    if c < 0x80 then 1 else if c < 0x800 then 2 else if c < 0x1_0000 then 3 else 4
  }

  /** The bytes writeString stores for one number: `((c >> 6) & 0x1F) | 0xC0`, and so on. */
  function Utf8Of(c: nat): (r: seq<byte>)
    requires c <= 0x11_1FFF
    ensures |r| == Utf8Size(c)
  {
    if c < 0x80 then [c]
    else if c < 0x800 then [(c / 0x40) % 0x20 + 0xC0, c % 0x40 + 0x80]
    else if c < 0x1_0000 then [(c / 0x1000) % 0x10 + 0xE0, (c / 0x40) % 0x40 + 0x80, c % 0x40 + 0x80]
    else [(c / 0x4_0000) % 0x8 + 0xF0, (c / 0x1000) % 0x40 + 0x80, (c / 0x40) % 0x40 + 0x80, c % 0x40 + 0x80]
  }

  /** The bytes writeString emits after the length prefix. */
  function Encode(t: JsString): (r: seq<byte>)
    ensures |t| == 0 <==> |r| == 0
    decreases |t|
  {
    if |t| == 0 then []
    else
      var (c, w) := HeadCodePoint(t);
      Utf8Of(c) + Encode(t[w..])
  }

  /** writeString's first loop: the sum of the byte counts of the numbers it encodes. */
  function ByteCount(t: JsString): (n: nat)
    ensures n == |Encode(t)|
    decreases |t|
  {
    if |t| == 0 then 0
    else
      var (c, w) := HeadCodePoint(t);
      Utf8Size(c) + ByteCount(t[w..])
  }

  predicate IsContinuation(b: byte) { 0x80 <= b < 0xC0 }

  /**
   * One turn of readString's loop on the bytes still to read: the code units it appends
   * and how many bytes it moves past. A malformed sequence yields U+FFFD and moves one byte.
   */
  function DecodeStep(b: seq<byte>): (r: (JsString, nat))
    requires |b| > 0
    ensures 1 <= r.1 <= |b| && 1 <= |r.0| <= 2
  {
    var c1 := b[0] as int;
    if c1 < 0x80 then ([c1], 1)
    else if 0xC0 <= c1 < 0xE0 then
      if |b| <= 1 then ([REPLACEMENT], 1)
      else if !IsContinuation(b[1]) then ([REPLACEMENT], 1)
      else
        var c := Group2(c1, b[1]);
        if c < 0x80 then ([REPLACEMENT], 1) else ([c], 2)
    else if 0xE0 <= c1 < 0xF0 then
      if |b| <= 2 then ([REPLACEMENT], 1)
      else if !(IsContinuation(b[1]) && IsContinuation(b[2])) then ([REPLACEMENT], 1)
      else
        var c := Group3(c1, b[1], b[2]);
        if c < 0x800 || (0xD800 <= c <= 0xDFFF) then ([REPLACEMENT], 1) else ([c], 3)
    else if 0xF0 <= c1 < 0xF8 then
      if |b| <= 3 then ([REPLACEMENT], 1)
      else if !(IsContinuation(b[1]) && IsContinuation(b[2]) && IsContinuation(b[3])) then ([REPLACEMENT], 1)
      else
        var c := Group4(c1, b[1], b[2], b[3]);
        if c < 0x1_0000 || c > 0x10_FFFF then ([REPLACEMENT], 1)
        else
          var d := c - 0x1_0000;
          ([d / 0x400 + 0xD800, d % 0x400 + 0xDC00], 4)
    else ([REPLACEMENT], 1)
  }

  /** `((c1 & 0x1F) << 6) | (c2 & 0x3F)` */
  function Group2(c1: int, c2: int): int
  {
    (c1 % 0x20) * 0x40 + c2 % 0x40
  }

  /** `((c1 & 0x0F) << 12) | ((c2 & 0x3F) << 6) | (c3 & 0x3F)` */
  function Group3(c1: int, c2: int, c3: int): int
  {
    (c1 % 0x10) * 0x1000 + (c2 % 0x40) * 0x40 + c3 % 0x40
  }

  /** `((c1 & 0x07) << 0x12) | ((c2 & 0x3F) << 0x0C) | ((c3 & 0x3F) << 0x06) | (c4 & 0x3F)` */
  function Group4(c1: int, c2: int, c3: int, c4: int): int
  {
    (c1 % 0x8) * 0x4_0000 + (c2 % 0x40) * 0x1000 + (c3 % 0x40) * 0x40 + c4 % 0x40
  }

  /** readString's loop over the `count` bytes it was given. */
  function Decode(b: seq<byte>): (t: JsString)
    ensures |t| <= 2 * |b|
    decreases |b|
  {
    if |b| == 0 then []
    else
      var (units, used) := DecodeStep(b);
      units + Decode(b[used..])
  }

  lemma {:induction false} DecodeConcat(b: seq<byte>, rest: seq<byte>, units: JsString)
    requires |b| > 0 && DecodeStep(b + rest) == (units, |b|)
    ensures Decode(b + rest) == units + Decode(rest)
  {
    assert (b + rest)[|b|..] == rest;
  }

  lemma {:induction false} Utf8OfTwo(c: nat, rest: seq<byte>)
    requires 0x80 <= c < 0x800
    ensures DecodeStep(Utf8Of(c) + rest) == ([c], 2)
  {
    var b := Utf8Of(c) + rest;
    DivUnique(c, 0x40, c / 0x40, c % 0x40);
    assert b[0] == c / 0x40 + 0xC0;
    assert Group2(b[0], b[1]) == c;
  }

  lemma {:induction false} Utf8OfThreeBytes(c: nat)
    requires 0x800 <= c < 0x1_0000
    ensures var b := Utf8Of(c);
            b[0] == c / 0x1000 + 0xE0 && IsContinuation(b[1]) && IsContinuation(b[2])
            && b[1] == (c / 0x40) % 0x40 + 0x80 && Group3(b[0], b[1], b[2]) == c
  {
    var b := Utf8Of(c);
    DivDiv(c, 0x40, 0x40);
    var q := c / 0x40;
    assert c == q * 0x40 + c % 0x40;
    assert q == (q / 0x40) * 0x40 + q % 0x40;
    assert b[0] == c / 0x1000 + 0xE0;
  }

  lemma {:induction false} Utf8OfThree(c: nat, rest: seq<byte>)
    requires 0x800 <= c < 0x1_0000 && !(0xD800 <= c <= 0xDFFF)
    ensures DecodeStep(Utf8Of(c) + rest) == ([c], 3)
  {
    Utf8OfThreeBytes(c);
    var b := Utf8Of(c) + rest;
    assert b[..3] == Utf8Of(c);
  }

  lemma {:induction false} Utf8OfFourBytes(c: nat)
    requires 0x1_0000 <= c <= 0x10_FFFF
    ensures var b := Utf8Of(c);
            0xF0 <= b[0] < 0xF8 && IsContinuation(b[1]) && IsContinuation(b[2]) && IsContinuation(b[3])
            && Group4(b[0], b[1], b[2], b[3]) == c
  {
    var b := Utf8Of(c);
    var q1 := c / 0x40;
    var q2 := q1 / 0x40;
    var q3 := q2 / 0x40;
    DivDiv(c, 0x40, 0x40);
    DivDiv(c, 0x1000, 0x40);
    assert q2 == c / 0x1000 && q3 == c / 0x4_0000;
    assert q3 < 8;
    Continuation(q2);
    Continuation(q1);
    Continuation(c);
    assert b[0] % 0x8 == q3;
    SixBitDigits(c, q1, q2, q3);
  }

  /** The low six bits of x as a continuation byte `10xxxxxx`. */
  lemma {:induction false} Continuation(x: nat)
    ensures IsContinuation(x % 0x40 + 0x80) && (x % 0x40 + 0x80) % 0x40 == x % 0x40
  {
    DivUnique(x % 0x40 + 0x80, 0x40, 2, x % 0x40);
  }

  /** Peeling off six bits three times and putting them back together. */
  lemma {:induction false} SixBitDigits(c: nat, q1: nat, q2: nat, q3: nat)
    requires q1 == c / 0x40 && q2 == q1 / 0x40 && q3 == q2 / 0x40
    ensures c == q3 * 0x4_0000 + (q2 % 0x40) * 0x1000 + (q1 % 0x40) * 0x40 + c % 0x40
  {
    assert c == q1 * 0x40 + c % 0x40;
    assert q1 == q2 * 0x40 + q1 % 0x40;
    assert q2 == q3 * 0x40 + q2 % 0x40;
  }

  lemma {:induction false} Utf8OfFour(c: nat, rest: seq<byte>)
    requires 0x1_0000 <= c <= 0x10_FFFF
    ensures var d := c - 0x1_0000;
            DecodeStep(Utf8Of(c) + rest) == ([d / 0x400 + 0xD800, d % 0x400 + 0xDC00], 4)
  {
    Utf8OfFourBytes(c);
    var e := Utf8Of(c);
    var b := e + rest;
    assert b[0] == e[0] && b[1] == e[1] && b[2] == e[2] && b[3] == e[3];
    assert |b| > 3;
    assert 0xF0 <= b[0] < 0xF8;
    assert IsContinuation(b[1]) && IsContinuation(b[2]) && IsContinuation(b[3]);
    assert Group4(b[0], b[1], b[2], b[3]) == c;
  }

  lemma {:induction false} WellFormedTail(t: JsString, w: nat)
    requires WellFormed(t) && 0 < w <= |t|
    requires w < |t| ==> !IsLowSurrogate(t[w])
    ensures WellFormed(t[w..])
  {
    var u := t[w..];
    forall i | 0 <= i < |u| - 1
      ensures PairedAt(u, i)
    {
      assert PairedAt(t, w + i);
      assert u[i] == t[w + i] && u[i + 1] == t[w + i + 1];
    }
  }

  /** readString gives back the text writeString encoded, for text without unpaired surrogates. */
  lemma {:induction false} DecodeEncode(t: JsString)
    requires WellFormed(t)
    ensures Decode(Encode(t)) == t
    decreases |t|
  {
    if |t| > 0 {
      var c, w, rest := EncodeHead(t);
      WellFormedRest(t);
      if w == 2 {
        DecodePair(t, c, rest);
      } else {
        DecodeSingle(t, c, rest);
      }
      DecodeEncode(t[w..]);
      assert t == t[..w] + t[w..];
    }
  }

  /** The first number writeString encodes, the units it takes, and the bytes of the rest of the text. */
  lemma {:induction false} EncodeHead(t: JsString) returns (c: nat, w: nat, rest: seq<byte>)
    requires |t| > 0
    ensures (c, w) == HeadCodePoint(t) && rest == Encode(t[w..])
    ensures Encode(t) == Utf8Of(c) + rest
  {
    c, w := HeadCodePoint(t).0, HeadCodePoint(t).1;
    rest := Encode(t[w..]);
  }

  /** What follows the head of a well-formed text is well formed. */
  lemma {:induction false} WellFormedRest(t: JsString)
    requires WellFormed(t) && |t| > 0
    ensures WellFormed(t[HeadCodePoint(t).1..])
  {
    var w := HeadCodePoint(t).1;
    if w == 2 {
      assert PairedAt(t, 0);
      if |t| > 2 {
        assert PairedAt(t, 1);
      }
    } else if |t| > 1 {
      assert PairedAt(t, 0);
    }
    WellFormedTail(t, w);
  }

  /** A surrogate pair is written as four bytes that read back as the same two units. */
  lemma {:induction false} DecodePair(t: JsString, c: nat, rest: seq<byte>)
    requires WellFormed(t) && |t| > 1 && IsHighSurrogate(t[0])
    requires c == (t[0] as int) * 0x400 + t[1] - 0x35F_DC00
    ensures c <= 0x11_1FFF && Decode(Utf8Of(c) + rest) == t[..2] + Decode(rest)
  {
    assert PairedAt(t, 0);
    assert IsLowSurrogate(t[1]);
    assert c == (t[0] as int - 0xD800) * 0x400 + (t[1] as int - 0xDC00) + 0x1_0000;
    Utf8OfFour(c, rest);
    var d := c - 0x1_0000;
    DivUnique(d, 0x400, t[0] as int - 0xD800, t[1] as int - 0xDC00);
    assert t[..2] == [t[0], t[1]];
    DecodeConcat(Utf8Of(c), rest, [t[0], t[1]]);
  }

  /** A unit outside the surrogate range is written as one to three bytes that read back as it. */
  lemma {:induction false} DecodeSingle(t: JsString, c: nat, rest: seq<byte>)
    requires WellFormed(t) && |t| > 0 && c == t[0] && !IsHighSurrogate(t[0])
    ensures Decode(Utf8Of(c) + rest) == t[..1] + Decode(rest)
  {
    assert !IsLowSurrogate(t[0]);
    assert t[..1] == [t[0]];
    if c < 0x80 {
    } else if c < 0x800 {
      Utf8OfTwo(c, rest);
    } else {
      Utf8OfThree(c, rest);
    }
    DecodeConcat(Utf8Of(c), rest, [t[0]]);
  }

  /** A byte that cannot start a sequence (a stray continuation byte, or 0xF8 and above) reads as U+FFFD. */
  lemma {:induction false} InvalidLeadReplaced(b: seq<byte>)
    requires |b| > 0 && (IsContinuation(b[0]) || b[0] >= 0xF8)
    ensures Decode(b) == [REPLACEMENT] + Decode(b[1..])
  {
  }

  /** A sequence cut short by the end of the field reads as U+FFFD, one per remaining byte at most. */
  lemma {:induction false} TruncatedReplaced(b: seq<byte>)
    requires |b| > 0 && 0xC0 <= b[0] < 0xF8
    requires |b| < Utf8Size(if b[0] < 0xE0 then 0x80 else if b[0] < 0xF0 then 0x800 else 0x1_0000)
    ensures Decode(b)[0] == REPLACEMENT
  {
  }

  /** Overlong forms, encoded surrogates and numbers above U+10FFFF read as U+FFFD. */
  lemma {:induction false} RejectedForms(b: seq<byte>)
    requires |b| >= 4 && IsContinuation(b[1]) && IsContinuation(b[2]) && IsContinuation(b[3])
    requires b[0] == 0xC0 || b[0] == 0xC1 || (b[0] == 0xE0 && b[1] < 0xA0)
             || (b[0] == 0xED && b[1] >= 0xA0) || (b[0] == 0xF0 && b[1] < 0x90) || (b[0] == 0xF4 && b[1] >= 0x90)
             || 0xF5 <= b[0] <= 0xF7
    ensures Decode(b) == [REPLACEMENT] + Decode(b[1..])
  {
  }

  /** A lone surrogate is written as three bytes that read back as three replacement characters. */
  lemma {:induction false} LoneSurrogateLost(u: CodeUnit)
    requires IsLowSurrogate(u) || IsHighSurrogate(u)
    ensures |Encode([u])| == 3
    ensures Decode(Encode([u])) == [REPLACEMENT, REPLACEMENT, REPLACEMENT]
  {
    var b := Encode([u]);
    assert b == Utf8Of(u);
    Utf8OfThreeBytes(u);
    assert b[0] == 0xED && IsContinuation(b[1]) && IsContinuation(b[2]);
    assert DecodeStep(b) == ([REPLACEMENT], 1);
    assert Decode(b) == [REPLACEMENT] + Decode(b[1..]);
    assert Decode(b[1..]) == [REPLACEMENT] + Decode(b[2..]);
    assert Decode(b[2..]) == [REPLACEMENT] + Decode(b[3..]);
  }
}
