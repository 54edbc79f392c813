/** Strict UTF-8, as Python's `bytes.decode("utf8")` applies it: a byte sequence decodes only
    if it is a concatenation of well-formed sequences (no overlong forms, no surrogates, nothing
    above U+10FFFF); otherwise decoding raises. Encoding is given as the partner of decoding. */
module Utf8 {
  import opened Outcomes

  type byte = x: int | 0 <= x < 256

  predicate IsContinuation(b: byte) {
    0x80 <= b < 0xC0
  }

  /** The admissible second bytes of a three-byte sequence led by `b0`. */
  predicate SecondOfThree(b0: byte, b1: byte) {
    if b0 == 0xE0 then 0xA0 <= b1 < 0xC0
    else if b0 == 0xED then 0x80 <= b1 < 0xA0
    else IsContinuation(b1)
  }

  /** The admissible second bytes of a four-byte sequence led by `b0`. */
  predicate SecondOfFour(b0: byte, b1: byte) {
    if b0 == 0xF0 then 0x90 <= b1 < 0xC0
    else if b0 == 0xF4 then 0x80 <= b1 < 0x90
    else IsContinuation(b1)
  }

  /** The length of the well-formed sequence at the front of `bs`, or 0 if there is none. */
  function SequenceLength(bs: seq<byte>): (n: nat)
    ensures n <= 4 && n <= |bs|
  {
    if |bs| == 0 then 0
    else if bs[0] < 0x80 then 1
    else if 0xC2 <= bs[0] < 0xE0 then
      (if |bs| >= 2 && IsContinuation(bs[1]) then 2 else 0)
    else if 0xE0 <= bs[0] < 0xF0 then
      (if |bs| >= 3 && SecondOfThree(bs[0], bs[1]) && IsContinuation(bs[2]) then 3 else 0)
    else if 0xF0 <= bs[0] < 0xF5 then
      (if |bs| >= 4 && SecondOfFour(bs[0], bs[1]) && IsContinuation(bs[2]) && IsContinuation(bs[3])
       then 4 else 0)
    else 0
  }

  predicate IsScalarValue(v: int) {
    0 <= v < 0xD800 || 0xE000 <= v < 0x11_0000
  }

  /** The scalar value the well-formed sequence at the front of `bs` encodes. */
  function ScalarAt(bs: seq<byte>): (v: int)
    requires SequenceLength(bs) > 0
    ensures IsScalarValue(v)
  {
    var n := SequenceLength(bs);
    var b0 := bs[0] as int;
    if n == 1 then b0
    else if n == 2 then (b0 - 0xC0) * 64 + (bs[1] as int - 0x80)
    else if n == 3 then (b0 - 0xE0) * 4096 + (bs[1] as int - 0x80) * 64 + (bs[2] as int - 0x80)
    else
      (b0 - 0xF0) * 262144 + (bs[1] as int - 0x80) * 4096 + (bs[2] as int - 0x80) * 64
      + (bs[3] as int - 0x80)
  }

  /** `bs.decode("utf8")`: `None` where Python raises `UnicodeDecodeError`. */
  function Decode(bs: seq<byte>): Option<string>
    decreases |bs|
  {
    if bs == [] then Some("")
    else
      var n := SequenceLength(bs);
      if n == 0 then None
      else
        match Decode(bs[n..])
        case None => None
        case Some(rest) => Some([ScalarAt(bs) as char] + rest)
  }

  /** The UTF-8 encoding of one scalar value. */
  function EncodeScalar(v: int): (bs: seq<byte>)
    requires IsScalarValue(v)
    ensures 1 <= |bs| <= 4
  {
    if v < 0x80 then [v]
    else if v < 0x800 then [0xC0 + v / 64, 0x80 + v % 64]
    else if v < 0x1_0000 then [0xE0 + v / 4096, 0x80 + (v / 64) % 64, 0x80 + v % 64]
    else [0xF0 + v / 262144, 0x80 + (v / 4096) % 64, 0x80 + (v / 64) % 64, 0x80 + v % 64]
  }

  /** `s.encode("utf8")`. */
  function Encode(s: string): seq<byte>
    decreases |s|
  {
    if s == [] then [] else EncodeScalar(s[0] as int) + Encode(s[1..])
  }

  /** One encoded scalar value is a well-formed sequence that decodes to that value. */
  lemma EncodeScalarIsWellFormed(v: int, rest: seq<byte>)
    requires IsScalarValue(v)
    ensures SequenceLength(EncodeScalar(v) + rest) == |EncodeScalar(v)|
    ensures ScalarAt(EncodeScalar(v) + rest) == v
  {
    var e := EncodeScalar(v);
    var bs := e + rest;
    assert bs[..|e|] == e;
    if v < 0x80 {
    } else if v < 0x800 {
      EncodeTwo(v);
    } else if v < 0x1_0000 {
      EncodeThree(v);
    } else {
      EncodeFour(v);
    }
  }

  lemma EncodeTwo(v: int)
    requires 0x80 <= v < 0x800
    ensures var e := EncodeScalar(v); 0xC2 <= e[0] < 0xE0 && IsContinuation(e[1])
    ensures var e := EncodeScalar(v); (e[0] as int - 0xC0) * 64 + (e[1] as int - 0x80) == v
  {
  }

  lemma EncodeThree(v: int)
    requires 0x800 <= v < 0x1_0000 && IsScalarValue(v)
    ensures var e := EncodeScalar(v);
      0xE0 <= e[0] < 0xF0 && SecondOfThree(e[0], e[1]) && IsContinuation(e[2])
    ensures var e := EncodeScalar(v);
      (e[0] as int - 0xE0) * 4096 + (e[1] as int - 0x80) * 64 + (e[2] as int - 0x80) == v
  {
    var hi, mid, lo := v / 4096, (v / 64) % 64, v % 64;
    assert v == hi * 4096 + mid * 64 + lo;
    assert hi == 0 ==> mid >= 32;
    assert hi == 13 ==> mid < 32;
  }

  lemma EncodeFour(v: int)
    requires 0x1_0000 <= v < 0x11_0000
    ensures var e := EncodeScalar(v);
      0xF0 <= e[0] < 0xF5 && SecondOfFour(e[0], e[1]) && IsContinuation(e[2]) && IsContinuation(e[3])
    ensures var e := EncodeScalar(v);
      (e[0] as int - 0xF0) * 262144 + (e[1] as int - 0x80) * 4096 + (e[2] as int - 0x80) * 64
      + (e[3] as int - 0x80) == v
  {
    var b0, b1, b2, b3 := v / 262144, (v / 4096) % 64, (v / 64) % 64, v % 64;
    FourDigits(v);
    assert b0 == 0 ==> b1 >= 16;
    assert b0 == 4 ==> b1 < 16;
  }

  /** `v` in base 64, four digits. */
  lemma FourDigits(v: int)
    requires 0 <= v < 0x11_0000
    ensures v == (v / 262144) * 262144 + ((v / 4096) % 64) * 4096 + ((v / 64) % 64) * 64 + v % 64
    ensures 0 <= v / 262144 <= 4
  {
    var q := v / 64;
    assert v == q * 64 + v % 64;
    var q2 := q / 64;
    assert q == q2 * 64 + q % 64;
    assert q2 == v / 4096;
    assert q2 == (q2 / 64) * 64 + q2 % 64;
    assert q2 / 64 == v / 262144;
  }

  /** Re-encoding the scalar value of a well-formed sequence gives back its bytes. */
  lemma ScalarAtReencodes(bs: seq<byte>)
    requires SequenceLength(bs) > 0
    ensures EncodeScalar(ScalarAt(bs)) == bs[..SequenceLength(bs)]
  {
    var n := SequenceLength(bs);
    if n == 2 {
      ReencodeTwo(bs[0], bs[1]);
    } else if n == 3 {
      ReencodeThree(bs[0], bs[1], bs[2]);
    } else if n == 4 {
      ReencodeFour(bs[0], bs[1], bs[2], bs[3]);
    }
  }

  lemma ReencodeTwo(b0: byte, b1: byte)
    requires 0xC2 <= b0 < 0xE0 && IsContinuation(b1)
    ensures var v := (b0 as int - 0xC0) * 64 + (b1 as int - 0x80);
      IsScalarValue(v) && EncodeScalar(v) == [b0, b1]
  {
  }

  lemma ReencodeThree(b0: byte, b1: byte, b2: byte)
    requires 0xE0 <= b0 < 0xF0 && SecondOfThree(b0, b1) && IsContinuation(b2)
    ensures var v := (b0 as int - 0xE0) * 4096 + (b1 as int - 0x80) * 64 + (b2 as int - 0x80);
      IsScalarValue(v) && EncodeScalar(v) == [b0, b1, b2]
  {
    var hi: int := b0 as int - 0xE0;
    var mid: int := b1 as int - 0x80;
    var lo: int := b2 as int - 0x80;
    var v := hi * 4096 + mid * 64 + lo;
    assert v / 64 == hi * 64 + mid && v % 64 == lo;
    assert v / 4096 == hi && (v / 64) % 64 == mid;
  }

  lemma ReencodeFour(b0: byte, b1: byte, b2: byte, b3: byte)
    requires 0xF0 <= b0 < 0xF5 && SecondOfFour(b0, b1) && IsContinuation(b2) && IsContinuation(b3)
    ensures var v := (b0 as int - 0xF0) * 262144 + (b1 as int - 0x80) * 4096
      + (b2 as int - 0x80) * 64 + (b3 as int - 0x80);
      IsScalarValue(v) && EncodeScalar(v) == [b0, b1, b2, b3]
  {
    var c0: int := b0 as int - 0xF0;
    var c1: int := b1 as int - 0x80;
    var c2: int := b2 as int - 0x80;
    var c3: int := b3 as int - 0x80;
    var v := c0 * 262144 + c1 * 4096 + c2 * 64 + c3;
    assert v / 64 == c0 * 4096 + c1 * 64 + c2 && v % 64 == c3;
    assert v / 4096 == c0 * 64 + c1 && (v / 64) % 64 == c2;
    assert v / 262144 == c0 && (v / 4096) % 64 == c1;
  }

  /** Decoding undoes encoding. */
  lemma {:induction false} DecodeEncode(s: string)
    ensures Decode(Encode(s)) == Some(s)
    decreases |s|
  {
    if s != [] {
      var e, t := EncodeScalar(s[0] as int), Encode(s[1..]);
      EncodeScalarIsWellFormed(s[0] as int, t);
      assert Encode(s) == e + t;
      assert (e + t)[|e|..] == t;
      assert Decode(t) == Some(s[1..]) by {
        DecodeEncode(s[1..]);
      }
      assert [s[0]] + s[1..] == s;
    }
  }

  /** Whatever decodes, re-encodes to the same bytes. */
  lemma {:induction false} EncodeDecode(bs: seq<byte>)
    requires Decode(bs).Some?
    ensures Encode(Decode(bs).value) == bs
    decreases |bs|
  {
    if bs != [] {
      var n := SequenceLength(bs);
      EncodeDecodeStep(bs);
      var rest := bs[n..];
      assert Encode(Decode(rest).value) == rest by {
        EncodeDecode(rest);
      }
      TakeDropJoin(bs, n);
    }
  }

  lemma TakeDropJoin(bs: seq<byte>, n: nat)
    requires n <= |bs|
    ensures bs[..n] + bs[n..] == bs
  {
  }

  /** Re-encoding the first decoded character gives back the first well-formed sequence. */
  lemma EncodeDecodeStep(bs: seq<byte>)
    requires bs != [] && Decode(bs).Some?
    ensures SequenceLength(bs) > 0 && Decode(bs[SequenceLength(bs)..]).Some?
    ensures Encode(Decode(bs).value) == bs[..SequenceLength(bs)] + Encode(Decode(bs[SequenceLength(bs)..]).value)
  {
    var n := SequenceLength(bs);
    var v := ScalarAt(bs);
    var tail := Decode(bs[n..]).value;
    ScalarAtReencodes(bs);
    assert Decode(bs).value == [v as char] + tail;
    EncodeCons(v as char, tail);
  }

  lemma EncodeCons(c: char, t: string)
    ensures Encode([c] + t) == EncodeScalar(c as int) + Encode(t)
  {
    assert ([c] + t)[1..] == t;
  }

  /** Pure ASCII decodes to itself, one character per byte. */
  lemma {:induction false} DecodeAscii(bs: seq<byte>)
    requires forall i :: 0 <= i < |bs| ==> bs[i] < 0x80
    ensures Decode(bs).Some? && |Decode(bs).value| == |bs|
    ensures forall i :: 0 <= i < |bs| ==> Decode(bs).value[i] as int == bs[i]
    decreases |bs|
  {
    if bs != [] {
      DecodeAscii(bs[1..]);
    }
  }
}
