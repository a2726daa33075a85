/** UTF-8 as RFC 3629 defines it: what `encodeURIComponent` writes before
    percent-encoding, and what `decodeURIComponent` accepts after it (a
    malformed, overlong, surrogate or out-of-range sequence is a `URIError`). */
module Utf8 {
  import opened Wrappers

  type byte = b: int | 0 <= b < 256

  predicate IsContinuation(b: byte) {
    0x80 <= b < 0xC0
  }

  /** The bytes of one Unicode scalar value. */
  function EncodeChar(c: char): (bs: seq<byte>)
    ensures 1 <= |bs| <= 4
  {
    var n := c as int;
    if n < 0x80 then [n]
    else if n < 0x800 then [0xC0 + n / 64, 0x80 + n % 64]
    else if n < 0x10000 then [0xE0 + n / 4096, 0x80 + (n / 64) % 64, 0x80 + n % 64]
    else [0xF0 + n / 262144, 0x80 + (n / 4096) % 64, 0x80 + (n / 64) % 64, 0x80 + n % 64]
  }

  function Encode(s: string): seq<byte> {
    if s == [] then [] else EncodeChar(s[0]) + Encode(s[1..])
  }

  /** The length a sequence starting with `b` claims, or 0 for a byte no
      sequence starts with. */
  function SequenceLength(b: byte): nat {
    if b < 0x80 then 1
    else if 0xC0 <= b < 0xE0 then 2
    else if 0xE0 <= b < 0xF0 then 3
    else if 0xF0 <= b < 0xF8 then 4
    else 0
  }

  predicate IsScalarValue(v: int) {
    (0 <= v < 0xD800) || (0xE000 <= v < 0x11_0000)
  }

  /** The scalar value the first `n` bytes of `bs` encode, if they encode one
      in the shortest form. */
  function DecodeFirst(bs: seq<byte>): (r: Option<(char, nat)>)
    ensures r.Some? ==> 1 <= r.value.1 <= |bs|
  {
    if bs == [] then None
    else
      var n := SequenceLength(bs[0]);
      if n == 0 || |bs| < n then None
      else if !ContinuationsFollow(bs, n) then None
      else
        var v: int := ScalarOf(bs, n);
        var least: int := if n == 1 then 0 else if n == 2 then 0x80 else if n == 3 then 0x800 else 0x10000;
        if v < least || !IsScalarValue(v) then None
        else Some((v as char, n))
  }

  /** The bytes after the first of an `n`-byte sequence are all
      continuation bytes. */
  predicate ContinuationsFollow(bs: seq<byte>, n: nat)
    requires n <= |bs|
  {
    && (n < 2 || IsContinuation(bs[1]))
    && (n < 3 || IsContinuation(bs[2]))
    && (n < 4 || IsContinuation(bs[3]))
  }

  /** The payload bits of an `n`-byte sequence. */
  function ScalarOf(bs: seq<byte>, n: nat): int
    requires 1 <= n <= 4 && n <= |bs|
  {
    var b0, b1, b2, b3 := bs[0] as int, Byte(bs, 1), Byte(bs, 2), Byte(bs, 3);
    if n == 1 then b0
    else if n == 2 then (b0 - 0xC0) * 64 + (b1 - 0x80)
    else if n == 3 then (b0 - 0xE0) * 4096 + (b1 - 0x80) * 64 + (b2 - 0x80)
    else (b0 - 0xF0) * 262144 + (b1 - 0x80) * 4096 + (b2 - 0x80) * 64 + (b3 - 0x80)
  }

  function Byte(bs: seq<byte>, i: nat): int {
    if i < |bs| then bs[i] as int else 0
  }

  /** The text `bs` encodes, or `None` when it is not well-formed UTF-8. */
  function Decode(bs: seq<byte>): Option<string>
    decreases |bs|
  {
    if bs == [] then Some([])
    else match DecodeFirst(bs)
      case None => None
      case Some((c, n)) =>
        match Decode(bs[n..])
        case None => None
        case Some(rest) => Some([c] + rest)
  }

  lemma DecodeFirstOfTwo(c: char, rest: seq<byte>)
    requires 0x80 <= c as int < 0x800
    ensures DecodeFirst(EncodeChar(c) + rest) == Some((c, 2))
  {
    var n := c as int;
    var bs := EncodeChar(c) + rest;
    assert bs[0] == 0xC0 + n / 64 && bs[1] == 0x80 + n % 64;
    assert ScalarOf(bs, 2) == n;
  }

  lemma DecodeFirstOfThree(c: char, rest: seq<byte>)
    requires 0x800 <= c as int < 0x10000
    ensures DecodeFirst(EncodeChar(c) + rest) == Some((c, 3))
  {
    var n := c as int;
    var bs := EncodeChar(c) + rest;
    assert bs[0] == 0xE0 + n / 4096 && bs[1] == 0x80 + (n / 64) % 64 && bs[2] == 0x80 + n % 64;
    assert (n / 64) % 64 + 64 * (n / 4096) == n / 64;
    assert ScalarOf(bs, 3) == n;
  }

  lemma DecodeFirstOfFour(c: char, rest: seq<byte>)
    requires 0x10000 <= c as int
    ensures DecodeFirst(EncodeChar(c) + rest) == Some((c, 4))
  {
    var n := c as int;
    var bs := EncodeChar(c) + rest;
    assert bs[0] == 0xF0 + n / 262144 && bs[1] == 0x80 + (n / 4096) % 64;
    assert bs[2] == 0x80 + (n / 64) % 64 && bs[3] == 0x80 + n % 64;
    SplitFour(n);
  }

  /** The four six-bit (and three-bit) fields of a four-byte sequence put
      back together. */
  lemma SplitFour(n: int)
    requires 0 <= n
    ensures (n / 262144) * 262144 + ((n / 4096) % 64) * 4096 + ((n / 64) % 64) * 64 + n % 64 == n
  {
    var a := n / 64;
    var b := a / 64;
    NestedDiv(n);
    assert n == 64 * a + n % 64;
    assert a == 64 * b + a % 64;
    assert b == 64 * (b / 64) + b % 64;
  }

  /** Dividing by 4096 or 262144 is dividing by 64 two or three times. */
  lemma NestedDiv(n: int)
    requires 0 <= n
    ensures n / 4096 == (n / 64) / 64 && n / 262144 == ((n / 64) / 64) / 64
  {
  }

  /** Decoding the start of an encoding gives back the character and the
      length of its sequence. */
  lemma DecodeFirstOfEncodeChar(c: char, rest: seq<byte>)
    ensures DecodeFirst(EncodeChar(c) + rest) == Some((c, |EncodeChar(c)|))
  {
    var n := c as int;
    if n < 0x80 {
    } else if n < 0x800 {
      DecodeFirstOfTwo(c, rest);
    } else if n < 0x10000 {
      DecodeFirstOfThree(c, rest);
    } else {
      DecodeFirstOfFour(c, rest);
    }
  }

  /** Every string survives UTF-8 encoding and decoding, non-ASCII text
      (CJK card titles, say) included. */
  lemma {:induction false} RoundTrip(s: string)
    ensures Decode(Encode(s)) == Some(s)
  {
    if s != [] {
      var head := EncodeChar(s[0]);
      var tail := Encode(s[1..]);
      DecodeFirstOfEncodeChar(s[0], tail);
      assert (head + tail)[|head|..] == tail;
      RoundTrip(s[1..]);
      assert [s[0]] + s[1..] == s;
    }
  }

  lemma DivTwo(b0: int, b1: int)
    requires 0 <= b0 && 0 <= b1 < 64
    ensures (b0 * 64 + b1) / 64 == b0 && (b0 * 64 + b1) % 64 == b1
  {
  }

  lemma DivThree(b0: int, b1: int, b2: int)
    requires 0 <= b0 < 16 && 0 <= b1 < 64 && 0 <= b2 < 64
    ensures var v := b0 * 4096 + b1 * 64 + b2;
      v / 4096 == b0 && (v / 64) % 64 == b1 && v % 64 == b2
  {
    var v := b0 * 4096 + b1 * 64 + b2;
    assert v == (b0 * 64 + b1) * 64 + b2;
    DivTwo(b0 * 64 + b1, b2);
  }

  lemma DivFour(b0: int, b1: int, b2: int, b3: int)
    requires 0 <= b0 < 8 && 0 <= b1 < 64 && 0 <= b2 < 64 && 0 <= b3 < 64
    ensures var v := b0 * 262144 + b1 * 4096 + b2 * 64 + b3;
      v / 262144 == b0 && (v / 4096) % 64 == b1 && (v / 64) % 64 == b2 && v % 64 == b3
  {
    var v := b0 * 262144 + b1 * 4096 + b2 * 64 + b3;
    var w := b0 * 4096 + b1 * 64 + b2;
    assert v == w * 64 + b3;
    assert w * 64 + b3 < 64 * (w + 1);
    assert v / 64 == w && v % 64 == b3;
    DivThree(b0, b1, b2);
    assert v / 4096 == w / 64 by {
      assert v == (w / 64) * 4096 + (w % 64) * 64 + b3;
    }
    assert v / 262144 == w / 4096 by {
      assert v == (w / 4096) * 262144 + (w % 4096) * 64 + b3;
    }
  }

  lemma EncodeCharOfDecodeFirst(bs: seq<byte>)
    requires DecodeFirst(bs).Some?
    ensures var (c, n) := DecodeFirst(bs).value; EncodeChar(c) == bs[..n]
  {
    var n := DecodeFirst(bs).value.1;
    if n == 2 {
      EncodeOfDecodedTwo(bs);
    } else if n == 3 {
      EncodeOfDecodedThree(bs);
    } else if n == 4 {
      EncodeOfDecodedFour(bs);
    }
  }

  lemma EncodeOfDecodedTwo(bs: seq<byte>)
    requires DecodeFirst(bs).Some? && DecodeFirst(bs).value.1 == 2
    ensures EncodeChar(DecodeFirst(bs).value.0) == bs[..2]
  {
    assert IsContinuation(bs[1]);
    DivTwo(bs[0] - 0xC0, bs[1] - 0x80);
  }

  lemma EncodeOfDecodedThree(bs: seq<byte>)
    requires DecodeFirst(bs).Some? && DecodeFirst(bs).value.1 == 3
    ensures EncodeChar(DecodeFirst(bs).value.0) == bs[..3]
  {
    assert IsContinuation(bs[1]) && IsContinuation(bs[2]);
    DivThree(bs[0] - 0xE0, bs[1] - 0x80, bs[2] - 0x80);
  }

  lemma EncodeOfDecodedFour(bs: seq<byte>)
    requires DecodeFirst(bs).Some? && DecodeFirst(bs).value.1 == 4
    ensures EncodeChar(DecodeFirst(bs).value.0) == bs[..4]
  {
    assert IsContinuation(bs[1]) && IsContinuation(bs[2]) && IsContinuation(bs[3]);
    DivFour(bs[0] - 0xF0, bs[1] - 0x80, bs[2] - 0x80, bs[3] - 0x80);
  }

  /** One step of `Decode`: the first character, then the rest. */
  lemma DecodeStep(bs: seq<byte>)
    requires bs != [] && Decode(bs).Some?
    ensures DecodeFirst(bs).Some?
    ensures var n := DecodeFirst(bs).value.1;
      Decode(bs[n..]).Some? && Decode(bs).value == [DecodeFirst(bs).value.0] + Decode(bs[n..]).value
  {
  }

  /** Decoding accepts only the canonical encoding: whatever decodes encodes
      back to exactly the same bytes, so overlong forms are rejected. */
  lemma DecodeCanonical(bs: seq<byte>)
    requires Decode(bs).Some?
    ensures Encode(Decode(bs).value) == bs
  {
    EncodesBack(bs, Decode(bs).value);
  }

  lemma {:induction false} EncodesBack(bs: seq<byte>, s: string)
    requires Decode(bs) == Some(s)
    ensures Encode(s) == bs
    decreases |bs|
  {
    if bs != [] {
      var c, n, tail := DecodeParts(bs, s);
      EncodesBack(bs[n..], tail);
      EncodeSplit(bs, c, n, tail);
    }
  }

  /** A text decoded from bytes is its first character, encoded as the first
      `n` of them, before the text decoded from the rest. */
  lemma DecodeParts(bs: seq<byte>, s: string) returns (c: char, n: nat, tail: string)
    requires bs != [] && Decode(bs) == Some(s)
    ensures 1 <= n <= |bs| && s == [c] + tail
    ensures EncodeChar(c) == bs[..n] && Decode(bs[n..]) == Some(tail)
  {
    DecodeStep(bs);
    c, n := DecodeFirst(bs).value.0, DecodeFirst(bs).value.1;
    tail := Decode(bs[n..]).value;
    EncodeCharOfDecodeFirst(bs);
  }

  /** A character encoded as the first `n` bytes, in front of a text encoded
      as the others, is encoded as all of them. */
  lemma EncodeSplit(bs: seq<byte>, c: char, n: nat, tail: string)
    requires n <= |bs| && EncodeChar(c) == bs[..n] && Encode(tail) == bs[n..]
    ensures Encode([c] + tail) == bs
  {
    EncodeCons(c, tail);
    assert bs == bs[..n] + bs[n..];
  }

  lemma EncodeCons(c: char, tail: string)
    ensures Encode([c] + tail) == EncodeChar(c) + Encode(tail)
  {
    assert ([c] + tail)[1..] == tail;
  }

}
