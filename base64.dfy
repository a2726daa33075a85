/** Base64 with the alphabet and padding of section 4 of RFC 4648: `btoa`
    encodes a byte string this way, and `atob` decodes with the WHATWG
    "forgiving-base64 decode" (ASCII white space ignored, padding optional,
    leftover bits of the last character dropped). */
module Base64 {
  import opened Wrappers
  import opened Utf8

  /** A six-bit group, the unit the alphabet encodes. */
  type Sextet = x: int | 0 <= x < 64

  /** The character of a six-bit group. */
  function SextetChar(i: Sextet): (c: char)
    ensures IsBase64Char(c)
  {
    if i < 26 then ('A' as int + i) as char
    else if i < 52 then ('a' as int + i - 26) as char
    else if i < 62 then ('0' as int + i - 52) as char
    else if i == 62 then '+'
    else '/'
  }

  predicate IsBase64Char(c: char) {
    ('A' <= c <= 'Z') || ('a' <= c <= 'z') || ('0' <= c <= '9') || c == '+' || c == '/'
  }

  /** The six-bit group of a character of the alphabet (`atob` rejects any
      other character before it decodes, so their value is never used). */
  function SextetValue(c: char): Sextet {
    if 'A' <= c <= 'Z' then c as int - 'A' as int
    else if 'a' <= c <= 'z' then c as int - 'a' as int + 26
    else if '0' <= c <= '9' then c as int - '0' as int + 52
    else if c == '+' then 62
    else if c == '/' then 63
    else 0
  }

  lemma SextetRoundTrip(i: Sextet)
    ensures SextetValue(SextetChar(i)) == i
  {
  }

  /** The six-bit groups of a byte string: four for every three bytes, and
      two or three for a final one or two bytes, whose last group is filled
      up with zero bits. */
  function Sextets(bs: seq<byte>): (xs: seq<Sextet>)
    ensures |xs| == UnpaddedSize(|bs|)
  {
    if |bs| >= 3 then
      [bs[0] / 4, (bs[0] % 4) * 16 + bs[1] / 16, (bs[1] % 16) * 4 + bs[2] / 64, bs[2] % 64] + Sextets(bs[3..])
    else if |bs| == 2 then [bs[0] / 4, (bs[0] % 4) * 16 + bs[1] / 16, (bs[1] % 16) * 4]
    else if |bs| == 1 then [bs[0] / 4, (bs[0] % 4) * 16]
    else []
  }

  /** The characters of a run of six-bit groups. */
  function Chars(xs: seq<Sextet>): (s: string)
    ensures |s| == |xs|
  {
    seq(|xs|, i requires 0 <= i < |xs| => SextetChar(xs[i]))
  }

  /** The six-bit groups of a run of characters. */
  function Values(s: string): (xs: seq<Sextet>)
    ensures |xs| == |s|
  {
    seq(|s|, i requires 0 <= i < |s| => SextetValue(s[i]))
  }

  /** Reading the characters back gives the six-bit groups. */
  lemma ValuesOfChars(xs: seq<Sextet>)
    ensures Values(Chars(xs)) == xs
  {
    forall i | 0 <= i < |xs| ensures Values(Chars(xs))[i] == xs[i] {
      SextetRoundTrip(xs[i]);
    }
  }

  /** The characters of the encoding before its padding. */
  function EncodeUnpadded(bs: seq<byte>): (s: string)
    ensures |s| == UnpaddedSize(|bs|)
    ensures forall i :: 0 <= i < |s| ==> IsBase64Char(s[i])
  {
    Chars(Sextets(bs))
  }

  /** Four characters per three bytes, and one more character than bytes in
      a final short group. */
  function UnpaddedSize(n: nat): nat {
    if n >= 3 then 4 + UnpaddedSize(n - 3) else if n == 0 then 0 else n + 1
  }

  /** With its padding the encoding fills whole groups of four. */
  lemma {:induction false} PaddedSize(n: nat)
    ensures (UnpaddedSize(n) + |Padding(n)|) % 4 == 0
  {
    if n >= 3 {
      PaddedSize(n - 3);
      assert (n - 3) % 3 == n % 3;
    }
  }

  function Padding(n: nat): string {
    if n % 3 == 1 then "==" else if n % 3 == 2 then "=" else ""
  }

  /** `btoa` of a byte string. */
  function Encode(bs: seq<byte>): (s: string)
    ensures |s| % 4 == 0
  {
    PaddedSize(|bs|);
    EncodeUnpadded(bs) + Padding(|bs|)
  }

  /** The ASCII white space `atob` skips. */
  predicate IsAsciiWhitespace(c: char) {
    c == '\t' || c == '\n' || c == '\U{000C}' || c == '\r' || c == ' '
  }

  function RemoveWhitespace(s: string): (r: string)
    ensures forall i :: 0 <= i < |r| ==> !IsAsciiWhitespace(r[i])
  {
    if s == [] then []
    else if IsAsciiWhitespace(s[0]) then RemoveWhitespace(s[1..])
    else [s[0]] + RemoveWhitespace(s[1..])
  }

  /** When the length is a multiple of four, one or two trailing `=` go. */
  function StripPadding(s: string): string {
    if |s| % 4 == 0 && |s| >= 2 && s[|s| - 2..] == "==" then s[..|s| - 2]
    else if |s| % 4 == 0 && |s| >= 1 && s[|s| - 1] == '=' then s[..|s| - 1]
    else s
  }

  /** Three bytes from four six-bit groups. */
  function DecodeQuad(s0: Sextet, s1: Sextet, s2: Sextet, s3: Sextet): seq<byte> {
    [s0 * 4 + s1 / 16, (s1 % 16) * 16 + s2 / 4, (s2 % 4) * 64 + s3]
  }

  /** The bytes of a run of six-bit groups, three for every four; a final
      two or three groups give one or two bytes and their leftover bits are
      dropped. */
  function Bytes(xs: seq<Sextet>): seq<byte> {
    if |xs| >= 4 then DecodeQuad(xs[0], xs[1], xs[2], xs[3]) + Bytes(xs[4..])
    else if |xs| >= 2 then
      var x0, x1: int := xs[0], xs[1];
      var b0: byte := x0 * 4 + x1 / 16;
      if |xs| == 3 then
        var x2: int := xs[2];
        var b1: byte := (x1 % 16) * 16 + x2 / 4;
        [b0, b1]
      else [b0]
    else []
  }

  /** `atob`: `None` where it throws `InvalidCharacterError`. */
  function Decode(text: string): Option<seq<byte>> {
    var s := StripPadding(RemoveWhitespace(text));
    if |s| % 4 == 1 then None
    else if exists i :: 0 <= i < |s| && !IsBase64Char(s[i]) then None
    else Some(Bytes(Values(s)))
  }

  /** Three bytes come back from their four six-bit groups. */
  lemma GroupRoundTrip(b0: byte, b1: byte, b2: byte)
    ensures DecodeQuad(b0 / 4, (b0 % 4) * 16 + b1 / 16, (b1 % 16) * 4 + b2 / 64, b2 % 64) == [b0, b1, b2]
  {
    var s1, s2 := (b0 % 4) * 16 + b1 / 16, (b1 % 16) * 4 + b2 / 64;
    assert s1 / 16 == b0 % 4 && s1 % 16 == b1 / 16;
    assert s2 / 4 == b1 % 16 && s2 % 4 == b2 / 64;
  }

  /** A final one or two bytes come back from their six-bit groups. */
  lemma TailRoundTrip(bs: seq<byte>)
    requires |bs| < 3
    ensures Bytes(Sextets(bs)) == bs
  {
    if |bs| == 2 {
      assert bs == [bs[0], bs[1]];
      PairRoundTrip(bs[0], bs[1]);
    } else if |bs| == 1 {
      assert bs == [bs[0]];
      SingleRoundTrip(bs[0]);
    }
  }

  lemma PairRoundTrip(b0: byte, b1: byte)
    ensures Bytes(Sextets([b0, b1])) == [b0, b1]
  {
    var x1 := (b0 % 4) * 16 + b1 / 16;
    assert Sextets([b0, b1]) == [b0 / 4, x1, (b1 % 16) * 4];
    assert x1 / 16 == b0 % 4 && x1 % 16 == b1 / 16;
  }

  lemma SingleRoundTrip(b0: byte)
    ensures Bytes(Sextets([b0])) == [b0]
  {
    assert Sextets([b0]) == [b0 / 4, (b0 % 4) * 16];
  }

  /** The six-bit groups of a byte string decode to that byte string. */
  lemma {:induction false} SextetsRoundTrip(bs: seq<byte>)
    ensures Bytes(Sextets(bs)) == bs
  {
    if |bs| >= 3 {
      var xs := Sextets(bs);
      assert xs[4..] == Sextets(bs[3..]);
      SextetsRoundTrip(bs[3..]);
      GroupRoundTrip(bs[0], bs[1], bs[2]);
      assert bs == [bs[0], bs[1], bs[2]] + bs[3..];
    } else {
      TailRoundTrip(bs);
    }
  }

  lemma {:induction false} RemoveWhitespaceOfClean(s: string)
    requires forall i :: 0 <= i < |s| ==> !IsAsciiWhitespace(s[i])
    ensures RemoveWhitespace(s) == s
  {
    if s != [] {
      RemoveWhitespaceOfClean(s[1..]);
    }
  }

  /** The length of the unpadded encoding of `n` bytes, divided by four,
      leaves 0, 2 or 3 as `n` divided by three leaves 0, 1 or 2. */
  lemma {:induction false} UnpaddedSizeMod(n: nat)
    ensures UnpaddedSize(n) % 4 == (if n % 3 == 0 then 0 else n % 3 + 1)
  {
    if n >= 3 {
      UnpaddedSizeMod(n - 3);
      assert (n - 3) % 3 == n % 3;
    }
  }

  lemma StripPaddingOfPadded(u: string, n: nat)
    requires |u| == UnpaddedSize(n)
    requires forall i :: 0 <= i < |u| ==> IsBase64Char(u[i])
    ensures StripPadding(u + Padding(n)) == u
  {
    UnpaddedSizeMod(n);
    if n % 3 == 1 {
      StripTwo(u);
    } else if n % 3 == 2 {
      StripOne(u);
    } else {
      assert u + Padding(n) == u;
      if |u| >= 2 {
        assert u[|u| - 2..][1] == u[|u| - 1];
      }
    }
  }

  /** Two `=` go when the characters before them fill out a group. */
  lemma StripTwo(u: string)
    requires |u| % 4 == 2
    ensures StripPadding(u + "==") == u
  {
    var e := u + "==";
    assert e[|e| - 2..] == "==";
    assert e[..|e| - 2] == u;
  }

  /** One `=` goes after a character of the alphabet. */
  lemma StripOne(u: string)
    requires |u| % 4 == 3 && IsBase64Char(u[|u| - 1])
    ensures StripPadding(u + "=") == u
  {
    var e := u + "=";
    assert e[|e| - 2] == u[|u| - 1];
    assert e[|e| - 2..] != "==";
    assert e[..|e| - 1] == u;
  }

  lemma StripPaddingOfEncode(bs: seq<byte>)
    ensures StripPadding(Encode(bs)) == EncodeUnpadded(bs)
  {
    StripPaddingOfPadded(EncodeUnpadded(bs), |bs|);
  }

  /** `atob(btoa(bytes))` gives the bytes back. */
  lemma RoundTrip(bs: seq<byte>)
    ensures Decode(Encode(bs)) == Some(bs)
  {
    var u := EncodeUnpadded(bs);
    var e := Encode(bs);
    forall i | 0 <= i < |e| ensures !IsAsciiWhitespace(e[i]) {
      if i >= |u| {
        assert e[i] == '=';
      }
    }
    RemoveWhitespaceOfClean(e);
    StripPaddingOfEncode(bs);
    assert StripPadding(RemoveWhitespace(e)) == u;
    UnpaddedLength(bs);
    assert !exists i :: 0 <= i < |u| && !IsBase64Char(u[i]);
    ValuesOfChars(Sextets(bs));
    SextetsRoundTrip(bs);
  }

  lemma UnpaddedLength(bs: seq<byte>)
    ensures |EncodeUnpadded(bs)| % 4 != 1
  {
    UnpaddedSizeMod(|bs|);
  }
}
