/** Percent-encoding as section 2.1 of RFC 3986 defines it, in the form of
    `encodeURIComponent`, and `encodePath` of background.js, which encodes a
    repository path one `/`-separated segment at a time. */
module UriEncoding {
  import opened Wrappers
  import Utf8

  /** The characters `encodeURIComponent` leaves alone: ASCII letters and
      digits and `-_.!~*'()`. */
  predicate IsUnescaped(c: char) {
    ('A' <= c <= 'Z') || ('a' <= c <= 'z') || ('0' <= c <= '9')
    || c == '-' || c == '_' || c == '.' || c == '!' || c == '~' || c == '*' || c == '\'' || c == '(' || c == ')'
  }

  function HexDigit(d: int): (c: char)
    requires 0 <= d < 16
    ensures IsHexDigit(c)
  {
    if d < 10 then ('0' as int + d) as char else ('A' as int + d - 10) as char
  }

  predicate IsHexDigit(c: char) {
    ('0' <= c <= '9') || ('A' <= c <= 'F') || ('a' <= c <= 'f')
  }

  function HexValue(c: char): (d: int)
    requires IsHexDigit(c)
    ensures 0 <= d < 16
  {
    if '0' <= c <= '9' then c as int - '0' as int
    else if 'A' <= c <= 'F' then c as int - 'A' as int + 10
    else c as int - 'a' as int + 10
  }

  lemma HexRoundTrip(d: int)
    requires 0 <= d < 16
    ensures HexValue(HexDigit(d)) == d
  {
  }

  /** `%XX` escapes, upper-case hexadecimal, for a run of bytes. */
  function PercentBytes(bs: seq<Utf8.byte>): (s: string)
    ensures |s| == 3 * |bs|
  {
    if bs == [] then [] else ['%', HexDigit(bs[0] / 16), HexDigit(bs[0] % 16)] + PercentBytes(bs[1..])
  }

  function EncodeChar(c: char): string {
    if IsUnescaped(c) then [c] else PercentBytes(Utf8.EncodeChar(c))
  }

  /** `encodeURIComponent`. */
  function EncodeComponent(s: string): string {
    if s == [] then [] else EncodeChar(s[0]) + EncodeComponent(s[1..])
  }

  /** What `encodeURIComponent` can write: unreserved characters, `%` and
      hexadecimal digits. */
  predicate IsEncodedChar(c: char) {
    IsUnescaped(c) || c == '%' || IsHexDigit(c)
  }

  lemma {:induction false} PercentAlphabet(bs: seq<Utf8.byte>)
    ensures forall i :: 0 <= i < |PercentBytes(bs)| ==> IsEncodedChar(PercentBytes(bs)[i])
  {
    if bs != [] {
      PercentAlphabet(bs[1..]);
    }
  }

  /** An encoded component holds only characters `encodeURIComponent` writes,
      so in particular no `/`. */
  lemma {:induction false} EncodedAlphabet(s: string)
    ensures forall i :: 0 <= i < |EncodeComponent(s)| ==> IsEncodedChar(EncodeComponent(s)[i])
  {
    if s != [] {
      EncodedAlphabet(s[1..]);
      if !IsUnescaped(s[0]) {
        PercentAlphabet(Utf8.EncodeChar(s[0]));
      }
    }
  }

  /** The bytes a percent-encoded string stands for: an escape is its byte, any
      other character its UTF-8 bytes; a `%` without two hexadecimal digits is
      `None`. `decodeURIComponent` is the UTF-8 decoding of these bytes. */
  function Bytes(s: string): Option<seq<Utf8.byte>> {
    if s == [] then Some([])
    else if s[0] == '%' then
      if |s| >= 3 && IsHexDigit(s[1]) && IsHexDigit(s[2]) then
        match Bytes(s[3..])
        case None => None
        case Some(rest) => Some([HexValue(s[1]) * 16 + HexValue(s[2])] + rest)
      else None
    else
      match Bytes(s[1..])
      case None => None
      case Some(rest) => Some(Utf8.EncodeChar(s[0]) + rest)
  }

  /** `decodeURIComponent`: `None` where it throws `URIError`. */
  function DecodeComponent(s: string): Option<string> {
    match Bytes(s)
    case None => None
    case Some(bs) => Utf8.Decode(bs)
  }

  lemma {:induction false} BytesOfPercent(bs: seq<Utf8.byte>, rest: string, r: seq<Utf8.byte>)
    requires Bytes(rest) == Some(r)
    ensures Bytes(PercentBytes(bs) + rest) == Some(bs + r)
  {
    if bs == [] {
      assert PercentBytes(bs) + rest == rest;
      assert bs + r == r;
    } else {
      var b := bs[0];
      var tail := PercentBytes(bs[1..]) + rest;
      PercentCons(bs, rest);
      BytesOfPercent(bs[1..], rest, r);
      EscapeThen(b, tail, bs[1..] + r);
      ConsTail(bs, r);
    }
  }

  lemma PercentCons(bs: seq<Utf8.byte>, rest: string)
    requires bs != []
    ensures PercentBytes(bs) + rest == ['%', HexDigit(bs[0] / 16), HexDigit(bs[0] % 16)] + (PercentBytes(bs[1..]) + rest)
  {
    assert PercentBytes(bs) == ['%', HexDigit(bs[0] / 16), HexDigit(bs[0] % 16)] + PercentBytes(bs[1..]);
  }

  lemma ConsTail(bs: seq<Utf8.byte>, r: seq<Utf8.byte>)
    requires bs != []
    ensures [bs[0]] + (bs[1..] + r) == bs + r
  {
    assert bs == [bs[0]] + bs[1..];
  }

  /** One escape in front of a decodable string decodes to its byte. */
  lemma EscapeThen(b: Utf8.byte, tail: string, r: seq<Utf8.byte>)
    requires Bytes(tail) == Some(r)
    ensures Bytes(['%', HexDigit(b / 16), HexDigit(b % 16)] + tail) == Some([b] + r)
  {
    var s := ['%', HexDigit(b / 16), HexDigit(b % 16)] + tail;
    assert s[0] == '%' && s[1] == HexDigit(b / 16) && s[2] == HexDigit(b % 16);
    assert s[3..] == tail;
    HexRoundTrip(b / 16);
    HexRoundTrip(b % 16);
  }

  /** The escapes `encodeURIComponent` writes stand for the UTF-8 bytes of its
      input. */
  lemma {:induction false} BytesOfEncoded(s: string)
    ensures Bytes(EncodeComponent(s)) == Some(Utf8.Encode(s))
  {
    if s != [] {
      var c := s[0];
      BytesOfEncoded(s[1..]);
      var rest := EncodeComponent(s[1..]);
      if IsUnescaped(c) {
        assert ([c] + rest)[1..] == rest;
      } else {
        BytesOfPercent(Utf8.EncodeChar(c), rest, Utf8.Encode(s[1..]));
      }
    }
  }

  /** `decodeURIComponent(encodeURIComponent(s)) == s`. */
  lemma ComponentRoundTrip(s: string)
    ensures DecodeComponent(EncodeComponent(s)) == Some(s)
  {
    BytesOfEncoded(s);
    Utf8.RoundTrip(s);
  }

  /** `s.split('/')`: the pieces between slashes, one more than there are
      slashes, an empty string giving one empty piece. */
  function Split(s: string): (parts: seq<string>)
    ensures |parts| >= 1
    ensures forall i :: 0 <= i < |parts| ==> '/' !in parts[i]
  {
    if s == [] then [""]
    else
      var rest := Split(s[1..]);
      if s[0] == '/' then [""] + rest else [[s[0]] + rest[0]] + rest[1..]
  }

  /** `parts.join('/')`. */
  function Join(parts: seq<string>): string
    requires |parts| >= 1
  {
    if |parts| == 1 then parts[0] else parts[0] + "/" + Join(parts[1..])
  }

  lemma {:induction false} JoinSplit(s: string)
    ensures Join(Split(s)) == s
  {
    if s != [] {
      JoinSplit(s[1..]);
      var rest := Split(s[1..]);
      if s[0] == '/' {
        assert Split(s)[1..] == rest;
      } else {
        var parts := Split(s);
        if |rest| == 1 {
          assert Join(parts) == [s[0]] + rest[0];
        } else {
          assert parts[1..] == rest[1..];
          assert Join(rest) == rest[0] + "/" + Join(rest[1..]);
        }
      }
    }
  }

  lemma {:induction false} SplitJoin(parts: seq<string>)
    requires |parts| >= 1
    requires forall i :: 0 <= i < |parts| ==> '/' !in parts[i]
    ensures Split(Join(parts)) == parts
    decreases |parts|, |parts[0]|
  {
    if |parts| == 1 {
      SplitSlashFree(parts[0]);
    } else if parts[0] == [] {
      JoinEmptyFirst(parts);
      SplitJoin(parts[1..]);
      SplitAfterSlash(Join(parts[1..]));
      assert parts == [""] + parts[1..];
    } else {
      var first := parts[0];
      var shorter := [first[1..]] + parts[1..];
      assert shorter[1..] == parts[1..];
      SplitJoin(shorter);
      JoinShorterFirst(parts);
      assert first[0] != '/' by { assert first[0] in first; }
      SplitAfterChar(first[0], Join(shorter));
      RebuildFirst(parts);
    }
  }

  lemma JoinEmptyFirst(parts: seq<string>)
    requires |parts| >= 2 && parts[0] == []
    ensures Join(parts) == "/" + Join(parts[1..])
  {
  }

  lemma SplitAfterSlash(t: string)
    ensures Split("/" + t) == [""] + Split(t)
  {
    assert ("/" + t)[1..] == t;
  }

  /** Joining with a non-empty first piece starts with its first character. */
  lemma JoinShorterFirst(parts: seq<string>)
    requires |parts| >= 2 && parts[0] != []
    ensures Join(parts) == [parts[0][0]] + Join([parts[0][1..]] + parts[1..])
  {
    var shorter := [parts[0][1..]] + parts[1..];
    assert shorter[1..] == parts[1..];
    assert parts[0] == [parts[0][0]] + parts[0][1..];
  }

  lemma SplitAfterChar(c: char, t: string)
    requires c != '/'
    ensures Split([c] + t) == [[c] + Split(t)[0]] + Split(t)[1..]
  {
    assert ([c] + t)[1..] == t;
  }

  lemma RebuildFirst(parts: seq<string>)
    requires |parts| >= 1 && parts[0] != []
    ensures var shorter := [parts[0][1..]] + parts[1..];
      [[parts[0][0]] + shorter[0]] + shorter[1..] == parts
  {
    var shorter := [parts[0][1..]] + parts[1..];
    assert [parts[0][0]] + shorter[0] == parts[0];
    assert shorter[1..] == parts[1..];
  }

  lemma {:induction false} SplitSlashFree(s: string)
    requires '/' !in s
    ensures Split(s) == [s]
  {
    if s != [] {
      SplitSlashFree(s[1..]);
      assert s[0] != '/' by { assert s[0] in s; }
      assert [s[0]] + s[1..] == s;
    }
  }

  function MapEncode(parts: seq<string>): (r: seq<string>)
    ensures |r| == |parts|
    ensures forall i :: 0 <= i < |r| ==> r[i] == EncodeComponent(parts[i])
  {
    if parts == [] then [] else [EncodeComponent(parts[0])] + MapEncode(parts[1..])
  }

  /** `encodePath`, given `String(path || '')`. */
  function EncodePath(path: string): string {
    Join(MapEncode(Split(path)))
  }

  /** Decoding each segment of an encoded path and joining them again. */
  function DecodePath(encoded: string): Option<string> {
    DecodeSegments(Split(encoded))
  }

  function DecodeSegments(parts: seq<string>): Option<string>
    requires |parts| >= 1
  {
    match DecodeComponent(parts[0])
    case None => None
    case Some(first) =>
      if |parts| == 1 then Some(first)
      else match DecodeSegments(parts[1..])
        case None => None
        case Some(rest) => Some(first + "/" + rest)
  }

  lemma {:induction false} DecodeEncodedSegments(parts: seq<string>)
    requires |parts| >= 1
    ensures DecodeSegments(MapEncode(parts)) == Some(Join(parts))
  {
    ComponentRoundTrip(parts[0]);
    if |parts| > 1 {
      assert MapEncode(parts)[1..] == MapEncode(parts[1..]);
      DecodeEncodedSegments(parts[1..]);
    }
  }

  lemma EncodedSegmentsSlashFree(parts: seq<string>)
    ensures forall i :: 0 <= i < |MapEncode(parts)| ==> '/' !in MapEncode(parts)[i]
  {
    forall i | 0 <= i < |parts| ensures '/' !in MapEncode(parts)[i] {
      var e := EncodeComponent(parts[i]);
      EncodedAlphabet(parts[i]);
      assert forall j :: 0 <= j < |e| ==> e[j] != '/';
    }
  }

  /** The slashes of an encoded path are exactly the slashes of the path: its
      segments are the encoded segments of the path, in order. */
  lemma EncodePathSegments(path: string)
    ensures Split(EncodePath(path)) == MapEncode(Split(path))
  {
    EncodedSegmentsSlashFree(Split(path));
    SplitJoin(MapEncode(Split(path)));
  }

  /** Decoding an encoded path segment by segment gives the path back. */
  lemma PathRoundTrip(path: string)
    ensures DecodePath(EncodePath(path)) == Some(path)
  {
    EncodePathSegments(path);
    DecodeEncodedSegments(Split(path));
    JoinSplit(path);
  }

  /** An encoded path holds only unreserved characters, `%`, hexadecimal digits
      and the separating slashes. */
  lemma EncodePathAlphabet(path: string)
    ensures forall i :: 0 <= i < |EncodePath(path)| ==> IsEncodedChar(EncodePath(path)[i]) || EncodePath(path)[i] == '/'
  {
    var parts := MapEncode(Split(path));
    forall i | 0 <= i < |parts| ensures forall j :: 0 <= j < |parts[i]| ==> IsEncodedChar(parts[i][j]) {
      EncodedAlphabet(Split(path)[i]);
    }
    JoinAlphabet(parts);
  }

  lemma {:induction false} JoinAlphabet(parts: seq<string>)
    requires |parts| >= 1
    requires forall i :: 0 <= i < |parts| ==> forall j :: 0 <= j < |parts[i]| ==> IsEncodedChar(parts[i][j])
    ensures forall i :: 0 <= i < |Join(parts)| ==> IsEncodedChar(Join(parts)[i]) || Join(parts)[i] == '/'
  {
    if |parts| > 1 {
      JoinAlphabet(parts[1..]);
    }
  }
}
