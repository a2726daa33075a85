/** The remote file's content codec of background.js: base64 of the UTF-8
    bytes of the configuration's JSON text.

    `encodeConfigAsBase64` computes `btoa(unescape(encodeURIComponent(json)))`:
    `encodeURIComponent` writes the UTF-8 bytes of the text as `%XX` escapes
    (unreserved ASCII characters stand for their own byte) and `unescape` turns
    each escape into the character with that code, so `btoa` sees the UTF-8
    bytes one per character. `decodeBase64Json` undoes this with
    `decodeURIComponent(escape(atob(base64)))`: `escape` turns every byte
    character that is not an unescaped ASCII character back into `%XX`, and
    `decodeURIComponent` reads the bytes as UTF-8. The encoder is composed
    from `UriEncoding` step by step; the decoder is stated by its effect on
    bytes. */
module ConfigCodec {
  import opened Wrappers
  import Utf8
  import Base64
  import UriEncoding

  /** `normalizeBase64`: `base64.replace(/\n/g, '')`. */
  function NormalizeBase64(s: string): (r: string)
    ensures forall i :: 0 <= i < |r| ==> r[i] != '\n'
    ensures |r| <= |s|
  {
    if s == [] then []
    else if s[0] == '\n' then NormalizeBase64(s[1..])
    else [s[0]] + NormalizeBase64(s[1..])
  }

  /** Normalising distributes over concatenation: every line feed of either
      part goes, and nothing else moves. */
  lemma {:induction false} NormalizeBase64Append(a: string, b: string)
    ensures NormalizeBase64(a + b) == NormalizeBase64(a) + NormalizeBase64(b)
  {
    if a == [] {
      assert a + b == b;
    } else {
      assert (a + b)[0] == a[0] && (a + b)[1..] == a[1..] + b;
      NormalizeBase64Append(a[1..], b);
    }
  }

  /** Together with `NormalizeBase64Append`, this says that normalising removes
      every line feed and keeps every other character. */
  lemma NormalizeBase64Char(c: char)
    ensures NormalizeBase64([c]) == if c == '\n' then "" else [c]
  {
  }

  /** A string without line feeds is left as it is. */
  lemma {:induction false} NormalizeBase64Clean(s: string)
    requires forall i :: 0 <= i < |s| ==> s[i] != '\n'
    ensures NormalizeBase64(s) == s
  {
    if s != [] {
      NormalizeBase64Clean(s[1..]);
    }
  }

  /** `atob` already skips line feeds, so normalising does not change what a
      content string decodes to (GitHub wraps the base64 it returns). */
  lemma {:induction false} RemoveWhitespaceOfNormalized(s: string)
    ensures Base64.RemoveWhitespace(NormalizeBase64(s)) == Base64.RemoveWhitespace(s)
  {
    if s != [] {
      RemoveWhitespaceOfNormalized(s[1..]);
    }
  }

  lemma DecodeOfNormalized(s: string)
    ensures Base64.Decode(NormalizeBase64(s)) == Base64.Decode(s)
  {
    RemoveWhitespaceOfNormalized(s);
  }

  /** `encodeConfigAsBase64`, given the text `JSON.stringify(config, null, 2)`
      produced: `encodeURIComponent`, then `unescape` (on the ASCII text the
      first step writes, the bytes `UriEncoding.Bytes` reads), then `btoa`.
      What `btoa` encodes is the UTF-8 form of the text. */
  function EncodeText(json: string): (r: string)
    ensures r == Base64.Encode(Utf8.Encode(json))
  {
    var escaped := UriEncoding.EncodeComponent(json);
    UriEncoding.BytesOfEncoded(json);
    Base64.Encode(UriEncoding.Bytes(escaped).value)
  }

  /** The browser's message for an `atob` argument that is not base64. */
  const InvalidBase64Message := "Failed to execute 'atob' on 'WorkerGlobalScope': The string to be decoded is not correctly encoded."

  /** The message of the `URIError` `decodeURIComponent` throws on bytes that
      are not UTF-8. */
  const MalformedUriMessage := "URI malformed"

  /** The text `decodeBase64Json` hands to `JSON.parse`, or the message of the
      error it throws first. */
  function DecodeText(base64: string): (r: Result<string, string>)
    ensures r.Err? ==> r.error == InvalidBase64Message || r.error == MalformedUriMessage
  {
    match Base64.Decode(base64)
    case None => Err(InvalidBase64Message)
    case Some(bytes) =>
      match Utf8.Decode(bytes)
      case None => Err(MalformedUriMessage)
      case Some(text) => Ok(text)
  }

  /** The encoding uses no line feeds, so `normalizeBase64` leaves it alone. */
  lemma EncodeTextHasNoNewline(json: string)
    ensures NormalizeBase64(EncodeText(json)) == EncodeText(json)
  {
    var e := EncodeText(json);
    var u := Base64.EncodeUnpadded(Utf8.Encode(json));
    forall i | 0 <= i < |e| ensures e[i] != '\n' {
      if i < |u| {
        assert Base64.IsBase64Char(u[i]);
      }
    }
    NormalizeBase64Clean(e);
  }

  /** The codec round trip: the JSON text, non-ASCII characters included,
      comes back from its base64 form, also after line feeds are removed. */
  lemma RoundTrip(json: string)
    ensures DecodeText(EncodeText(json)) == Ok(json)
    ensures DecodeText(NormalizeBase64(EncodeText(json))) == Ok(json)
  {
    Base64.RoundTrip(Utf8.Encode(json));
    Utf8.RoundTrip(json);
    EncodeTextHasNoNewline(json);
  }

  /** The decoder accepts only canonical content: text that decodes encodes
      back to the same base64, up to white space and padding. */
  lemma DecodedTextEncodes(base64: string)
    requires DecodeText(base64).Ok?
    ensures Utf8.Encode(DecodeText(base64).value) == Base64.Decode(base64).value
  {
    Utf8.DecodeCanonical(Base64.Decode(base64).value);
  }
}
