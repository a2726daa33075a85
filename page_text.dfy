/** Text helpers of the new-tab page: `escapeHtml`, `normalizeUrl` and
    `parseHotApiData`, the reader of the trending-list API's answer. */
module PageText {
  import opened JsText
  import opened JsonValue

  // ----- escapeHtml -----

  /** `s.replace(/c/g, rep)`: every `c` replaced by `rep`. */
  function ReplaceAll(s: string, c: char, rep: string): (r: string)
    ensures c !in rep ==> c !in r
  {
    if s == [] then []
    else (if s[0] == c then rep else [s[0]]) + ReplaceAll(s[1..], c, rep)
  }

  /** `escapeHtml(raw)`: the five global replacements: `&` first, then `<`, `>`, `"` and `'`. */
  function EscapeHtml(raw: Json): string {
    EscapeSteps(TextOr(raw))
  }

  function EscapeSteps(s: string): string {
    Apos(Quot(Gt(Lt(Amp(s)))))
  }

  function Amp(s: string): string { ReplaceAll(s, '&', "&amp;") }
  function Lt(s: string): string { ReplaceAll(s, '<', "&lt;") }
  function Gt(s: string): string { ReplaceAll(s, '>', "&gt;") }
  function Quot(s: string): string { ReplaceAll(s, '"', "&quot;") }
  function Apos(s: string): string { ReplaceAll(s, '\'', "&#39;") }

  /** The entity each special character becomes; every other character stays. */
  function EscapeChar(c: char): string {
    if c == '&' then "&amp;"
    else if c == '<' then "&lt;"
    else if c == '>' then "&gt;"
    else if c == '"' then "&quot;"
    else if c == '\'' then "&#39;"
    else [c]
  }

  /** Escaping character by character: the reference the chain of
      replacements is compared with. */
  function EscapeEach(s: string): string {
    if s == [] then [] else EscapeChar(s[0]) + EscapeEach(s[1..])
  }

  lemma {:induction false} ReplaceAllAppend(a: string, b: string, c: char, rep: string)
    ensures ReplaceAll(a + b, c, rep) == ReplaceAll(a, c, rep) + ReplaceAll(b, c, rep)
  {
    if a == [] {
      assert a + b == b;
    } else {
      assert (a + b)[1..] == a[1..] + b;
      ReplaceAllAppend(a[1..], b, c, rep);
    }
  }

  lemma {:induction false} ReplaceAllAbsent(s: string, c: char, rep: string)
    requires c !in s
    ensures ReplaceAll(s, c, rep) == s
  {
    if s != [] {
      assert s[0] != c;
      assert s == [s[0]] + s[1..];
      ReplaceAllAbsent(s[1..], c, rep);
    }
  }

  lemma EscapeStepsAppend(a: string, b: string)
    ensures EscapeSteps(a + b) == EscapeSteps(a) + EscapeSteps(b)
  {
    ReplaceAllAppend(a, b, '&', "&amp;");
    ReplaceAllAppend(Amp(a), Amp(b), '<', "&lt;");
    ReplaceAllAppend(Lt(Amp(a)), Lt(Amp(b)), '>', "&gt;");
    ReplaceAllAppend(Gt(Lt(Amp(a))), Gt(Lt(Amp(b))), '"', "&quot;");
    ReplaceAllAppend(Quot(Gt(Lt(Amp(a)))), Quot(Gt(Lt(Amp(b)))), '\'', "&#39;");
  }

  lemma ReplaceSingle(x: char, c: char, rep: string)
    ensures ReplaceAll([x], c, rep) == if x == c then rep else [x]
  {
    assert [x][1..] == [];
  }

  /** The entities hold none of `<`, `>`, `"` and `'`, so the replacements
      after the one that wrote an entity leave it alone. */
  lemma LaterStepsLeaveAlone(e: string)
    requires '<' !in e && '>' !in e && '"' !in e && '\'' !in e
    ensures Lt(e) == e && Gt(e) == e && Quot(e) == e && Apos(e) == e
  {
    ReplaceAllAbsent(e, '<', "&lt;");
    ReplaceAllAbsent(e, '>', "&gt;");
    ReplaceAllAbsent(e, '"', "&quot;");
    ReplaceAllAbsent(e, '\'', "&#39;");
  }

  lemma AmpLeftAlone()
    ensures Apos(Quot(Gt(Lt("&amp;")))) == "&amp;"
  {
    LaterStepsLeaveAlone("&amp;");
  }

  lemma LtLeftAlone()
    ensures Apos(Quot(Gt("&lt;"))) == "&lt;"
  {
    LaterStepsLeaveAlone("&lt;");
  }

  lemma GtLeftAlone()
    ensures Apos(Quot("&gt;")) == "&gt;"
  {
    LaterStepsLeaveAlone("&gt;");
  }

  lemma QuotLeftAlone()
    ensures Apos("&quot;") == "&quot;"
  {
    LaterStepsLeaveAlone("&quot;");
  }

  lemma EscapeStepsChar(c: char)
    ensures EscapeSteps([c]) == EscapeChar(c)
  {
    ReplaceSingle(c, '&', "&amp;");
    if c == '&' {
      AmpLeftAlone();
    } else {
      ReplaceSingle(c, '<', "&lt;");
      if c == '<' {
        LtLeftAlone();
      } else {
        ReplaceSingle(c, '>', "&gt;");
        if c == '>' {
          GtLeftAlone();
        } else {
          ReplaceSingle(c, '"', "&quot;");
          if c == '"' {
            QuotLeftAlone();
          } else {
            ReplaceSingle(c, '\'', "&#39;");
          }
        }
      }
    }
  }

  /** The chain of replacements escapes each character on its own: the `&`
      of an entity written by a later replacement is never escaped again. */
  lemma {:induction false} EscapeHtmlCharwise(s: string)
    ensures EscapeSteps(s) == EscapeEach(s)
  {
    if s != [] {
      assert s == [s[0]] + s[1..];
      EscapeStepsAppend([s[0]], s[1..]);
      EscapeStepsChar(s[0]);
      EscapeHtmlCharwise(s[1..]);
    }
  }

  lemma {:induction false} EscapeEachSafe(s: string)
    ensures var r := EscapeEach(s);
      '<' !in r && '>' !in r && '"' !in r && '\'' !in r
  {
    if s != [] {
      EscapeEachSafe(s[1..]);
      EscapeCharSafe(s[0]);
    }
  }

  /** No escaped character is one of the four. */
  lemma EscapeCharSafe(c: char)
    ensures var r := EscapeChar(c);
      '<' !in r && '>' !in r && '"' !in r && '\'' !in r
  {
    var r := EscapeChar(c);
    if c == '&' {
      assert r == "&amp;";
    } else if c == '<' {
      assert r == "&lt;";
    } else if c == '>' {
      assert r == "&gt;";
    } else if c == '"' {
      assert r == "&quot;";
    } else if c == '\'' {
      assert r == "&#39;";
    } else {
      assert r == [c];
    }
  }

  /** The escaped text holds none of the characters that end an attribute or
      open a tag. */
  lemma EscapeHtmlSafe(raw: Json)
    ensures var r := EscapeHtml(raw);
      '<' !in r && '>' !in r && '"' !in r && '\'' !in r
  {
    EscapeHtmlCharwise(TextOr(raw));
    EscapeEachSafe(TextOr(raw));
  }

  /** Decoding the five entities, the partner of escaping. */
  function Unescape(t: string): string
    decreases |t|
  {
    if t == [] then []
    else if |t| >= 5 && t[..5] == "&amp;" then "&" + Unescape(t[5..])
    else if |t| >= 4 && t[..4] == "&lt;" then "<" + Unescape(t[4..])
    else if |t| >= 4 && t[..4] == "&gt;" then ">" + Unescape(t[4..])
    else if |t| >= 6 && t[..6] == "&quot;" then "\"" + Unescape(t[6..])
    else if |t| >= 5 && t[..5] == "&#39;" then "'" + Unescape(t[5..])
    else [t[0]] + Unescape(t[1..])
  }

  /** A character other than `&` starts no entity and is copied. */
  lemma UnescapePlain(c: char, rest: string)
    requires c != '&'
    ensures Unescape([c] + rest) == [c] + Unescape(rest)
  {
    var t := [c] + rest;
    assert t[0] == c;
    assert |t| >= 4 ==> t[..4][0] == c;
    assert |t| >= 5 ==> t[..5][0] == c;
    assert |t| >= 6 ==> t[..6][0] == c;
    assert t[1..] == rest;
  }

  lemma UnescapeChar(c: char, rest: string)
    ensures Unescape(EscapeChar(c) + rest) == [c] + Unescape(rest)
  {
    var e := EscapeChar(c);
    var t := e + rest;
    if c != '&' && c != '<' && c != '>' && c != '"' && c != '\'' {
      assert e == [c];
      UnescapePlain(c, rest);
    } else {
      assert t[|e|..] == rest;
      assert t[0] == '&' && t[1] == e[1];
      assert |t| >= 4 ==> t[..4][1] == t[1];
      assert |t| >= 5 ==> t[..5][1] == t[1];
      assert |t| >= 6 ==> t[..6][1] == t[1];
      assert t[..|e|] == e;
    }
  }

  /** Unescaping the page's escaped text gives the text back: no two texts
      escape to the same markup. */
  lemma {:induction false} EscapeRoundTrip(s: string)
    ensures Unescape(EscapeEach(s)) == s
  {
    if s != [] {
      assert EscapeEach(s) == EscapeChar(s[0]) + EscapeEach(s[1..]);
      UnescapeChar(s[0], EscapeEach(s[1..]));
      EscapeRoundTrip(s[1..]);
    }
  }

  /** The same for `escapeHtml` itself. */
  lemma EscapeHtmlRoundTrip(raw: Json)
    ensures Unescape(EscapeHtml(raw)) == TextOr(raw)
  {
    EscapeHtmlCharwise(TextOr(raw));
    EscapeRoundTrip(TextOr(raw));
  }

  // ----- normalizeUrl -----

  /** The test `/^https?:\/\//i`. */
  predicate HasHttpScheme(s: string) {
    StartsWithIgnoreCase(s, "https://") || StartsWithIgnoreCase(s, "http://")
  }

  /** `normalizeUrl(raw)`. */
  function NormalizeUrl(raw: Json): string {
    var trimmed := Trim(TextOr(raw));
    if trimmed == "" then ""
    else if HasHttpScheme(trimmed) then trimmed
    else "https://" + trimmed
  }

  /** A trimmed, non-empty text behind a scheme is still trimmed. */
  lemma SchemeKeepsTrimmed(t: string)
    requires t != [] && IsTrimmed(t)
    ensures IsTrimmed("https://" + t)
  {
    var u := "https://" + t;
    assert u[|u| - 1] == t[|t| - 1];
  }

  lemma StartsWithScheme(t: string)
    ensures StartsWithIgnoreCase("https://" + t, "https://")
  {
    assert ("https://" + t)[..8] == "https://";
  }

  /** Empty (or blank, or falsy) input gives `''`; anything else gives a
      trimmed URL with an `http://` or `https://` scheme, which is the input
      itself when it already had one and `https://` before it otherwise. */
  lemma NormalizeUrlShape(raw: Json)
    ensures var r, t := NormalizeUrl(raw), Trim(TextOr(raw));
      && (r == "" <==> t == "")
      && (r != "" ==> HasHttpScheme(r) && IsTrimmed(r))
      && (HasHttpScheme(t) ==> r == t)
      && (t != "" && !HasHttpScheme(t) ==> r == "https://" + t)
  {
    var t := Trim(TextOr(raw));
    TrimSpec(TextOr(raw));
    if t != "" && !HasHttpScheme(t) {
      SchemeKeepsTrimmed(t);
      StartsWithScheme(t);
    }
  }

  /** Normalising a normalised URL changes nothing. */
  lemma NormalizeUrlIdempotent(raw: Json)
    ensures NormalizeUrl(JStr(NormalizeUrl(raw))) == NormalizeUrl(raw)
  {
    var r := NormalizeUrl(raw);
    NormalizeUrlShape(raw);
    if r != "" {
      TrimOfTrimmed(r);
      assert TextOr(JStr(r)) == r;
    }
  }

  // ----- parseHotApiData -----

  /** One entry of the trending list. */
  datatype HotItem = HotItem(title: string, link: string)

  /** `{ title: String(it?.title || '').trim(), link: ... }`. */
  function HotItemOf(it: Json): HotItem {
    HotItem(Trim(TextOr(Get(it, "title"))), Trim(TextOr(Get(it, "link"))))
  }

  /** An entry is kept when its cleaned title and link are both non-empty. */
  predicate Usable(it: HotItem) {
    it.title != "" && it.link != ""
  }

  /** The `.map(...)` step: every element cleaned. */
  function CleanAll(list: seq<Json>): (r: seq<HotItem>)
    ensures |r| == |list| && forall i :: 0 <= i < |list| ==> r[i] == HotItemOf(list[i])
  {
    seq(|list|, i requires 0 <= i < |list| => HotItemOf(list[i]))
  }

  /** The `.filter(...)` step: the usable entries, in order. */
  function KeepUsable(items: seq<HotItem>): seq<HotItem> {
    if items == [] then []
    else (if Usable(items[0]) then [items[0]] else []) + KeepUsable(items[1..])
  }

  /** `parseHotApiData(raw)`: `[]` unless `raw.data` is an array. */
  function ParseHotApiData(raw: Json): seq<HotItem> {
    var list := Get(raw, "data");
    if list.JArr? then KeepUsable(CleanAll(list.items)) else []
  }

  /** The cleaned entry holds trimmed text. */
  lemma HotItemOfTrimmed(x: Json)
    ensures IsTrimmed(HotItemOf(x).title) && IsTrimmed(HotItemOf(x).link)
  {
    TrimSpec(TextOr(Get(x, "title")));
    TrimSpec(TextOr(Get(x, "link")));
  }

  /** The filter keeps exactly the usable entries. */
  lemma {:induction false} KeepUsableMembers(items: seq<HotItem>, it: HotItem)
    ensures it in KeepUsable(items) <==> it in items && Usable(it)
    ensures |KeepUsable(items)| <= |items|
  {
    if items != [] {
      KeepUsableMembers(items[1..], it);
      assert items == [items[0]] + items[1..];
    }
  }

  /** The filter keeps the order: the entries kept from two halves are the two
      halves' entries, one after the other. */
  lemma {:induction false} KeepUsableAppend(a: seq<HotItem>, b: seq<HotItem>)
    ensures KeepUsable(a + b) == KeepUsable(a) + KeepUsable(b)
  {
    if a == [] {
      assert a + b == b;
    } else {
      assert (a + b)[0] == a[0];
      assert (a + b)[1..] == a[1..] + b;
      KeepUsableAppend(a[1..], b);
    }
  }

  /** An entry is in the result exactly when it is the cleaned form of some
      element of `data` and is usable; so every entry has a trimmed, non-empty
      title and link, there are no more entries than elements, and nothing
      is invented. */
  lemma ParseHotApiDataMembers(raw: Json, it: HotItem)
    requires Get(raw, "data").JArr?
    ensures var list := Get(raw, "data").items;
      && (it in ParseHotApiData(raw) <==> Usable(it) && exists i :: 0 <= i < |list| && HotItemOf(list[i]) == it)
      && (it in ParseHotApiData(raw) ==> IsTrimmed(it.title) && IsTrimmed(it.link))
      && |ParseHotApiData(raw)| <= |list|
  {
    var list := Get(raw, "data").items;
    var cleaned := CleanAll(list);
    KeepUsableMembers(cleaned, it);
    if it in cleaned {
      var i :| 0 <= i < |cleaned| && cleaned[i] == it;
      HotItemOfTrimmed(list[i]);
    }
  }

  /** An entry with a usable title and link is kept. */
  lemma HotItemKept(raw: Json, it: Json)
    requires Get(raw, "data") == JArr([it]) && Usable(HotItemOf(it))
    ensures ParseHotApiData(raw) == [HotItemOf(it)]
  {
    var x := HotItemOf(it);
    assert CleanAll([it]) == [x];
    KeepUsableSingle(x);
  }

  lemma KeepUsableSingle(x: HotItem)
    requires Usable(x)
    ensures KeepUsable([x]) == [x]
  {
    assert [x][1..] == [];
  }

  /** A value whose `data` is not an array gives no entries. */
  lemma ParseHotApiDataNoList(raw: Json)
    requires !Get(raw, "data").JArr?
    ensures ParseHotApiData(raw) == []
  {
  }
}
