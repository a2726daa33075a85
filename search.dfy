/** The search box of the new-tab page: the result URLs of a search over the
    selected engines (`computeSearchUrls`) and the recent-search list that
    `addToHistory` keeps. */
module SearchBox {
  import opened Wrappers
  import opened JsonValue
  import UriEncoding

  // ----- computeSearchUrls -----

  /** The engines whose `name` is one of the selected names, in the order of
      the engine list. */
  function SelectedEngines(engines: seq<Json>, allowed: set<Json>): (r: seq<Json>)
    ensures |r| <= |engines|
  {
    if engines == [] then []
    else (if Get(engines[0], "name") in allowed then [engines[0]] else []) + SelectedEngines(engines[1..], allowed)
  }

  /** `${e.baseUrl}${encoded}`. */
  function UrlFor(engine: Json, encoded: string): string {
    PropertyText(engine, "baseUrl") + encoded
  }

  /** An engine without a `baseUrl` gives a URL starting with `undefined`, as
      the template literal writes it. */
  lemma MissingBaseUrl(engine: Json, encoded: string)
    requires engine.JObj? && "baseUrl" !in engine.fields
    ensures UrlFor(engine, encoded) == "undefined" + encoded
    ensures UrlFor(engine, encoded) != ToJsString(Get(engine, "baseUrl")) + encoded
  {
    assert UrlFor(engine, encoded)[0] == 'u';
  }

  /** `computeSearchUrls(keyword, selectedEngines)` over the configured
      `engines`. */
  function ComputeSearchUrls(keyword: string, selectedEngines: seq<Json>, engines: seq<Json>): seq<string> {
    var encoded := UriEncoding.EncodeComponent(keyword);
    var allowed := set n | n in selectedEngines;
    var chosen := SelectedEngines(engines, allowed);
    seq(|chosen|, i requires 0 <= i < |chosen| => UrlFor(chosen[i], encoded))
  }

  /** An engine is chosen exactly when it is configured and its name is
      allowed. */
  lemma {:induction false} SelectedEnginesMembers(engines: seq<Json>, allowed: set<Json>, e: Json)
    ensures e in SelectedEngines(engines, allowed) <==> e in engines && Get(e, "name") in allowed
  {
    if engines != [] {
      SelectedEnginesMembers(engines[1..], allowed, e);
      assert engines == [engines[0]] + engines[1..];
    }
  }

  /** The chosen engines keep the order of the engine list. */
  lemma {:induction false} SelectedEnginesAppend(a: seq<Json>, b: seq<Json>, allowed: set<Json>)
    ensures SelectedEngines(a + b, allowed) == SelectedEngines(a, allowed) + SelectedEngines(b, allowed)
  {
    if a == [] {
      assert a + b == b;
    } else {
      var head := if Get(a[0], "name") in allowed then [a[0]] else [];
      assert (a + b)[0] == a[0];
      assert (a + b)[1..] == a[1..] + b;
      assert SelectedEngines(a + b, allowed) == head + SelectedEngines(a[1..] + b, allowed);
      SelectedEnginesAppend(a[1..], b, allowed);
      assert head + (SelectedEngines(a[1..], allowed) + SelectedEngines(b, allowed))
        == (head + SelectedEngines(a[1..], allowed)) + SelectedEngines(b, allowed);
    }
  }

  /** One URL per selected engine: each is that engine's base URL (`undefined`
      when it has none) followed by the keyword, percent-encoded so that decoding the tail gives the keyword
      back. An engine appears exactly when its name was selected. */
  lemma SearchUrlsSpec(keyword: string, selectedEngines: seq<Json>, engines: seq<Json>)
    ensures var urls := ComputeSearchUrls(keyword, selectedEngines, engines);
      var chosen := SelectedEngines(engines, set n | n in selectedEngines);
      && |urls| == |chosen| <= |engines|
      && (forall i :: 0 <= i < |urls| && chosen[i].JObj? && "baseUrl" in chosen[i].fields ==>
            urls[i] == ToJsString(chosen[i].fields["baseUrl"]) + UriEncoding.EncodeComponent(keyword))
      && (forall i :: 0 <= i < |urls| && !(chosen[i].JObj? && "baseUrl" in chosen[i].fields) ==>
            urls[i] == "undefined" + UriEncoding.EncodeComponent(keyword))
      && UriEncoding.DecodeComponent(UriEncoding.EncodeComponent(keyword)) == Some(keyword)
      && (forall e :: e in chosen <==> e in engines && Get(e, "name") in selectedEngines)
  {
    UriEncoding.ComponentRoundTrip(keyword);
    var allowed := set n | n in selectedEngines;
    forall e
      ensures e in SelectedEngines(engines, allowed) <==> e in engines && Get(e, "name") in selectedEngines
    {
      SelectedEnginesMembers(engines, allowed, e);
    }
  }

  /** Only the set of selected names matters, not their order or repeats. */
  lemma SearchUrlsSelectionOrder(keyword: string, s1: seq<Json>, s2: seq<Json>, engines: seq<Json>)
    requires forall n :: n in s1 <==> n in s2
    ensures ComputeSearchUrls(keyword, s1, engines) == ComputeSearchUrls(keyword, s2, engines)
  {
    assert (set n | n in s1) == (set n | n in s2);
  }

  // ----- addToHistory -----

  const MaxHistory := 20

  /** `history.indexOf(term)`. */
  function IndexOf(history: seq<string>, term: string): (i: int)
    ensures -1 <= i < |history|
    ensures i == -1 <==> term !in history
    ensures i >= 0 ==> history[i] == term && term !in history[..i]
  {
    if history == [] then -1
    else if history[0] == term then 0
    else
      var j := IndexOf(history[1..], term);
      assert j >= 0 ==> history[..j + 1] == [history[0]] + history[1..][..j];
      if j == -1 then -1 else j + 1
  }

  /** The list after `addToHistory(term)`: the first earlier copy of `term` is
      taken out, `term` goes to the front, and the last entry is dropped when
      the list grew past 20. */
  function AddedToHistory(history: seq<string>, term: string): seq<string> {
    var grown := [term] + RemoveFirst(history, term);
    if |grown| > MaxHistory then grown[..|grown| - 1] else grown
  }

  /** The entries other than `x`, in order. */
  function Without(s: seq<string>, x: string): seq<string> {
    if s == [] then [] else (if s[0] == x then [] else [s[0]]) + Without(s[1..], x)
  }

  lemma {:induction false} WithoutAppend(a: seq<string>, b: seq<string>, x: string)
    ensures Without(a + b, x) == Without(a, x) + Without(b, x)
  {
    if a == [] {
      assert a + b == b;
    } else {
      assert (a + b)[0] == a[0];
      assert (a + b)[1..] == a[1..] + b;
      WithoutAppend(a[1..], b, x);
    }
  }

  lemma WithoutPrefix(s: seq<string>, k: nat, x: string)
    requires k <= |s|
    ensures |Without(s[..k], x)| <= |Without(s, x)|
    ensures Without(s[..k], x) == Without(s, x)[..|Without(s[..k], x)|]
  {
    assert s == s[..k] + s[k..];
    WithoutAppend(s[..k], s[k..], x);
  }

  lemma WithoutCons(x: string, t: seq<string>)
    ensures Without([x] + t, x) == Without(t, x)
  {
    assert ([x] + t)[1..] == t;
  }

  /** The list with the first copy of `term` taken out, as `splice` leaves it. */
  function RemoveFirst(history: seq<string>, term: string): (r: seq<string>)
    ensures IndexOf(history, term) >= 0 ==> |r| == |history| - 1
    ensures IndexOf(history, term) < 0 ==> r == history
  {
    var i := IndexOf(history, term);
    if i >= 0 then history[..i] + history[i + 1..] else history
  }

  /** Taking out one copy of `x` leaves the other entries as they were. */
  lemma WithoutRemoved(history: seq<string>, term: string)
    ensures Without(RemoveFirst(history, term), term) == Without(history, term)
  {
    var i := IndexOf(history, term);
    if i >= 0 {
      var pre, post := history[..i], history[i + 1..];
      SplitAround(history, i);
      WithoutAppend(pre, [term] + post, term);
      WithoutCons(term, post);
      WithoutAppend(pre, post, term);
    }
  }

  lemma SplitAround(s: seq<string>, i: nat)
    requires i < |s|
    ensures s == s[..i] + ([s[i]] + s[i + 1..])
  {
  }

  /** Taking out the first copy leaves none when there was at most one. */
  lemma RemoveFirstCount(history: seq<string>, term: string)
    requires multiset(history)[term] <= 1
    ensures multiset(RemoveFirst(history, term))[term] == 0
  {
    var i := IndexOf(history, term);
    if i >= 0 {
      var pre, post := history[..i], history[i + 1..];
      assert history == pre + [term] + post;
      assert multiset(history) == multiset(pre) + multiset([term]) + multiset(post);
      assert RemoveFirst(history, term) == pre + post;
    }
  }

  /** `term` is at the front. */
  lemma HistoryFront(history: seq<string>, term: string)
    ensures |AddedToHistory(history, term)| >= 1 && AddedToHistory(history, term)[0] == term
  {
  }

  /** A list with no two copies of `term` ends with exactly one. */
  lemma HistoryOnce(history: seq<string>, term: string)
    requires multiset(history)[term] <= 1
    ensures multiset(AddedToHistory(history, term))[term] == 1
  {
    var rest := RemoveFirst(history, term);
    RemoveFirstCount(history, term);
    var grown := [term] + rest;
    assert multiset(grown)[term] == 1;
    if |grown| > MaxHistory {
      var kept := grown[..|grown| - 1];
      assert grown == kept + [grown[|grown| - 1]];
      assert kept[0] == term;
      assert multiset(grown) == multiset(kept) + multiset([grown[|grown| - 1]]);
    }
  }

  /** The other entries keep their relative order: without `term`, the new
      list is a prefix of the old one. */
  lemma HistoryOrder(history: seq<string>, term: string)
    ensures var before, after := Without(history, term), Without(AddedToHistory(history, term), term);
      |after| <= |before| && after == before[..|after|]
  {
    var rest := RemoveFirst(history, term);
    var grown := [term] + rest;
    WithoutRemoved(history, term);
    WithoutCons(term, rest);
    if |grown| > MaxHistory {
      WithoutPrefix(grown, |grown| - 1, term);
    }
  }

  /** Only the entry past the 20th is ever lost: when the list was not full,
      or `term` was already in it, every other entry stays. */
  lemma HistoryKeepsOthers(history: seq<string>, term: string)
    requires |history| < MaxHistory || (term in history && |history| <= MaxHistory)
    ensures Without(AddedToHistory(history, term), term) == Without(history, term)
  {
    WithoutRemoved(history, term);
    WithoutCons(term, RemoveFirst(history, term));
  }

  /** A list of at most 20 entries stays at most 20 long. */
  lemma HistoryBound(history: seq<string>, term: string)
    requires |history| <= MaxHistory
    ensures |AddedToHistory(history, term)| <= MaxHistory
  {
  }
}
