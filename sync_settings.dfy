/** The sync settings as the new-tab page and the options page handle them:
    `parseGitRemote`, `normalizeSync`, `canAutoPush` and the object
    `getFormSync` builds from the settings form. options.js carries a
    verbatim copy of `parseGitRemote` and `normalizeSync`; both copies are
    modelled by the members here. */
module SyncSettings {
  import opened Wrappers
  import opened JsText
  import opened JsonValue

  const DefaultSyncPath := "chrome-home-plugin/config.json"

  /** What `parseGitRemote` returns when it recognises a URL. */
  datatype GitRemote = GitRemote(provider: string, gistId: string)

  /** The prefix of `s` before its first `/`. */
  function TakeSegment(s: string): (r: string)
    ensures |r| <= |s| && r == s[..|r|]
    ensures '/' !in r
    ensures |r| < |s| ==> s[|r|] == '/'
  {
    if s == [] || s[0] == '/' then [] else [s[0]] + TakeSegment(s[1..])
  }

  predicate IsIdChar(c: char) {
    c != '/' && c != '?' && c != '#'
  }

  /** The longest prefix of `s` with no `/`, `?` or `#`: what `([^/?#]+)`
      captures, after which `(?:[/?#]|$)` always matches. */
  function TakeId(s: string): (r: string)
    ensures |r| <= |s| && r == s[..|r|]
    ensures forall i :: 0 <= i < |r| ==> IsIdChar(r[i])
    ensures |r| < |s| ==> !IsIdChar(s[|r|])
  {
    if s == [] || !IsIdChar(s[0]) then [] else [s[0]] + TakeId(s[1..])
  }

  /** The length of the scheme `https?://` at the start of `s`, up to case. */
  function SchemeLength(s: string): nat {
    if StartsWithIgnoreCase(s, "https://") then 8
    else if StartsWithIgnoreCase(s, "http://") then 7
    else 0
  }

  /** The regular expression `^https?:\/\/gitee\.com\/[^/]+\/codes\/([^/?#]+)(?:[/?#]|$)`
      with the `i` flag, applied to a trimmed string: the captured id. Each
      stage below consumes one part of the pattern. */
  function MatchCodesUrl(raw: string): Option<string> {
    var n := SchemeLength(raw);
    if n == 0 then None else MatchHost(raw[n..])
  }

  function MatchHost(s: string): Option<string> {
    if StartsWithIgnoreCase(s, "gitee.com/") then MatchUser(s[10..]) else None
  }

  function MatchUser(s: string): Option<string> {
    var user := TakeSegment(s);
    if user == [] || |user| == |s| then None else MatchCodes(s[|user| + 1..])
  }

  function MatchCodes(s: string): Option<string> {
    if StartsWithIgnoreCase(s, "codes/") then MatchId(s[6..]) else None
  }

  function MatchId(s: string): Option<string> {
    var id := TakeId(s);
    if id == [] then None else Some(id)
  }

  /** `parseGitRemote(gitUrl)`. */
  function ParseGitRemote(gitUrl: Json): Option<GitRemote> {
    var raw := Trim(TextOr(gitUrl));
    if raw == [] then None
    else match MatchCodesUrl(raw)
      case None => None
      case Some(id) => Some(GitRemote("gitee_gist", id))
  }

  // ----- the pattern, stated declaratively -----

  /** A Gitee "codes" URL cut at the points where the regular expression
      moves from one part to the next. */
  datatype CodesUrlParts = CodesUrlParts(scheme: string, host: string, user: string, codes: string, id: string, tail: string)

  function Assemble(p: CodesUrlParts): string {
    p.scheme + (p.host + (p.user + ("/" + (p.codes + (p.id + p.tail)))))
  }

  predicate IsScheme(s: string) {
    EqualsIgnoreCase(s, "https://") || EqualsIgnoreCase(s, "http://")
  }

  predicate IsUser(s: string) {
    s != [] && '/' !in s
  }

  predicate IsId(s: string) {
    s != [] && forall i :: 0 <= i < |s| ==> IsIdChar(s[i])
  }

  predicate IsTail(s: string) {
    s == [] || !IsIdChar(s[0])
  }

  /** `http://` or `https://` in any case, `gitee.com/` in any case, a user
      segment without `/`, `codes/` in any case, a non-empty id without `/`,
      `?` or `#`, then the end of the string or one of `/?#`. */
  predicate WellFormed(p: CodesUrlParts) {
    && IsScheme(p.scheme)
    && EqualsIgnoreCase(p.host, "gitee.com/")
    && IsUser(p.user)
    && EqualsIgnoreCase(p.codes, "codes/")
    && IsId(p.id)
    && IsTail(p.tail)
  }

  lemma Split(a: string, b: string)
    ensures (a + b)[..|a|] == a && (a + b)[|a|..] == b
  {
  }

  lemma TakeSegmentOf(user: string, rest: string)
    requires '/' !in user
    ensures TakeSegment(user + ("/" + rest)) == user
  {
    if user != [] {
      assert (user + ("/" + rest))[1..] == user[1..] + ("/" + rest);
      assert user[0] in user;
      TakeSegmentOf(user[1..], rest);
    } else {
      assert (user + ("/" + rest))[0] == '/';
    }
  }

  lemma TakeIdOf(id: string, tail: string)
    requires forall i :: 0 <= i < |id| ==> IsIdChar(id[i])
    requires IsTail(tail)
    ensures TakeId(id + tail) == id
  {
    if id != [] {
      assert (id + tail)[1..] == id[1..] + tail;
      TakeIdOf(id[1..], tail);
    } else {
      assert id + tail == tail;
    }
  }

  lemma MatchIdOf(id: string, tail: string)
    requires IsId(id) && IsTail(tail)
    ensures MatchId(id + tail) == Some(id)
  {
    TakeIdOf(id, tail);
  }

  lemma MatchCodesOf(codes: string, rest: string)
    requires EqualsIgnoreCase(codes, "codes/")
    ensures MatchCodes(codes + rest) == MatchId(rest)
  {
    Split(codes, rest);
  }

  lemma MatchUserOf(user: string, rest: string)
    requires IsUser(user)
    ensures MatchUser(user + ("/" + rest)) == MatchCodes(rest)
  {
    TakeSegmentOf(user, rest);
    assert (user + ("/" + rest))[|user| + 1..] == rest;
  }

  lemma MatchHostOf(host: string, rest: string)
    requires EqualsIgnoreCase(host, "gitee.com/")
    ensures MatchHost(host + rest) == MatchUser(rest)
  {
    Split(host, rest);
  }

  lemma MatchSchemeOf(scheme: string, rest: string)
    requires IsScheme(scheme)
    ensures MatchCodesUrl(scheme + rest) == MatchHost(rest)
  {
    var s := scheme + rest;
    Split(scheme, rest);
    if !EqualsIgnoreCase(scheme, "https://") {
      assert LowerAscii(s[4]) == ':';
      if |s| >= 8 {
        assert s[..8][4] == s[4];
      }
    }
    assert SchemeLength(s) == |scheme|;
  }

  /** Every URL of the pattern is recognised, and the id captured is exactly
      its id segment. */
  lemma MatchComplete(p: CodesUrlParts)
    requires WellFormed(p)
    ensures MatchCodesUrl(Assemble(p)) == Some(p.id)
  {
    MatchIdOf(p.id, p.tail);
    MatchCodesOf(p.codes, p.id + p.tail);
    MatchUserOf(p.user, p.codes + (p.id + p.tail));
    MatchHostOf(p.host, p.user + ("/" + (p.codes + (p.id + p.tail))));
    MatchSchemeOf(p.scheme, p.host + (p.user + ("/" + (p.codes + (p.id + p.tail)))));
  }

  lemma MatchIdSound(s: string)
    requires MatchId(s).Some?
    ensures var id := MatchId(s).value;
      IsId(id) && IsTail(s[|id|..]) && s == id + s[|id|..]
  {
  }

  lemma MatchCodesSound(s: string)
    requires MatchCodes(s).Some?
    ensures EqualsIgnoreCase(s[..6], "codes/") && MatchCodes(s) == MatchId(s[6..])
    ensures s == s[..6] + s[6..]
  {
  }

  lemma MatchUserSound(s: string)
    requires MatchUser(s).Some?
    ensures var n := |TakeSegment(s)|;
      IsUser(s[..n]) && n < |s| && MatchUser(s) == MatchCodes(s[n + 1..])
      && s == s[..n] + ("/" + s[n + 1..])
  {
    var n := |TakeSegment(s)|;
    assert s[..n] + ("/" + s[n + 1..]) == s;
  }

  lemma MatchHostSound(s: string)
    requires MatchHost(s).Some?
    ensures EqualsIgnoreCase(s[..10], "gitee.com/") && MatchHost(s) == MatchUser(s[10..])
    ensures s == s[..10] + s[10..]
  {
  }

  lemma MatchSchemeSound(raw: string)
    requires MatchCodesUrl(raw).Some?
    ensures var n := SchemeLength(raw);
      IsScheme(raw[..n]) && MatchCodesUrl(raw) == MatchHost(raw[n..]) && raw == raw[..n] + raw[n..]
  {
  }

  /** The cut points of a recognised URL. */
  function PartsOf(raw: string): CodesUrlParts
    requires MatchCodesUrl(raw).Some?
  {
    var n := SchemeLength(raw);
    var afterScheme := raw[n..];
    var afterHost := afterScheme[10..];
    var user := TakeSegment(afterHost);
    var afterUser := afterHost[|user| + 1..];
    var id := TakeId(afterUser[6..]);
    CodesUrlParts(raw[..n], afterScheme[..10], user, afterUser[..6], id, afterUser[6..][|id|..])
  }

  /** Only URLs of the pattern are recognised: a recognised string is one
      assembled from well-formed parts, whose id is the captured one. */
  lemma MatchSound(raw: string)
    requires MatchCodesUrl(raw).Some?
    ensures WellFormed(PartsOf(raw))
    ensures Assemble(PartsOf(raw)) == raw
    ensures PartsOf(raw).id == MatchCodesUrl(raw).value
  {
    var n := SchemeLength(raw);
    MatchSchemeSound(raw);
    var afterScheme := raw[n..];
    MatchHostSound(afterScheme);
    var afterHost := afterScheme[10..];
    MatchUserSound(afterHost);
    var user := TakeSegment(afterHost);
    var afterUser := afterHost[|user| + 1..];
    MatchCodesSound(afterUser);
    var afterCodes := afterUser[6..];
    MatchIdSound(afterCodes);
    var id := TakeId(afterCodes);
    var p := PartsOf(raw);
    assert p == CodesUrlParts(raw[..n], afterScheme[..10], user, afterUser[..6], id, afterCodes[|id|..]);
    assert afterUser == p.codes + (p.id + p.tail);
    assert afterHost == p.user + ("/" + afterUser);
    assert raw == p.scheme + (p.host + afterHost);
  }

  // ----- properties of parseGitRemote -----

  /** Empty or white-space-only input (or a falsy value) gives `null`. */
  lemma ParseBlank(gitUrl: Json)
    requires forall i :: 0 <= i < |TextOr(gitUrl)| ==> IsWhitespace(TextOr(gitUrl)[i])
    ensures ParseGitRemote(gitUrl) == None
  {
    TrimEmptyIff(TextOr(gitUrl));
  }

  /** A recognised remote is always a Gitee gist whose id is non-empty and
      holds no `/`, `?` or `#`. */
  lemma ParseResult(gitUrl: Json)
    requires ParseGitRemote(gitUrl).Some?
    ensures ParseGitRemote(gitUrl).value.provider == "gitee_gist"
    ensures var id := ParseGitRemote(gitUrl).value.gistId;
      id != [] && forall i :: 0 <= i < |id| ==> IsIdChar(id[i])
  {
    MatchSound(Trim(TextOr(gitUrl)));
  }

  /** Both directions at once: a string is recognised with id `id` exactly when
      its trimmed form is a Gitee codes URL with that id. */
  lemma ParseIff(s: string, id: string)
    ensures ParseGitRemote(JStr(s)) == Some(GitRemote("gitee_gist", id))
        <==> exists p :: WellFormed(p) && Assemble(p) == Trim(s) && p.id == id
  {
    var raw := Trim(s);
    assert TextOr(JStr(s)) == s;
    if ParseGitRemote(JStr(s)) == Some(GitRemote("gitee_gist", id)) {
      MatchSound(raw);
      var p := PartsOf(raw);
      assert WellFormed(p) && Assemble(p) == raw && p.id == id;
    }
    if exists p :: WellFormed(p) && Assemble(p) == raw && p.id == id {
      var p :| WellFormed(p) && Assemble(p) == raw && p.id == id;
      MatchComplete(p);
    }
  }

  /** `codes/` needs a `/`, so a string without one never gets past it. */
  lemma MatchCodesNeedsSlash(s: string)
    requires '/' !in s
    ensures MatchCodes(s) == None
  {
    if |s| >= 6 {
      assert s[5] in s;
      assert s[..6][5] == s[5];
    }
  }

  /** A plain Gitee repository URL (`/owner/repo`, with or without `.git`) is
      not a codes URL: it gives `null`. */
  lemma GiteeRepoUrlRejected(scheme: string, owner: string, repo: string)
    requires IsScheme(scheme)
    requires '/' !in owner && '/' !in repo
    ensures MatchCodesUrl(scheme + ("gitee.com/" + (owner + ("/" + repo)))) == None
  {
    MatchSchemeOf(scheme, "gitee.com/" + (owner + ("/" + repo)));
    MatchHostOf("gitee.com/", owner + ("/" + repo));
    if owner == [] {
      assert owner + ("/" + repo) == "/" + repo;
    } else {
      MatchUserOf(owner, repo);
      MatchCodesNeedsSlash(repo);
    }
  }

  /** A URL on any host but gitee.com (github.com among them) gives `null`. */
  lemma OtherHostRejected(scheme: string, host: string, rest: string)
    requires IsScheme(scheme)
    requires |host| == 10 && !EqualsIgnoreCase(host, "gitee.com/")
    ensures MatchCodesUrl(scheme + (host + rest)) == None
  {
    MatchSchemeOf(scheme, host + rest);
    Split(host, rest);
  }

  /** A string without an `http://` or `https://` scheme gives `null`. */
  lemma SchemelessRejected(raw: string)
    requires !StartsWithIgnoreCase(raw, "https://") && !StartsWithIgnoreCase(raw, "http://")
    ensures MatchCodesUrl(raw) == None
  {
  }

  // ----- normalizeSync, canAutoPush, getFormSync -----

  /** The object `normalizeSync` returns, one field per property. */
  datatype NormalizedSync = NormalizedSync(
    gitUrl: Json, token: Json, autoPush: bool,
    provider: string, owner: string, repo: string,
    gistId: Json, path: Json)

  /** The normalised settings as the plain object the page stores. */
  function SyncObject(n: NormalizedSync): (r: Json)
    ensures r.JObj?
    ensures Get(r, "gitUrl") == n.gitUrl && Get(r, "token") == n.token
    ensures Get(r, "autoPush") == JBool(n.autoPush)
    ensures Get(r, "provider") == JStr(n.provider)
    ensures Get(r, "owner") == JStr(n.owner) && Get(r, "repo") == JStr(n.repo)
    ensures Get(r, "gistId") == n.gistId && Get(r, "path") == n.path
  {
    var fields := map[
      "gitUrl" := n.gitUrl,
      "token" := n.token,
      "autoPush" := JBool(n.autoPush),
      "provider" := JStr(n.provider),
      "owner" := JStr(n.owner),
      "repo" := JStr(n.repo),
      "gistId" := n.gistId,
      "path" := n.path
    ];
    JObj(fields)
  }

  /** `parsed?.gistId`. */
  function ParsedGistId(parsed: Option<GitRemote>): Json {
    if parsed.Some? then JStr(parsed.value.gistId) else JNull
  }

  /** `normalizeSync(sync)`: a missing or falsy value reads as `{}`. */
  function NormalizeSync(sync: Json): NormalizedSync {
    var raw := Or(sync, JObj(map[]));
    var parsed := ParseGitRemote(Get(raw, "gitUrl"));
    NormalizedSync(
      Or(Get(raw, "gitUrl"), JStr("")),
      Or(Get(raw, "token"), JStr("")),
      Truthy(Get(raw, "autoPush")),
      "gitee_gist", "", "",
      Or(Or(Get(raw, "gistId"), ParsedGistId(parsed)), JStr("")),
      Or(Get(raw, "path"), JStr(DefaultSyncPath)))
  }

  /** Reading a property through `sync || {}` reads it from `sync`. */
  lemma GetThroughDefault(sync: Json, key: string)
    ensures Get(Or(sync, JObj(map[])), key) == Get(sync, key)
  {
  }

  /** The fields `normalizeSync` fixes, whatever it is given: the provider is
      the Gitee gist, owner and repo are empty and `autoPush` is the
      truthiness of the raw value. */
  lemma NormalizeSyncFixed(sync: Json)
    ensures var n := NormalizeSync(sync);
      && n.provider == "gitee_gist" && n.owner == "" && n.repo == ""
      && n.autoPush == Truthy(Get(sync, "autoPush"))
  {
    GetThroughDefault(sync, "autoPush");
  }

  /** The URL, the token and the path keep a truthy raw value; otherwise the
      first two become empty and the path becomes the default, so the path is
      never empty. */
  lemma NormalizeSyncDefaults(sync: Json)
    ensures var n := NormalizeSync(sync);
      && (Truthy(Get(sync, "path")) ==> n.path == Get(sync, "path"))
      && (!Truthy(Get(sync, "path")) ==> n.path == JStr(DefaultSyncPath))
      && Truthy(n.path)
      && (Truthy(Get(sync, "gitUrl")) ==> n.gitUrl == Get(sync, "gitUrl"))
      && (!Truthy(Get(sync, "gitUrl")) ==> n.gitUrl == JStr(""))
      && (Truthy(Get(sync, "token")) ==> n.token == Get(sync, "token"))
      && (!Truthy(Get(sync, "token")) ==> n.token == JStr(""))
  {
    GetThroughDefault(sync, "path");
    GetThroughDefault(sync, "gitUrl");
    GetThroughDefault(sync, "token");
  }

  /** The gist id comes from the raw value when it is truthy, else from the URL
      when `parseGitRemote` recognises it, else is empty. */
  lemma NormalizeSyncGistId(sync: Json)
    ensures var n := NormalizeSync(sync);
      var parsed := ParseGitRemote(Get(sync, "gitUrl"));
      && (Truthy(Get(sync, "gistId")) ==> n.gistId == Get(sync, "gistId"))
      && (!Truthy(Get(sync, "gistId")) && parsed.Some? ==> n.gistId == JStr(parsed.value.gistId))
      && (!Truthy(Get(sync, "gistId")) && parsed.None? ==> n.gistId == JStr(""))
  {
    var parsed := ParseGitRemote(Get(sync, "gitUrl"));
    GetThroughDefault(sync, "gistId");
    GetThroughDefault(sync, "gitUrl");
    assert NormalizeSync(sync).gistId == Or(Or(Get(sync, "gistId"), ParsedGistId(parsed)), JStr(""));
    if parsed.Some? {
      ParseResult(Get(sync, "gitUrl"));
      assert Truthy(ParsedGistId(parsed));
    }
  }

  /** Replacing a falsy URL by `''` does not change what it parses to. */
  lemma ParseOfDefaultedUrl(gitUrl: Json)
    ensures ParseGitRemote(Or(gitUrl, JStr(""))) == ParseGitRemote(gitUrl)
  {
    assert TextOr(Or(gitUrl, JStr(""))) == TextOr(gitUrl);
  }

  /** Normalising the stored result of `normalizeSync` again changes nothing. */
  lemma NormalizeSyncIdempotent(sync: Json)
    ensures NormalizeSync(SyncObject(NormalizeSync(sync))) == NormalizeSync(sync)
  {
    var n := NormalizeSync(sync);
    var o := SyncObject(n);
    NormalizeSyncDefaults(sync);
    NormalizeSyncGistId(sync);
    ParseOfDefaultedUrl(Get(sync, "gitUrl"));
    NormalizeSyncFixed(o);
    NormalizeSyncDefaults(o);
    NormalizeSyncGistId(o);
  }

  /** `canAutoPush(sync)`. */
  predicate CanAutoPush(sync: Json) {
    if !Truthy(Get(sync, "autoPush")) then false
    else
      var normalized := NormalizeSync(sync);
      Truthy(normalized.gitUrl) && Truthy(normalized.token)
  }

  /** Auto-push is possible exactly when `autoPush` is truthy and the URL and
      the token are both non-empty. */
  lemma CanAutoPushIff(sync: Json)
    ensures CanAutoPush(sync) <==>
      Truthy(Get(sync, "autoPush")) && Truthy(Get(sync, "gitUrl")) && Truthy(Get(sync, "token"))
  {
    NormalizeSyncDefaults(sync);
  }

  /** What `getFormSync` reads from the settings form: the URL field, the
      token field and the auto-push checkbox (a missing box is unchecked). */
  datatype FormSettings = FormSettings(gitUrl: string, token: string, autoPush: bool, remote: Option<GitRemote>, path: string)

  /** The object `getFormSync` returns: `provider` and `gistId` are spread in
      only when a remote was recognised. */
  function FormObject(f: FormSettings): (r: Json)
    ensures r.JObj?
    ensures ("provider" in r.fields <==> f.remote.Some?) && ("gistId" in r.fields <==> f.remote.Some?)
    ensures f.remote.Some? ==> Get(r, "provider") == JStr(f.remote.value.provider) && Get(r, "gistId") == JStr(f.remote.value.gistId)
    ensures Get(r, "gitUrl") == JStr(f.gitUrl) && Get(r, "token") == JStr(f.token)
    ensures Get(r, "autoPush") == JBool(f.autoPush) && Get(r, "path") == JStr(f.path)
  {
    var base := map[
      "gitUrl" := JStr(f.gitUrl),
      "token" := JStr(f.token),
      "autoPush" := JBool(f.autoPush),
      "path" := JStr(f.path)
    ];
    if f.remote.Some? then
      JObj(base["provider" := JStr(f.remote.value.provider)]["gistId" := JStr(f.remote.value.gistId)])
    else JObj(base)
  }

  /** `getFormSync()` for the given field contents. */
  function FormSync(gitUrlField: string, tokenField: string, autoPushChecked: bool): Json {
    var gitUrl := Trim(gitUrlField);
    var parsed := ParseGitRemote(JStr(gitUrl));
    var remote := if parsed.Some? && parsed.value.provider == "gitee_gist" then parsed else None;
    FormObject(FormSettings(gitUrl, Trim(tokenField), autoPushChecked, remote, DefaultSyncPath))
  }

  /** `parseGitRemote` trims its input itself, so trimming first does not
      change what it returns. */
  lemma ParseOfTrimmed(s: string)
    ensures ParseGitRemote(JStr(Trim(s))) == ParseGitRemote(JStr(s))
  {
    TrimIdempotent(s);
    assert TextOr(JStr(Trim(s))) == Trim(s);
    assert TextOr(JStr(s)) == s;
  }

  /** `provider` and `gistId` are written exactly when the URL is recognised,
      and then carry the recognised remote; the path is always the default;
      the URL and the token are stored trimmed. */
  lemma FormSyncShape(gitUrlField: string, tokenField: string, autoPushChecked: bool)
    ensures var f := FormSync(gitUrlField, tokenField, autoPushChecked);
      var parsed := ParseGitRemote(JStr(gitUrlField));
      && f.JObj?
      && ("provider" in f.fields <==> parsed.Some?)
      && ("gistId" in f.fields <==> parsed.Some?)
      && (parsed.Some? ==> Get(f, "provider") == JStr("gitee_gist") && Get(f, "gistId") == JStr(parsed.value.gistId))
      && Get(f, "path") == JStr(DefaultSyncPath)
      && Get(f, "gitUrl") == JStr(Trim(gitUrlField))
      && Get(f, "token") == JStr(Trim(tokenField))
      && Get(f, "autoPush") == JBool(autoPushChecked)
  {
    ParseOfTrimmed(gitUrlField);
    if ParseGitRemote(JStr(gitUrlField)).Some? {
      ParseResult(JStr(gitUrlField));
    }
  }

  /** A saved form can auto-push exactly when the box is ticked and both
      fields hold more than white space. */
  lemma FormSyncCanAutoPush(gitUrlField: string, tokenField: string, autoPushChecked: bool)
    ensures CanAutoPush(FormSync(gitUrlField, tokenField, autoPushChecked)) <==>
      autoPushChecked && Trim(gitUrlField) != "" && Trim(tokenField) != ""
  {
    FormSyncShape(gitUrlField, tokenField, autoPushChecked);
    CanAutoPushIff(FormSync(gitUrlField, tokenField, autoPushChecked));
  }
}
