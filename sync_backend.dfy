/** The GitHub/Gitee back-end of background.js: `validateSyncConfig`,
    `pullRemoteConfig` and `pushRemoteConfig`, run against an abstract
    contents store that stands for the provider's REST API. */
module SyncBackend {
  import opened Wrappers
  import opened JsText
  import opened JsonValue
  import ConfigCodec
  import SyncSettings

  // ----- validateSyncConfig -----

  const NoSyncMessage := "缺少同步配置"

  function MissingMessage(key: string): string {
    "同步配置缺少：" + key
  }

  /** The fields the loop checks, in its order. */
  const RequiredKeys: seq<string> := ["provider", "owner", "repo", "branch", "path"]

  /** Those fields followed by `token`, which is checked after the loop. */
  const SyncKeys: seq<string> := RequiredKeys + ["token"]

  /** The position of the first of `keys` whose value in `sync` is falsy, or
      `|keys|` when there is none. */
  function FirstFalsy(sync: Json, keys: seq<string>): (i: nat)
    ensures i <= |keys|
    ensures forall j :: 0 <= j < i ==> Truthy(Get(sync, keys[j]))
    ensures i < |keys| ==> !Truthy(Get(sync, keys[i]))
  {
    if keys == [] then 0
    else if !Truthy(Get(sync, keys[0])) then 0
    else 1 + FirstFalsy(sync, keys[1..])
  }

  /** The error `validateSyncConfig` throws, as one pass over all six fields. */
  function ValidationError(sync: Json): Option<string> {
    if !Truthy(sync) then Some(NoSyncMessage)
    else
      var i := FirstFalsy(sync, SyncKeys);
      if i < |SyncKeys| then Some(MissingMessage(SyncKeys[i])) else None
  }

  /** `validateSyncConfig(sync)`: the loop over the five required fields with
      its early throw, then the token. */
  method ValidateSyncConfig(sync: Json) returns (error: Option<string>)
    ensures error == ValidationError(sync)
  {
    if !Truthy(sync) {
      return Some(NoSyncMessage);
    }
    var i := 0;
    while i < |RequiredKeys|
      invariant 0 <= i <= |RequiredKeys|
      invariant forall j :: 0 <= j < i ==> Truthy(Get(sync, SyncKeys[j]))
    {
      if !Truthy(Get(sync, RequiredKeys[i])) {
        assert SyncKeys[i] == RequiredKeys[i];
        return Some(MissingMessage(RequiredKeys[i]));
      }
      i := i + 1;
    }
    assert SyncKeys[5] == "token";
    if !Truthy(Get(sync, "token")) {
      return Some(MissingMessage("token"));
    }
    assert FirstFalsy(sync, SyncKeys) == 6;
    return None;
  }

  /** A configuration passes exactly when it is truthy and all six fields
      are. */
  lemma ValidationAcceptsIff(sync: Json)
    ensures ValidationError(sync).None? <==>
      && Truthy(sync)
      && Truthy(Get(sync, "provider")) && Truthy(Get(sync, "owner")) && Truthy(Get(sync, "repo"))
      && Truthy(Get(sync, "branch")) && Truthy(Get(sync, "path")) && Truthy(Get(sync, "token"))
  {
    var keys := SyncKeys;
    assert keys[0] == "provider" && keys[1] == "owner" && keys[2] == "repo";
    assert keys[3] == "branch" && keys[4] == "path" && keys[5] == "token";
  }

  /** The field reported is the first empty one in the fixed order. */
  lemma ValidationReportsFirst(sync: Json, i: nat)
    requires Truthy(sync) && i < |SyncKeys|
    requires !Truthy(Get(sync, SyncKeys[i]))
    requires forall j :: 0 <= j < i ==> Truthy(Get(sync, SyncKeys[j]))
    ensures ValidationError(sync) == Some(MissingMessage(SyncKeys[i]))
  {
  }

  /** What `normalizeSync` produces for the Gitee gist is refused by the
      back-end: its owner is empty. */
  lemma NormalizedSyncRejected(sync: Json)
    ensures ValidationError(SyncSettings.SyncObject(SyncSettings.NormalizeSync(sync))) == Some(MissingMessage("owner"))
  {
    SyncSettings.NormalizeSyncFixed(sync);
    OwnerlessRejected(SyncSettings.NormalizeSync(sync));
  }

  /** Settings with a provider but no owner are refused on the owner. */
  lemma OwnerlessRejected(n: SyncSettings.NormalizedSync)
    requires n.provider != "" && n.owner == ""
    ensures ValidationError(SyncSettings.SyncObject(n)) == Some(MissingMessage("owner"))
  {
    var sync := SyncSettings.SyncObject(n);
    assert SyncKeys[0] == "provider" && SyncKeys[1] == "owner";
    ValidationReportsFirst(sync, 1);
  }

  // ----- the provider and the file -----

  datatype Host = GitHub | Gitee

  function HostName(host: Host): string {
    match host
    case GitHub => "GitHub"
    case Gitee => "Gitee"
  }

  /** The dispatch on `sync.provider === 'github'` / `'gitee'`. */
  function ProviderHost(provider: Json): (r: Option<Host>)
    ensures r == Some(GitHub) <==> provider == JStr("github")
    ensures r == Some(Gitee) <==> provider == JStr("gitee")
  {
    if provider == JStr("github") then Some(GitHub)
    else if provider == JStr("gitee") then Some(Gitee)
    else None
  }

  function UnsupportedMessage(provider: Json): string {
    "不支持的 provider：" + ToJsString(provider)
  }

  /** The address one GET and one PUT of a call share: the contents URL built
      from `owner`, `repo` and `path`, on the branch `branch`. */
  datatype Location = Location(host: Host, owner: string, repo: string, branch: string, path: string)

  function LocationOf(host: Host, sync: Json): Location {
    Location(host, ToJsString(Get(sync, "owner")), ToJsString(Get(sync, "repo")),
             ToJsString(Get(sync, "branch")), ToJsString(Get(sync, "path")))
  }

  /** A stored file: the base64 content and the version hash a PUT must
      present to replace it. */
  datatype RemoteFile = RemoteFile(content: string, sha: string)

  /** The requests a call sends. */
  datatype Request =
    | GetFile(at: Location)
    | PutFile(at: Location, message: string, content: string, sha: Option<string>)

  /** What a GET answers: the file, 404 (`null`), or another status that is
      not ok. */
  datatype GetResponse = Found(file: RemoteFile) | NotFound | GetFailed(status: nat)

  /** The provider's side: the stored files, the locations where a GET or a
      PUT fails with a given status (a bad token, a missing repository), and
      the counter behind fresh version hashes. */
  datatype StoreState = StoreState(
    files: map<Location, RemoteFile>,
    getFailures: map<Location, nat>,
    putFailures: map<Location, nat>,
    version: nat)

  /** A status `res.ok` is false for. */
  predicate NotOk(status: nat) {
    !(200 <= status <= 299)
  }

  /** Every stored file has a hash; a failing GET answers a status that is
      neither ok nor 404 (which reads as a missing file), and a failing PUT a
      status that is not ok. */
  predicate StoreValid(st: StoreState) {
    && (forall l :: l in st.files ==> st.files[l].sha != "")
    && (forall l :: l in st.getFailures ==> NotOk(st.getFailures[l]) && st.getFailures[l] != 404)
    && (forall l :: l in st.putFailures ==> NotOk(st.putFailures[l]))
  }

  function Fetch(st: StoreState, at: Location): (r: GetResponse)
    ensures r.Found? ==> at in st.files && r.file == st.files[at]
    ensures r.NotFound? <==> at !in st.getFailures && at !in st.files
  {
    if at in st.getFailures then GetFailed(st.getFailures[at])
    else if at in st.files then Found(st.files[at])
    else NotFound
  }

  /** The status the provider answers a stale write with. */
  const ConflictStatus := 409

  /** The provider's optimistic concurrency: a PUT is accepted when it names
      the current hash of an existing file, or no hash for a new file. */
  function PutRejection(st: StoreState, at: Location, sha: Option<string>): (r: Option<nat>)
    ensures at !in st.putFailures && at in st.files && sha != Some(st.files[at].sha) ==> r == Some(ConflictStatus)
    ensures at !in st.putFailures && at !in st.files && sha.Some? ==> r == Some(ConflictStatus)
  {
    if at in st.putFailures then Some(st.putFailures[at])
    else if at in st.files then (if sha == Some(st.files[at].sha) then None else Some(ConflictStatus))
    else if sha.None? then None
    else Some(ConflictStatus)
  }

  /** In a valid store a failed GET carries a status the code throws on,
      never the 404 it reads as a missing file, and a refused PUT a status
      the code throws on. */
  lemma FailureStatuses(st: StoreState, at: Location, sha: Option<string>)
    requires StoreValid(st)
    ensures Fetch(st, at).GetFailed? ==> NotOk(Fetch(st, at).status) && Fetch(st, at).status != 404
    ensures PutRejection(st, at, sha).Some? ==> NotOk(PutRejection(st, at, sha).value)
  {
  }

  function FreshSha(version: nat): (s: string)
    ensures s != ""
  {
    "v" + NatToString(version)
  }

  function AfterPut(st: StoreState, at: Location, content: string): (r: StoreState)
    requires StoreValid(st)
    ensures StoreValid(r)
    ensures r.files == st.files[at := RemoteFile(content, FreshSha(st.version))]
    ensures r.getFailures == st.getFailures && r.putFailures == st.putFailures
  {
    st.(files := st.files[at := RemoteFile(content, FreshSha(st.version))], version := st.version + 1)
  }

  /** The provider, with the log of the requests it has been sent. */
  class RemoteStore {
    var files: map<Location, RemoteFile>
    var getFailures: map<Location, nat>
    var putFailures: map<Location, nat>
    var version: nat
    var log: seq<Request>

    function State(): StoreState
      reads this
    {
      StoreState(files, getFailures, putFailures, version)
    }

    constructor(st: StoreState)
      ensures State() == st && log == []
    {
      files, getFailures, putFailures, version := st.files, st.getFailures, st.putFailures, st.version;
      log := [];
    }

    method Get(at: Location) returns (response: GetResponse)
      modifies this
      ensures response == Fetch(old(State()), at)
      ensures State() == old(State()) && log == old(log) + [GetFile(at)]
    {
      log := log + [GetFile(at)];
      response := Fetch(State(), at);
    }

    method Put(at: Location, message: string, content: string, sha: Option<string>) returns (rejection: Option<nat>)
      requires StoreValid(State())
      modifies this
      ensures rejection == PutRejection(old(State()), at, sha)
      ensures State() == if rejection.None? then AfterPut(old(State()), at, content) else old(State())
      ensures log == old(log) + [PutFile(at, message, content, sha)]
    {
      log := log + [PutFile(at, message, content, sha)];
      rejection := PutRejection(State(), at, sha);
      if rejection.None? {
        files := files[at := RemoteFile(content, FreshSha(version))];
        version := version + 1;
      }
    }
  }

  // ----- pullRemoteConfig -----

  const MissingFileMessage := "远端文件不存在，请先推送一次"

  function GetFailedMessage(host: Host, status: nat): string {
    HostName(host) + " 获取失败：" + NatToString(status)
  }

  function PutFailedMessage(host: Host, status: nat): string {
    HostName(host) + " 写入失败：" + NatToString(status)
  }

  /** A pull's result and the requests it sends. */
  datatype PullRun = PullRun(result: Result<Json, string>, requests: seq<Request>)

  /** What the pull makes of the GET's answer: `decodeBase64Json(file.content)`
      with `JSON.parse` as `parse`. */
  function PullAnswer(host: Host, response: GetResponse, parse: string -> Result<Json, string>): Result<Json, string> {
    match response
    case GetFailed(status) => Err(GetFailedMessage(host, status))
    case NotFound => Err(MissingFileMessage)
    case Found(file) =>
      match ConfigCodec.DecodeText(file.content)
      case Err(e) => Err(e)
      case Ok(text) => parse(text)
  }

  function PullSpec(sync: Json, st: StoreState, parse: string -> Result<Json, string>): PullRun {
    match ValidationError(sync)
    case Some(e) => PullRun(Err(e), [])
    case None =>
      match ProviderHost(Get(sync, "provider"))
      case None => PullRun(Err(UnsupportedMessage(Get(sync, "provider"))), [])
      case Some(host) =>
        var at := LocationOf(host, sync);
        PullRun(PullAnswer(host, Fetch(st, at), parse), [GetFile(at)])
  }

  /** `pullRemoteConfig(sync)`. */
  method PullRemoteConfig(sync: Json, store: RemoteStore, parse: string -> Result<Json, string>) returns (result: Result<Json, string>)
    modifies store
    ensures var run := PullSpec(sync, old(store.State()), parse);
      result == run.result && store.log == old(store.log) + run.requests
    ensures store.State() == old(store.State())
  {
    var error := ValidateSyncConfig(sync);
    if error.Some? {
      return Err(error.value);
    }
    var provider := Get(sync, "provider");
    var host := ProviderHost(provider);
    if host.None? {
      return Err(UnsupportedMessage(provider));
    }
    var file := store.Get(LocationOf(host.value, sync));
    result := PullAnswer(host.value, file, parse);
  }

  // ----- pushRemoteConfig -----

  /** `chore: update chrome-home-plugin config (<now>)`, where `now` is the
      ISO time of the push. */
  function CommitMessage(now: string): string {
    "chore: update chrome-home-plugin config (" + now + ")"
  }

  /** `existing?.sha`, sent only when truthy. */
  function ShaOf(existing: GetResponse): (sha: Option<string>)
    ensures sha.Some? <==> existing.Found? && existing.file.sha != ""
    ensures sha.Some? ==> sha.value == existing.file.sha
  {
    if existing.Found? && existing.file.sha != "" then Some(existing.file.sha) else None
  }

  /** A push's outcome, its requests and the store it leaves. */
  datatype PushRun = PushRun(result: Outcome<string>, requests: seq<Request>, after: StoreState)

  /** The base64 the PUT carries, `JSON.stringify(config, null, 2)` being
      `text`. */
  function PutContent(text: string): string {
    ConfigCodec.NormalizeBase64(ConfigCodec.EncodeText(text))
  }

  function PushAt(host: Host, at: Location, content: string, message: string, st: StoreState): PushRun
    requires StoreValid(st)
  {
    var existing := Fetch(st, at);
    if existing.GetFailed? then PushRun(Fail(GetFailedMessage(host, existing.status)), [GetFile(at)], st)
    else
      var sha := ShaOf(existing);
      var rejection := PutRejection(st, at, sha);
      PushRun(
        if rejection.None? then Pass else Fail(PutFailedMessage(host, rejection.value)),
        [GetFile(at), PutFile(at, message, content, sha)],
        if rejection.None? then AfterPut(st, at, content) else st)
  }

  function PushSpec(sync: Json, text: string, now: string, st: StoreState): PushRun
    requires StoreValid(st)
  {
    match ValidationError(sync)
    case Some(e) => PushRun(Fail(e), [], st)
    case None =>
      match ProviderHost(Get(sync, "provider"))
      case None => PushRun(Fail(UnsupportedMessage(Get(sync, "provider"))), [], st)
      case Some(host) => PushAt(host, LocationOf(host, sync), PutContent(text), CommitMessage(now), st)
  }

  /** `pushRemoteConfig(sync, config)` with `stringify` as
      `JSON.stringify(·, null, 2)` and `now` as the ISO time. */
  method PushRemoteConfig(sync: Json, config: Json, store: RemoteStore, stringify: Json -> string, now: string)
    returns (result: Outcome<string>)
    requires StoreValid(store.State())
    modifies store
    ensures var run := PushSpec(sync, stringify(config), now, old(store.State()));
      result == run.result && store.log == old(store.log) + run.requests && store.State() == run.after
  {
    var error := ValidateSyncConfig(sync);
    if error.Some? {
      return Fail(error.value);
    }
    var contentBase64 := ConfigCodec.EncodeText(stringify(config));
    var message := CommitMessage(now);
    var provider := Get(sync, "provider");
    var host := ProviderHost(provider);
    if host.None? {
      return Fail(UnsupportedMessage(provider));
    }
    result := PushFile(host.value, LocationOf(host.value, sync), ConfigCodec.NormalizeBase64(contentBase64), message, store);
  }

  /** The provider branch of `pushRemoteConfig`: the GET of the file, then
      the PUT with its hash (`githubGetFile` and `githubPutFile`, or their
      Gitee counterparts). */
  method PushFile(host: Host, at: Location, content: string, message: string, store: RemoteStore)
    returns (result: Outcome<string>)
    requires StoreValid(store.State())
    modifies store
    ensures var run := PushAt(host, at, content, message, old(store.State()));
      result == run.result && store.log == old(store.log) + run.requests && store.State() == run.after
  {
    var existing := store.Get(at);
    if existing.GetFailed? {
      return Fail(GetFailedMessage(host, existing.status));
    }
    var sha := ShaOf(existing);
    var rejection := store.Put(at, message, content, sha);
    if rejection.Some? {
      return Fail(PutFailedMessage(host, rejection.value));
    }
    return Pass;
  }

  // ----- properties of the two calls -----

  /** Neither call sends a request before the configuration is valid and the
      provider is known. */
  lemma RejectedBeforeRequests(sync: Json, text: string, now: string, st: StoreState, parse: string -> Result<Json, string>)
    requires StoreValid(st)
    requires ValidationError(sync).Some? || ProviderHost(Get(sync, "provider")).None?
    ensures PullSpec(sync, st, parse).requests == [] && PullSpec(sync, st, parse).result.Err?
    ensures PushSpec(sync, text, now, st) == PushRun(PushSpec(sync, text, now, st).result, [], st)
    ensures PushSpec(sync, text, now, st).result.Fail?
    ensures ValidationError(sync).Some? ==>
      PullSpec(sync, st, parse).result.error == ValidationError(sync).value &&
      PushSpec(sync, text, now, st).result.error == ValidationError(sync).value
    ensures ValidationError(sync).None? ==>
      PullSpec(sync, st, parse).result.error == UnsupportedMessage(Get(sync, "provider")) &&
      PushSpec(sync, text, now, st).result.error == UnsupportedMessage(Get(sync, "provider"))
  {
  }

  /** The sha rule: one GET, then one PUT to the same file naming exactly the
      hash that GET returned, and no hash when the file did not exist. */
  lemma PushShaRule(sync: Json, text: string, now: string, st: StoreState)
    requires StoreValid(st)
    requires ValidationError(sync).None? && ProviderHost(Get(sync, "provider")).Some?
    requires LocationOf(ProviderHost(Get(sync, "provider")).value, sync) !in st.getFailures
    ensures var at := LocationOf(ProviderHost(Get(sync, "provider")).value, sync);
      PushSpec(sync, text, now, st).requests ==
        [GetFile(at), PutFile(at, CommitMessage(now), PutContent(text),
                              if at in st.files then Some(st.files[at].sha) else None)]
  {
  }

  /** Because the hash comes from the same call, a push never meets a
      conflict: unless the provider refuses the request outright, it
      succeeds and stores the new content. */
  lemma PushSucceeds(sync: Json, text: string, now: string, st: StoreState)
    requires StoreValid(st)
    requires ValidationError(sync).None? && ProviderHost(Get(sync, "provider")).Some?
    requires var at := LocationOf(ProviderHost(Get(sync, "provider")).value, sync);
      at !in st.getFailures && at !in st.putFailures
    ensures var at := LocationOf(ProviderHost(Get(sync, "provider")).value, sync);
      var run := PushSpec(sync, text, now, st);
      run.result == Pass && run.after.files == st.files[at := RemoteFile(PutContent(text), FreshSha(st.version))]
  {
  }

  /** A pull of a file nobody has pushed reports that the file is missing. */
  lemma PullMissingFile(sync: Json, st: StoreState, parse: string -> Result<Json, string>)
    requires ValidationError(sync).None? && ProviderHost(Get(sync, "provider")).Some?
    requires var at := LocationOf(ProviderHost(Get(sync, "provider")).value, sync);
      at !in st.getFailures && at !in st.files
    ensures PullSpec(sync, st, parse).result == Err(MissingFileMessage)
  {
  }

  /** A pull after a successful push hands `JSON.parse` exactly the text the
      push had from `JSON.stringify`, non-ASCII characters included. */
  lemma PushThenPull(sync: Json, text: string, now: string, st: StoreState, parse: string -> Result<Json, string>)
    requires StoreValid(st)
    requires PushSpec(sync, text, now, st).result == Pass
    requires var host := ProviderHost(Get(sync, "provider"));
      host.Some? && LocationOf(host.value, sync) !in st.getFailures
    ensures PullSpec(sync, PushSpec(sync, text, now, st).after, parse).result == parse(text)
  {
    ConfigCodec.RoundTrip(text);
  }
}
