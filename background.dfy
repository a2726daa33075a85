/** The service worker of background.js: the stored configuration with its
    defaults, the tab opener and the message handler that ties them to the
    sync back-end. */
module Background {
  import opened Wrappers
  import opened JsonValue
  import opened ConfigMerge
  import opened SyncBackend
  import SyncSettings

  function Engine(name: string, baseUrl: string): Json {
    JObj(map["name" := JStr(name), "baseUrl" := JStr(baseUrl)])
  }

  /** `DEFAULT_ENGINES`. */
  const DefaultEngines: Json := JArr([
    Engine("GOOGLE", "https://www.google.com/search?q="),
    Engine("BING", "https://www.bing.com/search?q="),
    Engine("DuckDuckGo", "https://duckduckgo.com/?q="),
    Engine("GitHub Search", "https://github.com/search?q="),
    Engine("BAIDU", "https://www.baidu.com/s?wd=")])

  /** `DEFAULT_CONFIG.sync`. */
  const DefaultSync: Json := JObj(map[
    "provider" := JStr("github"), "owner" := JStr(""), "repo" := JStr(""),
    "branch" := JStr("main"), "path" := JStr(SyncSettings.DefaultSyncPath), "token" := JStr("")])

  /** `DEFAULT_CONFIG`. */
  const DefaultConfig: Json := JObj(map[
    "engines" := DefaultEngines,
    "selectedEngines" := JArr([JStr("GOOGLE"), JStr("BING"), JStr("BAIDU")]),
    "rememberSelections" := JBool(false),
    "popupTipDismissed" := JBool(false),
    "searchHistory" := JArr([]),
    "cards" := JArr([]),
    "sync" := DefaultSync])

  /** The default sync settings cannot be pulled or pushed: the owner is
      missing. */
  lemma DefaultSyncIncomplete()
    ensures ValidationError(DefaultSync) == Some(MissingMessage("owner"))
  {
    assert Get(DefaultSync, "provider") == JStr("github");
    assert Get(DefaultSync, "owner") == JStr("");
    ValidationReportsFirst(DefaultSync, 1);
  }

  /** `readConfig()`, `stored` being the value under `chromeHomeConfig` (`null`
      when there is none): the stored value merged over the defaults, or the
      defaults. */
  function ReadConfig(stored: Json): (r: Json)
    ensures r.JObj? && DefaultConfig.fields.Keys <= r.fields.Keys
  {
    if Truthy(stored) then Merge(DefaultConfig, stored) else DefaultConfig
  }

  /** A configuration a pull stored reads back unchanged. */
  lemma PulledConfigReadsBack(remote: Json)
    ensures ReadConfig(Merge(DefaultConfig, remote)) == Merge(DefaultConfig, remote)
  {
    MergeAbsorbs(DefaultConfig, remote);
  }

  /** The write on installation stores what is read afterwards: reading it
      again gives the same configuration. */
  lemma ReadConfigIdempotent(stored: Json)
    ensures ReadConfig(ReadConfig(stored)) == ReadConfig(stored)
  {
    if Truthy(stored) {
      MergeAbsorbs(DefaultConfig, stored);
    } else {
      MergeSelf(DefaultConfig);
    }
  }

  /** A pulled value that is not an object replaces the default under its
      key, so remote values win over defaults. */
  lemma RemoteWinsOverDefaults(remote: Json, key: string)
    requires remote.JObj? && key in remote.fields && !remote.fields[key].JObj?
    ensures Merge(DefaultConfig, remote).fields[key] == remote.fields[key]
  {
  }

  function OkResponse(): Json {
    JObj(map["ok" := JBool(true)])
  }

  function DataResponse(data: Json): Json {
    JObj(map["ok" := JBool(true), "data" := data])
  }

  /** `{ ok: false, error: err?.message || String(err) }` for an `Error`
      carrying `error`. */
  function ErrorResponse(error: string): (r: Json)
    ensures !Truthy(Get(r, "ok")) && Truthy(Get(r, "error"))
    ensures error != "" ==> Get(r, "error") == JStr(error)
  {
    JObj(map["ok" := JBool(false), "error" := JStr(if error != "" then error else "Error")])
  }

  const UnknownTypeMessage := "未知消息类型"

  /** The `TypeError` a `for...of` over a value that cannot be iterated
      throws. */
  const NotIterableMessage := "urls is not iterable"

  /** The values `for (const url of urls)` visits: an array's elements or a
      string's characters. */
  function TabUrls(urls: Json): Result<seq<Json>, string> {
    match urls
    case JArr(items) => Ok(items)
    case JStr(s) => Ok(seq(|s|, i requires 0 <= i < |s| => JStr([s[i]])))
    case _ => Err(NotIterableMessage)
  }

  /** The extension's background state: the stored configuration (`null`
      when nothing is stored) and the tabs opened so far. */
  class Extension {
    var stored: Json
    var tabs: seq<Json>

    constructor(stored: Json)
      ensures this.stored == stored && tabs == []
    {
      this.stored := stored;
      tabs := [];
    }

    /** The `onInstalled` listener: store what `readConfig` reads. */
    method Installed()
      modifies this
      ensures stored == ReadConfig(old(stored)) && tabs == old(tabs)
    {
      stored := ReadConfig(stored);
    }

    /** `openTabs(urls)`: one background tab per URL, in order. */
    method OpenTabs(urls: Json) returns (error: Option<string>)
      modifies this
      ensures TabUrls(urls).Ok? ==> error == None && tabs == old(tabs) + TabUrls(urls).value
      ensures TabUrls(urls).Err? ==> error == Some(TabUrls(urls).error) && tabs == old(tabs)
      ensures stored == old(stored)
    {
      var list := TabUrls(urls);
      if list.Err? {
        return Some(list.error);
      }
      var i := 0;
      while i < |list.value|
        invariant 0 <= i <= |list.value|
        invariant tabs == old(tabs) + list.value[..i]
        invariant stored == old(stored)
      {
        tabs := tabs + [list.value[i]];
        assert list.value[..i + 1] == list.value[..i] + [list.value[i]];
        i := i + 1;
      }
      assert list.value[..i] == list.value;
      return None;
    }

    /** The `onMessage` listener, with `parse` as `JSON.parse`, `stringify`
        as `JSON.stringify(·, null, 2)` and `now` as the ISO time of a push. */
    method HandleMessage(message: Json, remote: RemoteStore,
                         parse: string -> Result<Json, string>, stringify: Json -> string, now: string)
      returns (response: Json)
      requires StoreValid(remote.State())
      modifies this, remote
      ensures var kind, current := Get(message, "type"), ReadConfig(old(stored));
        && (kind == JStr("getConfig") ==>
              response == DataResponse(current) && stored == old(stored)
              && remote.State() == old(remote.State()) && remote.log == old(remote.log))
        && (kind == JStr("setConfig") ==>
              var next := Merge(current, Or(Get(message, "data"), JObj(map[])));
              response == DataResponse(next) && stored == next
              && remote.State() == old(remote.State()) && remote.log == old(remote.log))
        && (kind == JStr("pullRemote") ==>
              var run := PullSpec(Get(current, "sync"), old(remote.State()), parse);
              && remote.State() == old(remote.State()) && remote.log == old(remote.log) + run.requests
              && (run.result.Ok? ==>
                    stored == Merge(DefaultConfig, run.result.value) && response == DataResponse(stored))
              && (run.result.Err? ==> stored == old(stored) && response == ErrorResponse(run.result.error)))
        && (kind == JStr("pushRemote") ==>
              var run := PushSpec(Get(current, "sync"), stringify(current), now, old(remote.State()));
              && remote.State() == run.after && remote.log == old(remote.log) + run.requests
              && stored == old(stored)
              && response == (if run.result.Pass? then OkResponse() else ErrorResponse(run.result.error)))
        && (kind !in {JStr("getConfig"), JStr("setConfig"), JStr("openTabs"), JStr("pullRemote"), JStr("pushRemote")} ==>
              response == ErrorResponse(UnknownTypeMessage) && stored == old(stored)
              && remote.State() == old(remote.State()) && remote.log == old(remote.log))
      ensures Get(message, "type") == JStr("openTabs") ==>
        var urls := TabUrls(Or(Get(message, "urls"), JArr([])));
        && stored == old(stored) && remote.State() == old(remote.State()) && remote.log == old(remote.log)
        && (urls.Ok? ==> response == OkResponse() && tabs == old(tabs) + urls.value)
        && (urls.Err? ==> response == ErrorResponse(urls.error) && tabs == old(tabs))
      ensures Get(message, "type") != JStr("openTabs") ==> tabs == old(tabs)
    {
      var kind := Get(message, "type");
      if kind == JStr("getConfig") {
        return DataResponse(ReadConfig(stored));
      }
      if kind == JStr("setConfig") {
        response := SetConfig(Or(Get(message, "data"), JObj(map[])));
        return;
      }
      if kind == JStr("openTabs") {
        var error := OpenTabs(Or(Get(message, "urls"), JArr([])));
        if error.Some? {
          return ErrorResponse(error.value);
        }
        return OkResponse();
      }
      if kind == JStr("pullRemote") {
        response := PullRemote(remote, parse);
        return;
      }
      if kind == JStr("pushRemote") {
        response := PushRemote(remote, stringify, now);
        return;
      }
      return ErrorResponse(UnknownTypeMessage);
    }

    /** `setConfig`: the patch merged over the current configuration, stored
        and answered. */
    method SetConfig(patch: Json) returns (response: Json)
      modifies this
      ensures var next := Merge(ReadConfig(old(stored)), patch);
        response == DataResponse(next) && stored == next && tabs == old(tabs)
    {
      var current := ReadConfig(stored);
      var next := Merge(current, patch);
      stored := next;
      return DataResponse(next);
    }

    /** `pullRemote`: the pulled configuration over the defaults is stored and
        answered; an error leaves the stored value alone. */
    method PullRemote(remote: RemoteStore, parse: string -> Result<Json, string>) returns (response: Json)
      modifies this, remote
      ensures tabs == old(tabs)
      ensures var run := PullSpec(Get(ReadConfig(old(stored)), "sync"), old(remote.State()), parse);
        && remote.State() == old(remote.State()) && remote.log == old(remote.log) + run.requests
        && (run.result.Ok? ==>
              stored == Merge(DefaultConfig, run.result.value) && response == DataResponse(stored))
        && (run.result.Err? ==> stored == old(stored) && response == ErrorResponse(run.result.error))
    {
      var config := ReadConfig(stored);
      ghost var before := remote.State();
      var pulled := PullRemoteConfig(Get(config, "sync"), remote, parse);
      assert pulled == PullSpec(Get(config, "sync"), before, parse).result;
      if pulled.Err? {
        return ErrorResponse(pulled.error);
      }
      var merged := Merge(DefaultConfig, pulled.value);
      stored := merged;
      return DataResponse(merged);
    }

    /** `pushRemote`: the current configuration is written to the remote file;
        nothing is stored locally. */
    method PushRemote(remote: RemoteStore, stringify: Json -> string, now: string) returns (response: Json)
      requires StoreValid(remote.State())
      modifies remote
      ensures var current := ReadConfig(stored);
        var run := PushSpec(Get(current, "sync"), stringify(current), now, old(remote.State()));
        && remote.State() == run.after && remote.log == old(remote.log) + run.requests
        && response == (if run.result.Pass? then OkResponse() else ErrorResponse(run.result.error))
    {
      var config := ReadConfig(stored);
      var pushed := PushRemoteConfig(Get(config, "sync"), config, remote, stringify, now);
      if pushed.Fail? {
        return ErrorResponse(pushed.error);
      }
      return OkResponse();
    }
  }
}
