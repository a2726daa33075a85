/** The one-off sync the new-tab page runs when it opens: pull the remote
    configuration, then push the local one, and only when the sync settings
    are complete. The background worker is reached by messages; its two
    answers are parameters here. */
module StartupSync {
  import opened Wrappers
  import opened JsonValue
  import SyncSettings

  /** `isAutoSyncReady(sync)`. */
  predicate IsAutoSyncReady(sync: Json) {
    if !Truthy(Get(sync, "autoPush")) then false
    else Truthy(Get(sync, "gitUrl")) && Truthy(Get(sync, "token"))
  }

  /** The start-up check and the page's own `canAutoPush` agree on every
      value, although only the latter normalises first. */
  lemma ReadyIffCanAutoPush(sync: Json)
    ensures IsAutoSyncReady(sync) <==> SyncSettings.CanAutoPush(sync)
    ensures !Truthy(Get(sync, "autoPush")) ==> !IsAutoSyncReady(sync)
  {
    SyncSettings.CanAutoPushIff(sync);
  }

  /** A message `{ type }` to the background worker. */
  function Message(kind: string): (m: Json)
    ensures Get(m, "type") == JStr(kind)
  {
    JObj(map["type" := JStr(kind)])
  }

  datatype Stage = Pull | Push

  /** What `runStartupSync` resolves to: `{ ok: false, skipped: true }`,
      `{ ok: false, stage }` or `{ ok: true }`. */
  datatype StartupOutcome = Skipped | Failed(stage: Stage) | Synced

  /** A call of the optional `setStatus(text, kind)` callback; the first call
      passes no kind. */
  datatype Status = Status(text: string, kind: Option<string>)

  const Starting := Status("启动同步中...", None)

  const PullFailedMessage := "启动同步拉取失败"
  const PushFailedMessage := "启动同步推送失败"

  /** The text shown for a failed answer: its `error`, else the fallback. */
  function ErrorText(response: Json, fallback: string): string {
    var e := Get(response, "error");
    if Truthy(e) then ToJsString(e) else fallback
  }

  /** `runStartupSync({ sync, send, setStatus, renderLastSyncAt })`, where the
      background worker answers the pull with `pulled` and the push with
      `pushed`. Returns the outcome, the messages sent in order, the status
      lines shown and the time handed to `renderLastSyncAt`, if it is called. */
  method RunStartupSync(sync: Json, pulled: Json, pushed: Json)
    returns (outcome: StartupOutcome, sent: seq<Json>, statuses: seq<Status>, rendered: Option<Json>)
    ensures !IsAutoSyncReady(sync) ==> outcome == Skipped && sent == [] && statuses == [] && rendered == None
    ensures IsAutoSyncReady(sync) ==> |sent| >= 1 && sent[0] == Message("pullRemote")
    ensures sent == [] || sent == [Message("pullRemote")] || sent == [Message("pullRemote"), Message("pushRemote")]
    ensures IsAutoSyncReady(sync) && !Truthy(Get(pulled, "ok")) ==>
      outcome == Failed(Pull) && sent == [Message("pullRemote")]
      && statuses == [Starting, Status(ErrorText(pulled, PullFailedMessage), Some("error"))]
    ensures IsAutoSyncReady(sync) && Truthy(Get(pulled, "ok")) && !Truthy(Get(pushed, "ok")) ==>
      outcome == Failed(Push) && sent == [Message("pullRemote"), Message("pushRemote")]
      && statuses == [Starting, Status(ErrorText(pushed, PushFailedMessage), Some("error"))]
    ensures outcome == Synced <==> IsAutoSyncReady(sync) && Truthy(Get(pulled, "ok")) && Truthy(Get(pushed, "ok"))
    ensures outcome == Synced ==> statuses == [Starting, Status("启动同步完成", Some("ok"))]
    ensures outcome == Synced ==> rendered == Some(Or(Get(pushed, "lastSyncAt"), Get(pulled, "lastSyncAt")))
    ensures outcome != Synced ==> rendered == None
  {
    sent := [];
    statuses := [];
    rendered := None;
    if !IsAutoSyncReady(sync) {
      return Skipped, sent, statuses, rendered;
    }
    statuses := statuses + [Starting];
    sent := sent + [Message("pullRemote")];
    if !Truthy(Get(pulled, "ok")) {
      statuses := statuses + [Status(ErrorText(pulled, PullFailedMessage), Some("error"))];
      return Failed(Pull), sent, statuses, rendered;
    }
    sent := sent + [Message("pushRemote")];
    if !Truthy(Get(pushed, "ok")) {
      statuses := statuses + [Status(ErrorText(pushed, PushFailedMessage), Some("error"))];
      return Failed(Push), sent, statuses, rendered;
    }
    statuses := statuses + [Status("启动同步完成", Some("ok"))];
    rendered := Some(Or(Get(pushed, "lastSyncAt"), Get(pulled, "lastSyncAt")));
    outcome := Synced;
  }
}
