# Config sync of the new-tab extension, modelled in Dafny

The extension keeps a configuration object and shows it on Chrome's new-tab
page. The configuration holds search engines, search history, cards and sync
settings. This project models how that configuration is stored, merged,
encoded and synchronised with a remote file, and proves what each step
guarantees.

The background service worker holds the configuration. It merges patches into
it with a recursive "patch wins" merge. It answers the page's messages, and it
reads and writes the remote file through a GitHub or Gitee contents API. The
file content is the JSON text, encoded as UTF-8 and then base64. A push sends
back the hash of the file read in the same call.

The new-tab page has four parts in this model:
- the sync-settings normaliser and its Gitee "codes" URL parser, shared with
  the options page;
- a debounced auto-push scheduler;
- the search-history and card list operations;
- helpers for text, URLs, hot-list data and anniversary dates.

The startup script pulls and then pushes, once, when auto-sync is ready.

The project has one module per concern:

| module | file | what it models |
|---|---|---|
| `JsonValue` | json.dfy | JSON-like values; JavaScript truthiness, the logical or, property reads, `String(v)`, `Object.entries` |
| `JsText` | jstext.dfy | `String.prototype.trim`, ASCII case-insensitive prefixes, decimal digits |
| `ConfigMerge` | merge.dfy | `deepMerge`, as a specification function and the loop that implements it |
| `Utf8` | utf8.dfy | UTF-8 encoding and strict decoding (RFC 3629) |
| `Base64` | base64.dfy | `btoa` and the forgiving `atob` (section 4 of RFC 4648) |
| `UriEncoding` | uri.dfy | `encodeURIComponent`/`decodeURIComponent` (section 2.1 of RFC 3986) and `encodePath` |
| `ConfigCodec` | codec.dfy | `normalizeBase64`, `encodeConfigAsBase64`, `decodeBase64Json` |
| `SyncSettings` | sync_settings.dfy | `parseGitRemote`, `normalizeSync`, `canAutoPush`, `getFormSync` |
| `SyncBackend` | sync_backend.dfy | `validateSyncConfig`, an abstract remote store, `pullRemoteConfig`, `pushRemoteConfig` |
| `Background` | background.dfy | `DEFAULT_CONFIG`, `readConfig`, `onInstalled`, `openTabs`, the message handler |
| `AutoPushScheduler` | auto_push.dfy | `scheduleAutoPush`, as a state machine and as a class over its three variables and the live timeouts |
| `SearchBox` | search.dfy | `computeSearchUrls`, `addToHistory` |
| `CardList` | cards.dfy | `addCard`, `updateCard`, `reorderCards`, `deleteCard`, as functions on the list |
| `NewTab` | new_tab.dfy | the page state those operations reassign, with one method per operation |
| `PageText` | page_text.dfy | `escapeHtml`, `normalizeUrl`, `parseHotApiData` |
| `AnniversaryDates` | dates.dfy | `isLeapYear`, `createSafeDateAtNoon`, `parseYmd`, `calcNextAnniversary` |
| `StartupSync` | sync_startup.dfy | `isAutoSyncReady`, `runStartupSync` |

Outside effects become parameters or abstract state:
- Chrome storage is the `stored` field of `Background.Extension`.
- Opened tabs are its `tabs` field.
- The remote provider is `SyncBackend.RemoteStore`. It holds files with their
  hashes, the requests that fail with an HTTP status (never an ok status,
  and never 404 for a GET, which reads as a missing file), and a log of
  every request sent.
- `JSON.parse` is the function parameter `parse`, and `JSON.stringify(_, null, 2)`
  is the parameter `stringify`.
- The ISO time in the commit message is the string `now`.
- The replies of `send` in the startup script are the inputs `pulled` and
  `pushed`.
- A `Date` is its calendar fields, and the difference of two noon
  timestamps, in days, is the difference of the two dates' day numbers.

The model follows the code as written, including where it does less than
its surroundings suggest:
- `parseGitRemote` recognises only Gitee "codes" URLs. SCP-style addresses
  and GitHub or Gitee repository URLs give `null`.
- `validateSyncConfig` does not normalise first. It checks `provider`,
  `owner`, `repo`, `branch`, `path` and `token` of the stored object as it is.
- So what `normalizeSync` produces (`provider` `gitee_gist`, empty `owner`) is
  refused on `owner` (`SyncBackend.NormalizedSyncRejected`). The default
  settings are refused on `owner` too (`Background.DefaultSyncIncomplete`).
- `parseYmd` refuses the years 0000 to 0099, because `new Date` reads them as
  1900 to 1999 and the round-trip comparison then fails
  (`AnniversaryDates.ParseYmdTextIff`).

## Model

| member | source | states |
|---|---|---|
| JsonValue.OrTruthy | background.js:188 | the logical or of `a` and `b` is one of its two operands, and it is truthy exactly when `a` or `b` is |
| JsonValue.GetDefined | background.js:138 | a property read that gives anything but `undefined` (modelled as `null`) found that field of a plain object |
| JsonValue.TextOr | newtab.js:137 | the text of a value defaulted to `''` is empty for a falsy value and the string itself for a string |
| JsonValue.ToJsStringOfString | background.js:70 | converting a string to a string leaves it unchanged |
| JsonValue.Entries | background.js:40 | `Object.entries` of an object is its fields, and of an array its items under the keys "0", "1", … |
| JsonValue.IndexEntries | background.js:40 | the index map of an array has exactly the keys "0" … "n-1", each holding the item at that index |
| JsonValue.EntriesSmaller | background.js:40-42 | every entry of an object or array is structurally smaller, so the recursion of `deepMerge` terminates |
| JsText.TrimStart | newtab.js:137 | removes exactly the leading whitespace: the result is a suffix, every removed character is whitespace, and the result does not start with whitespace |
| JsText.TrimEnd | newtab.js:137 | removes exactly the trailing whitespace, symmetrically |
| JsText.TrimSpec | newtab.js:137 | `trim()` yields the middle of the string between a whitespace-only prefix and a whitespace-only suffix, with no whitespace at either end |
| JsText.TrimIdempotent | newtab.js:137 | trimming twice is trimming once |
| JsText.TrimOfTrimmed | newtab.js:261 | a string with no whitespace at either end is left as it is |
| JsText.TrimEmptyIff | newtab.js:137-138 | `trim()` is empty exactly when every character is whitespace |
| JsText.NatToString | background.js:75 | the decimal text of a number is non-empty, made of digits, and has no leading zero |
| JsText.NatToStringValue | newtab.js:691-693 | reading the decimal text of `n` back with `Number` gives `n` |
| JsText.NatToStringInjective | background.js:75 | different numbers have different decimal texts |
| ConfigMerge.Merge | background.js:37-48 | a patch that is not an object (falsy or scalar) gives back `base`; otherwise the keys are those of `base` and the patch, keys only in `base` keep their value, and a patch value that does not merge recursively replaces the base value |
| ConfigMerge.DeepMerge | background.js:37-48 | the copy-then-assign loop returns exactly `Merge(base, patch)`, with each nested object merged by a recursive call |
| ConfigMerge.AssignOne | background.js:40-46 | one loop iteration extends the assigned map by exactly that key's merged entry |
| ConfigMerge.MergeAt | background.js:41-45 | under every key of the patch, the result holds the recursive merge when both values are non-array objects, and the patch value otherwise |
| ConfigMerge.PatchLeafWins | background.js:41-45 | along any path of object keys, a non-object value of the patch (a scalar, `null` or a whole array) is what the result holds there, so arrays are replaced wholesale |
| ConfigMerge.MergeSelf | background.js:37-48 | merging a configuration into itself gives it back |
| ConfigMerge.MergeIdempotent | background.js:37-48 | applying the same patch twice is applying it once |
| ConfigMerge.MergeAbsorbs | background.js:37-48 | merging the result of a merge onto the same base gives that result again |
| ConfigMerge.MergeOntoNull | background.js:39-46 | merging an object patch onto `null` gives the patch itself |
| Utf8.EncodeChar | background.js:126 | each character encodes to between one and four bytes |
| Utf8.DecodeFirst | background.js:130 | a decoded character consumes between one and all of the remaining bytes |
| Utf8.DecodeFirstOfEncodeChar | background.js:126-130 | the first character decoded from an encoded character followed by anything is that character, with its own length |
| Utf8.DecodeFirstOfTwo | background.js:126-130 | a character from U+0080 to U+07FF is decoded from its two-byte encoding |
| Utf8.DecodeFirstOfThree | background.js:126-130 | a character from U+0800 to U+FFFF is decoded from its three-byte encoding |
| Utf8.DecodeFirstOfFour | background.js:126-130 | a character from U+10000 up is decoded from its four-byte encoding |
| Utf8.RoundTrip | background.js:126-130 | decoding the UTF-8 encoding of any text gives the text back |
| Utf8.DecodeCanonical | background.js:130 | whatever decodes re-encodes to exactly the same bytes, so overlong and otherwise non-canonical forms are refused |
| Utf8.EncodesBack | background.js:130 | by induction: bytes that decode to a text are that text's encoding |
| Utf8.EncodeCharOfDecodeFirst | background.js:130 | the bytes a decoded character consumed are that character's encoding |
| Base64.SextetChar | background.js:126 | every 6-bit value has a character of the base64 alphabet |
| Base64.SextetRoundTrip | background.js:126-130 | the alphabet is read back to the value it encodes |
| Base64.Sextets | background.js:126 | three bytes give four 6-bit values, and a final group of one or two bytes gives two or three |
| Base64.ValuesOfChars | background.js:126-130 | reading the characters of a list of values gives the values back |
| Base64.EncodeUnpadded | background.js:126 | the output before padding has the expected length and uses only the alphabet |
| Base64.PaddedSize | background.js:126 | with its `=` padding, the output length is a multiple of four |
| Base64.Encode | background.js:126 | `btoa` output has a length that is a multiple of four |
| Base64.RemoveWhitespace | background.js:130 | `atob` drops every ASCII whitespace character |
| Base64.GroupRoundTrip | background.js:126-130 | a group of three bytes decodes back to the same three bytes |
| Base64.TailRoundTrip | background.js:126-130 | a final group of one or two bytes decodes back to the same bytes |
| Base64.SextetsRoundTrip | background.js:126-130 | by induction: decoding the 6-bit values of any bytes gives the bytes back |
| Base64.UnpaddedSizeMod | background.js:126 | the unpadded length is never 1 more than a multiple of four |
| Base64.StripPaddingOfEncode | background.js:126-130 | `atob` removes exactly the padding that `btoa` added |
| Base64.RoundTrip | background.js:126-130 | `atob(btoa(bytes))` gives the bytes back |
| Base64.UnpaddedLength | background.js:130 | the unpadded encoding never has the length that `atob` refuses |
| UriEncoding.HexDigit | background.js:66 | every nibble has a hex digit |
| UriEncoding.HexRoundTrip | background.js:66 | the hex digit is read back to its value |
| UriEncoding.PercentBytes | background.js:66 | each byte becomes `%` followed by two hex digits |
| UriEncoding.EncodedAlphabet | background.js:66 | `encodeURIComponent` output consists of unreserved marks, `%` and hex digits only, so it holds no `/`, `?`, `#` or space |
| UriEncoding.BytesOfEncoded | background.js:66 | unescaping the encoding of a text gives that text's UTF-8 bytes |
| UriEncoding.ComponentRoundTrip | background.js:66 | `decodeURIComponent(encodeURIComponent(s))` is `s` |
| UriEncoding.Split | background.js:65 | `split('/')` gives at least one part, and no part contains `/` |
| UriEncoding.JoinSplit | background.js:65-67 | joining the parts with `/` gives the string back |
| UriEncoding.SplitJoin | background.js:65-67 | splitting a join of slash-free parts gives the parts back |
| UriEncoding.MapEncode | background.js:66 | each part is replaced by its `encodeURIComponent` |
| UriEncoding.DecodeEncodedSegments | background.js:65-67 | decoding each encoded segment and joining with `/` gives the original segments joined |
| UriEncoding.EncodePathSegments | background.js:63-67 | the segments of `encodePath(path)` are exactly the encoded segments of `path` |
| UriEncoding.PathRoundTrip | background.js:63-67 | decoding `encodePath(path)` segment by segment gives `path` back |
| UriEncoding.EncodePathAlphabet | background.js:63-67 | `encodePath` output holds only encoded characters and the separating `/` |
| ConfigCodec.NormalizeBase64 | background.js:61 | the result holds no newline and is no longer than the input |
| ConfigCodec.NormalizeBase64Append | background.js:61 | removing newlines distributes over concatenation |
| ConfigCodec.NormalizeBase64Char | background.js:61 | a newline is removed, and any other character, `\r` included, is kept |
| ConfigCodec.NormalizeBase64Clean | background.js:61 | a string without newlines is left as it is |
| ConfigCodec.DecodeOfNormalized | background.js:61 | removing newlines does not change what `atob` decodes |
| ConfigCodec.RemoveWhitespaceOfNormalized | background.js:61 | after `atob` drops whitespace, removing newlines first makes no difference |
| ConfigCodec.EncodeText | background.js:124-127 | `btoa(unescape(encodeURIComponent(json)))`, composed step by step, is the base64 of the text's UTF-8 bytes |
| ConfigCodec.DecodeText | background.js:129-131 | decoding fails only with `atob`'s error or `URI malformed` |
| ConfigCodec.EncodeTextHasNoNewline | background.js:89 | `normalizeBase64` leaves encoded content unchanged |
| ConfigCodec.RoundTrip | background.js:124-132 | decoding the encoded JSON text gives the text back, non-ASCII characters included, with or without `normalizeBase64` |
| ConfigCodec.DecodedTextEncodes | background.js:130 | a decoded text is exactly the UTF-8 reading of the base64 bytes |
| SyncSettings.TakeSegment | newtab.js:140 | `[^/]+` takes the longest prefix without `/` |
| SyncSettings.TakeId | newtab.js:140 | `([^/?#]+)` takes the longest prefix without `/`, `?` or `#` |
| SyncSettings.MatchComplete | newtab.js:140 | every well-formed `http(s)://gitee.com/<user>/codes/<id>` URL, with any letter case in the fixed parts and followed by the end, `/`, `?` or `#`, matches and captures `id` |
| SyncSettings.MatchSound | newtab.js:140 | every match splits the text into such a well-formed URL, and the capture is its id |
| SyncSettings.ParseBlank | newtab.js:137-138 | blank or whitespace-only input gives `null` |
| SyncSettings.ParseResult | newtab.js:141 | a parse result has provider `gitee_gist` and a non-empty id with no `/`, `?` or `#` |
| SyncSettings.ParseIff | newtab.js:136-143 | the parse gives `{gitee_gist, id}` exactly when the trimmed text is a well-formed codes URL with that id |
| SyncSettings.MatchCodesNeedsSlash | newtab.js:140 | after the user segment, text without a `/` does not match |
| SyncSettings.GiteeRepoUrlRejected | options.js:9-11 | a plain `gitee.com/<owner>/<repo>` repository URL gives `null` |
| SyncSettings.OtherHostRejected | options.js:9-11 | any host other than `gitee.com`, `github.com` included, gives `null` |
| SyncSettings.SchemelessRejected | newtab.js:140 | text not starting with `http://` or `https://` gives `null` |
| SyncSettings.NormalizeSyncFixed | newtab.js:151-154 | provider is always `gitee_gist`, owner and repo are always empty, and `autoPush` is the boolean of the raw value |
| SyncSettings.NormalizeSyncDefaults | newtab.js:149-156 | `gitUrl` and `token` are the raw values or `''`, and `path` is the raw path or `DEFAULT_SYNC_PATH`, so it is never empty |
| SyncSettings.NormalizeSyncGistId | newtab.js:155 | `gistId` is the raw value, else the parsed id, else `''` |
| SyncSettings.NormalizeSyncIdempotent | options.js:14-27 | normalising normalised settings changes nothing |
| SyncSettings.CanAutoPushIff | newtab.js:201-206 | auto-push is possible exactly when `autoPush`, `gitUrl` and `token` are all truthy |
| SyncSettings.ParseOfTrimmed | options.js:44-45 | parsing already-trimmed text is parsing the original text |
| SyncSettings.FormSyncShape | options.js:42-56 | `provider`/`gistId` are present only when `parseGitRemote` succeeded and then hold its result; `path` is always `DEFAULT_SYNC_PATH`; `gitUrl` and `token` are trimmed |
| SyncSettings.FormSyncCanAutoPush | options.js:42-56 | settings read from the form can auto-push exactly when the box is checked and both trimmed fields are non-empty |
| SyncBackend.FirstFalsy | background.js:137-140 | the index of the first field in the fixed order whose value is falsy |
| SyncBackend.ValidateSyncConfig | background.js:134-141 | the early-throw loop raises exactly the error of `ValidationError` |
| SyncBackend.ValidationAcceptsIff | background.js:134-141 | validation passes exactly when `sync` is truthy and provider, owner, repo, branch, path and token are all truthy |
| SyncBackend.ValidationReportsFirst | background.js:136-140 | the error names the first missing field in the order provider, owner, repo, branch, path, token |
| SyncBackend.NormalizedSyncRejected | background.js:134-141 | every settings object `normalizeSync` produces is refused, on `owner` |
| SyncBackend.OwnerlessRejected | background.js:136-138 | settings with a provider and an empty owner are refused on `owner` |
| SyncBackend.ProviderHost | background.js:145-155 | the provider selects GitHub exactly for `github` and Gitee exactly for `gitee` |
| SyncBackend.AfterPut | background.js:79-96 | a successful PUT replaces the file at its location with the new content and a fresh non-empty hash, and changes nothing else |
| SyncBackend.FailureStatuses | background.js:69-122 | in a valid store a failed GET has a status that is neither ok nor 404, and a refused PUT a status that is not ok, so the code's `throw` is what those statuses reach |
| SyncBackend.RemoteStore.Get | background.js:69-77 | one GET request is logged and the store is unchanged |
| SyncBackend.RemoteStore.Put | background.js:79-96 | one PUT request is logged with its hash, and the store changes only when the PUT succeeds |
| SyncBackend.PullRemoteConfig | background.js:143-156 | the pull gives the result and sends the requests of `PullSpec`, and leaves the store unchanged |
| SyncBackend.PushRemoteConfig | background.js:158-178 | the push gives the result, the requests and the new store state of `PushSpec` |
| SyncBackend.PushFile | background.js:163-175 | a GET followed by one PUT carrying the hash that GET returned |
| SyncBackend.RejectedBeforeRequests | background.js:143-178 | invalid settings or an unsupported provider fail with the validation error or the unsupported-provider error before any request, and leave the store unchanged |
| SyncBackend.PushShaRule | background.js:163-174 | a push sends exactly a GET and then a PUT to the same location, whose hash is the hash of the file found, or none when the file is absent |
| SyncBackend.PushSucceeds | background.js:158-178 | when the provider does not refuse the requests, the push succeeds and the file holds the encoded configuration; the hash from the same call never conflicts |
| SyncBackend.PullMissingFile | background.js:145-153 | pulling a file that does not exist fails with "远端文件不存在，请先推送一次" |
| SyncBackend.PushThenPull | background.js:143-178 | after a successful push, a pull reads back what `JSON.parse` makes of the pushed text |
| Background.DefaultSyncIncomplete | background.js:18-25 | the default sync settings are refused on `owner` |
| Background.ReadConfig | background.js:28-31 | the configuration read always has every key of `DEFAULT_CONFIG` |
| Background.PulledConfigReadsBack | background.js:198-203 | a pulled configuration, once stored, reads back unchanged |
| Background.ReadConfigIdempotent | background.js:28-31 | reading a configuration that was read and stored gives it back |
| Background.RemoteWinsOverDefaults | background.js:201 | a non-object value in the remote configuration wins over the default |
| Background.ErrorResponse | background.js:213-215 | a failure reply is never ok and always carries a non-empty error text: the error's own message when it has one |
| Background.Extension.constructor | background.js:28-35 | the extension starts with the given storage and no tabs |
| Background.Extension.Installed | background.js:50-53 | on install, storage holds the configuration as read |
| Background.Extension.OpenTabs | background.js:55-59 | one tab per URL, in order, or the not-iterable error with no tab opened |
| Background.Extension.SetConfig | background.js:186-192 | storage and the reply hold `deepMerge(current, patch)` |
| Background.Extension.PullRemote | background.js:198-205 | on success, storage and the reply hold `deepMerge(DEFAULT_CONFIG, remote)`; on failure, storage is unchanged and the reply carries the error |
| Background.Extension.PushRemote | background.js:206-211 | the stored configuration is pushed, and the reply is `{ok: true}` or the error |
| Background.Extension.HandleMessage | background.js:180-217 | `getConfig` replies with the configuration; `setConfig` stores and replies with the merge of `message.data`, defaulted to `{}`; `openTabs`, `pullRemote` and `pushRemote` behave as above; any other type replies `{ok: false, error: '未知消息类型'}`; nothing else changes |
| AutoPushScheduler.StepValid | newtab.js:212-246 | every event keeps the invariant: the only live timeout is the stored `autoPushTimer`, `pending` only while a push is in progress, and at most one push unfinished |
| AutoPushScheduler.ValidOneTimer | newtab.js:220-221 | in every state the invariant allows, at most one timeout is live, and none exactly when `autoPushTimer` is `null` |
| AutoPushScheduler.RunValid | newtab.js:212-246 | by induction over any sequence of events: the invariant holds, so at most one push is in flight and at most one timeout is live; the push counters never go down |
| AutoPushScheduler.ScheduleNotReady | newtab.js:213-218 | when `canAutoPush` is false, scheduling clears and arms no timeout and starts no push |
| AutoPushScheduler.RescheduleKeepsOneTimer | newtab.js:220-221 | `clearTimeout` then `setTimeout`: the previously live timeout is cancelled, exactly the new one is live and stored, and nothing about the pushes changes |
| AutoPushScheduler.FireWhileBusy | newtab.js:222-226 | a timeout that fires during a push clears `autoPushTimer`, leaves no timeout live, only sets `pending` and starts nothing |
| AutoPushScheduler.FireWhenIdle | newtab.js:222-231 | a timeout that fires while idle clears `autoPushTimer` and starts exactly one push |
| AutoPushScheduler.FinishReschedules | newtab.js:238-243 | when a push settles, `inProgress` and `pending` are cleared; a set `pending` with ready settings arms exactly one new timeout, otherwise the live timeouts are unchanged |
| AutoPushScheduler.BurstOfSchedules | newtab.js:220-221 | by induction over a burst of n schedules: every timeout live before it is cancelled, only the n-th new one is live and stored, and no push starts |
| AutoPushScheduler.AutoPush.constructor | newtab.js:208-210 | no stored or live timeout, no push in progress, nothing pending |
| AutoPushScheduler.AutoPush.ScheduleAutoPush | newtab.js:212-221 | the fields make the `Schedule` step (clear, then arm); the incomplete-settings status appears exactly when `autoPush` is set but auto-push is not possible |
| AutoPushScheduler.AutoPush.TimerFire | newtab.js:221-231 | the fields make the timer-fire step of the firing timeout |
| AutoPushScheduler.AutoPush.PushSettled | newtab.js:238-244 | the fields make the push-finished step |
| SearchBox.SelectedEngines | newtab.js:397 | filtering keeps at most the engines there are |
| SearchBox.SelectedEnginesMembers | newtab.js:397 | an engine is kept exactly when it is configured and its name is selected |
| SearchBox.SelectedEnginesAppend | newtab.js:397 | filtering distributes over concatenation, so the configured order is kept |
| SearchBox.MissingBaseUrl | newtab.js:397 | an engine with no `baseUrl` gives `undefined` followed by the encoded keyword, which differs from the text of `null` |
| SearchBox.SearchUrlsSpec | newtab.js:394-398 | one URL per selected engine, in configured order: its base URL as text (`undefined` when it has none) followed by `encodeURIComponent(keyword)`, which decodes back to the keyword |
| SearchBox.SearchUrlsSelectionOrder | newtab.js:396 | only the set of selected names matters, not their order or repetition |
| SearchBox.IndexOf | newtab.js:402 | `indexOf` is -1 exactly when the term is absent, and otherwise its first position |
| SearchBox.RemoveFirst | newtab.js:403 | `splice(i, 1)` removes one entry when the term is present and nothing otherwise |
| SearchBox.WithoutRemoved | newtab.js:403 | removing the first occurrence leaves the other entries as they were |
| SearchBox.HistoryFront | newtab.js:404 | the term ends up at index 0 |
| SearchBox.HistoryOnce | newtab.js:402-404 | in a history without duplicates, the term occurs exactly once afterwards |
| SearchBox.HistoryOrder | newtab.js:400-405 | the other entries keep their relative order, and only the oldest can drop off |
| SearchBox.HistoryKeepsOthers | newtab.js:402-405 | when nothing drops off, the other entries are exactly those before |
| SearchBox.HistoryBound | newtab.js:405 | the length stays at most 20 when it was at most 20 |
| CardList.FindIndex | newtab.js:643 | `findIndex` is -1 exactly when no card has the id, and otherwise the first card with it |
| CardList.AddedCardFound | newtab.js:627-639 | the added card is first and the only one with its id, and the old cards follow unchanged |
| CardList.UpdatedFieldsSpec | newtab.js:645-648 | title and url are replaced; `icon` is the new icon when truthy and removed otherwise; every other field is kept |
| CardList.UpdatedCardsSpec | newtab.js:641-653 | an unknown id changes nothing; otherwise only the first card with the id changes, as above |
| CardList.RemoveInsert | newtab.js:660-661 | removing what was just inserted at an index gives the list back |
| CardList.ReorderedSpec | newtab.js:655-661 | a missing id leaves the cards unchanged; otherwise the result is a permutation with the dragged card at the target's former index and the others in their order |
| CardList.DeletedCounts | newtab.js:669 | every card with the id is removed, and every other card is kept as often as it occurred |
| CardList.DeletedAppend | newtab.js:669 | filtering distributes over concatenation, so the order of the rest is kept |
| CardList.DeletedAbsent | newtab.js:669 | deleting an id no card has changes nothing |
| NewTab.NewTabPage.constructor | newtab.js:401 | the page state holds the given cards and history |
| NewTab.NewTabPage.AddToHistory | newtab.js:400-406 | the splice, unshift and pop leave the history `AddedToHistory` describes, and the cards are unchanged |
| NewTab.NewTabPage.AddCard | newtab.js:627-635 | the unshift leaves the list `AddedCard` describes |
| NewTab.NewTabPage.UpdateCard | newtab.js:641-649 | the copy, delete and spread leave the list `UpdatedCards` describes |
| NewTab.NewTabPage.ReorderCards | newtab.js:655-662 | the two splices leave the list `Reordered` describes |
| NewTab.NewTabPage.DeleteCard | newtab.js:668-670 | the filter leaves the list `Deleted` describes |
| NewTab.SavedListStored | newtab.js:620-624 | saving `{cards}` or `{searchHistory}` stores that list whole and keeps every other key |
| PageText.ReplaceAll | newtab.js:789-793 | after a global replace whose replacement lacks the character, the character is gone |
| PageText.EscapeStepsChar | newtab.js:787-793 | on one character, the five replaces give its entity or the character itself |
| PageText.EscapeHtmlCharwise | newtab.js:787-793 | the chain of five replaces is the same as escaping each character on its own, so `&` is never escaped twice |
| PageText.EscapeEachSafe | newtab.js:787-793 | by induction: escaping character by character leaves no `<`, `>`, `"` or `'` |
| PageText.EscapeHtmlSafe | newtab.js:787-793 | the output holds no `<`, `>`, `"` or `'` |
| PageText.EscapeRoundTrip | newtab.js:787-793 | unescaping the five entities gives the text back |
| PageText.EscapeHtmlRoundTrip | newtab.js:787-793 | unescaping `escapeHtml(raw)` gives back the text of `raw`, defaulted to `''` |
| PageText.NormalizeUrlShape | newtab.js:260-265 | empty after trimming gives `''`; a URL starting with `http://` or `https://` (any case) is kept; anything else gets `https://` in front; the result is trimmed |
| PageText.NormalizeUrlIdempotent | newtab.js:260-265 | normalising a normalised URL changes nothing |
| PageText.HotItemOfTrimmed | newtab.js:926-927 | titles and links are trimmed |
| PageText.KeepUsableMembers | newtab.js:929 | an item is kept exactly when both title and link are non-empty |
| PageText.ParseHotApiDataMembers | newtab.js:921-930 | the result holds exactly the usable, trimmed items of `raw.data`, no more than there were |
| PageText.HotItemKept | newtab.js:924-929 | a single usable item comes through as it is |
| PageText.ParseHotApiDataNoList | newtab.js:922-923 | when `raw.data` is not an array, the result is empty |
| AnniversaryDates.DaysInMonth | newtab.js:697 | every month has 28 to 31 days |
| AnniversaryDates.MakeDate | newtab.js:697 | `new Date(y, m, d)` is a real date; it is `(y, m + 1, d)` when the day exists, rolls over otherwise, and reads the years 0 to 99 as 1900 to 1999 |
| AnniversaryDates.SafeDateClampsLeapDay | newtab.js:680-683 | 29 February of a common year becomes 28 February |
| AnniversaryDates.SafeDateOfRealDate | newtab.js:684 | a real date is kept as it is |
| AnniversaryDates.YearStep | newtab.js:678 | the next year starts one year's length later: 366 days after a year where `isLeapYear` holds, and 365 otherwise |
| AnniversaryDates.GregorianCycle | newtab.js:678 | the leap-year rule repeats every 400 years, which last 146097 days |
| AnniversaryDates.OrdinalInYear | newtab.js:716 | a date's number lies within its year |
| AnniversaryDates.OrdinalOrder | newtab.js:712 | a calendar-earlier date has a smaller number |
| AnniversaryDates.OrdinalCompare | newtab.js:712 | two real dates have equal numbers exactly when they are equal, and a smaller number exactly when earlier |
| AnniversaryDates.ParseYmdText | newtab.js:689-700 | a parsed date is a real calendar date after the year 99 |
| AnniversaryDates.ParseYmd | newtab.js:687-701 | whatever `parseYmd` returns for any value is a real calendar date after the year 99 |
| AnniversaryDates.ParseYmdTextIff | newtab.js:687-701 | the text is accepted exactly when it has the shape `DDDD-DD-DD`, its year is at least 100 and it names a real date; the result is its three numbers |
| AnniversaryDates.AnniversaryInReal | newtab.js:711 | the anniversary in any year is a real date, and is what `createSafeDateAtNoon` gives |
| AnniversaryDates.NextAnniversaryValue | newtab.js:708-723 | the result in terms of this year's and next year's anniversary |
| AnniversaryDates.AnniversaryGap | newtab.js:714 | consecutive anniversaries are 365 or 366 days apart |
| AnniversaryDates.ThisYearsAnniversary | newtab.js:711-717 | before or on this year's anniversary, it is the next one, 0 to 365 days away, and 0 exactly on the day |
| AnniversaryDates.NextYearsAnniversary | newtab.js:712-717 | once it has passed, next year's is the next one, 1 to 365 days away |
| AnniversaryDates.NextAnniversarySpec | newtab.js:708-723 | the next anniversary keeps month and day, is 0 to 365 days away, 0 exactly on the day, and counts the years since the parsed year |
| AnniversaryDates.CalcNextAnniversary | newtab.js:705-724 | `null` exactly when `parseYmd` fails; a result carries the parsed month and day |
| AnniversaryDates.CalcNextAnniversarySpec | newtab.js:705-724 | `null` exactly when `parseYmd` fails; otherwise the next anniversary as above |
| StartupSync.ReadyIffCanAutoPush | sync-startup.js:4-8 | ready exactly when `autoPush`, `gitUrl` and `token` are all truthy (the same as `canAutoPush`), and never when `autoPush` is falsy |
| StartupSync.RunStartupSync | sync-startup.js:13-33 | when not ready: skipped, nothing sent. Otherwise `pullRemote` goes first; a failed pull stops there; `pushRemote` is sent once; a failed push reports the push stage; success exactly when both replies are ok, and then the push's `lastSyncAt` is preferred over the pull's |

## Left out

- Chrome storage, messaging and tabs: modelled as fields and parameters, not as asynchronous APIs.
  Interleavings of concurrent messages are not modelled.
- `fetch`, request headers, URL strings, form and JSON bodies: a request is its `Location` (host, owner, repo, branch, path) and, for a PUT, its message, content and hash.
  The token, the access-token query parameter and the `encodePath`/`encodeURIComponent` use inside URLs are not part of a `Location`.
  A GET or PUT that fails only reports its status; a failure of `res.json()` is not modelled.
- The provider's hash is a fresh string per successful PUT, drawn from a version counter.
  The 409 refusal of a stale or unexpected hash is an assumption about the provider, not code of the extension.
- `JSON.stringify` and `JSON.parse` are function parameters, and `new Date().toISOString()` is the string `now`.
- The 1500 ms delay of `setTimeout`: a timeout is an id in the set of live timeouts, and the scheduler has explicit timer-fire and push-settled events.
  What the push replies is not modelled; only that it settles.
- The DOM, status texts other than those named in the table, `renderCards`, `renderHistory`, `renderLastSyncAt` and the `setStatus` colour.
- `crypto.randomUUID`: the card id is a parameter, and `AddedCardFound` assumes it is new.
- `Date.now`, time zones and daylight saving: a date is its calendar fields, and days are counted by day numbers at noon. `Math.round` is then the identity.
- AnniversaryDates.MakeDate: covers only the month indices 0 to 11 and days 1 to 31 that the page passes.
- AnniversaryDates.CalcNextAnniversarySpec: assumes the current year is at least 100.
- Numbers are integers: floating point, `NaN` and `Infinity` do not arise in the modelled paths, so the `Number.isFinite` and `isNaN` checks in `parseYmd` always pass.
- JavaScript strings are sequences of Unicode scalar values here. Lone surrogates, which make `encodeURIComponent` throw, are not modelled.
- `undefined` and `null` are one value (`JNull`). The one place where the text of a possibly missing property is shown, the base URL in `computeSearchUrls`, tells them apart: `JsonValue.PropertyText` writes `undefined` for an absent property.
- Background.Extension.OpenTabs: the error for a value that is not iterable is a fixed text, not V8's exact wording. Errors of `chrome.tabs.create` are not modelled.
- Background.Extension.HandleMessage: a failure of `chrome.storage` is not modelled, and `testRemote` is answered as an unknown type, as the code does.
- NewTab.NewTabPage.UpdateCard: `delete next[index].icon` also removes the icon from the card object shared with the old list; the model works on values and does not capture that aliasing.
- NewTab.NewTabPage: the `saveConfig` round trip through the background is stated separately in `NewTab.SavedListStored`.
  The follow-up `scheduleAutoPush` call is not made from these methods.
- The options page's other handlers, export and import, and the new-tab page's layout maths, hot-list loading and anniversary sorting.
