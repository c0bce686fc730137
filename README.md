# music-x1 in Dafny

music-x1 is a browser extension for YouTube. It decides whether the video being
watched is music and sets the playback rate to match: 1.0 for music, and the
user's default rate for anything else. This project models the extension's
decision and storage logic and proves properties about it:

- the background worker: which tabs count as watch pages, the toolbar badge,
  the 28-day classification cache, the choice of rate, the retrying
  `tabs.sendMessage` loop with capped backoff, and the cleanup of page titles
  before classification;
- `StorageManager`: one key/value interface over sync storage, local storage
  and the page's `localStorage` under the prefix `fallback_music_x1_`;
- `ApiKeyManager`: encrypted API keys plus a 30-minute in-memory cache;
- `PlaybackRateManager`: the `extensionEnabled` gate, saving the default rate,
  and the `CHECK_READY` handshake before a rate is sent;
- the Gemini classifier loop and its reading of the answer text;
- the YouTube Data API category lookup;
- the content script: the `isInitialized` flag, the probe loops, the
  readiness message and the reply to every runtime message;
- the Firefox manifest conversion.

Files, one module each:

- `wrappers.dfy`: `Option` and `Result`.
- `values.dfy`: JSON-like values and JavaScript truthiness.
- `text.dfy`: the JavaScript string operations the code relies on: `\s`
  whitespace, `trim`, ASCII `toLowerCase`, `includes` and `parseInt`.
- `web_storage.dfy`: `window.localStorage` as an ordered list of entries.
- `storage_manager.dfy`: `Storage`.
- `api_key_manager.dfy`: `ApiKeys`.
- `playback_rate_manager.dfy`: `PlaybackRate`.
- `gemini.dfy`: `Gemini`.
- `youtube.dfy`: `YouTubeApi`.
- `content_youtube.dfy`: `YouTubeContent`.
- `background.dfy`: `Background`.
- `firefox_manifest.dfy`: `FirefoxManifest`.

Code that updates state in place is modelled as a class: `StorageManager`,
`ApiKeyManager`, `ContentScript` and `BackgroundWorker`. The methods of
`StorageManager`, `ApiKeyManager` and `BackgroundWorker`, and those of
`PlaybackRateManager`, are proved equal to a pure transition function over a
snapshot of the state, such as `Storage.GetSpec`, `ApiKeys.SaveSpec`,
`PlaybackRate.SetCurrentTabSpec` or `Background.VideoRateSpec`. The lemmas about
the extension's promises are stated about those functions. The methods of
`ContentScript` are specified instead by equations for the new `isInitialized`
flag and the new list of sent messages, with the replies given by the pure
function `YouTubeContent.Respond`.

Loops in the source, such as `tryInitialize`, `fetchMusicOrNot`, the
background `trySendMessage` and `clear`'s sweep, are `while` loops with
invariants. Each loop is tied to a function of its inputs.

Anything the code cannot see is an input:

- the health of each storage tier (whether reads or writes reject);
- which browser globals exist;
- `JSON.stringify` and `JSON.parse`;
- `encryptText` and `decryptText`;
- the HTTP answers;
- the page's video element on each attempt;
- the current time.

Timers become recorded waits. A wait is a value in milliseconds, and no time
passes.

The readiness test in `PlaybackRateManager.trySendMessage` is the truthiness
of the `CHECK_READY` reply. Every reply of the content script is an object, so
even `{success: false}` from an uninitialized script counts as ready. The lemma
`PlaybackRate.UninitializedScriptCountsAsReady` states this. In that case the
rate message that follows is refused with "Content script not initialized".

`./storage-manager` is imported by `src/playback-rate-manager.ts` and
`src/apiKeyManager.ts`. The model takes it to be the class in
`src/managers/storageManager.ts`.

## Model

| member | source | states |
|---|---|---|
| Text.LeadingWhitespace | src/gemini.ts:96 | the length of the leading whitespace run: all of it is `\s` whitespace and the next character is not |
| Text.TrailingWhitespace | src/gemini.ts:96 | where the trailing whitespace run starts: all of it is whitespace and the character before is not |
| Text.LeadingWhitespaceOfPadded | src/gemini.ts:96 | whitespace followed by a non-whitespace character has exactly that many leading whitespace characters |
| Text.TrailingWhitespaceOfPadded | src/gemini.ts:96 | a text ending in a non-whitespace character, followed by whitespace, ends its content exactly where the whitespace begins |
| Text.TrimOfPadded | src/gemini.ts:96 | `trim` removes exactly the surrounding whitespace and keeps the text between, unchanged |
| Text.Trim | src/gemini.ts:96 | `trim` never lengthens the text |
| Text.TrimShape | src/gemini.ts:96 | what `trim` leaves neither starts nor ends with whitespace, and it is empty iff the text is all whitespace |
| Text.ToLower | src/gemini.ts:96 | `toLowerCase` keeps the length and lowers each character |
| Text.ToLowerConcat | src/gemini.ts:96 | lowering distributes over concatenation |
| Text.Contains | src/background.ts:20-22 | `includes` is true iff the pattern occurs at some index |
| Text.StartsWith | src/managers/storageManager.ts:175 | `startsWith` is true iff the prefix occurs at index 0 |
| Text.LeadingDigits | src/background.ts:120 | the longest run of decimal digits at the start: all digits, and the next character is not |
| Text.LeadingDigitsOfDigits | src/background.ts:120 | digits followed by a non-digit have exactly that many leading digits |
| Text.ParseInt10 | src/youtube.ts:74 | `parseInt(s, 10)` is `NaN` iff no digit follows the whitespace and the optional sign |
| Text.DigitChar | src/youtube.ts:74 | the digit character of a value below 10 denotes that value |
| Text.NatToString | src/youtube.ts:74 | decimal notation is a non-empty digit string that denotes the number |
| Text.ParseIntOfNatToString | src/youtube.ts:74 | `parseInt` reads every decimal string back as its number |
| WebStorage.GetItem | src/managers/storageManager.ts:75 | `getItem` finds a value iff the key is present, and the value belongs to an entry with that key |
| WebStorage.SetItem | src/managers/storageManager.ts:116 | `setItem` keeps the length when the key exists and otherwise appends the entry |
| WebStorage.RemoveItem | src/managers/storageManager.ts:141 | `removeItem` keeps exactly the entries with another key |
| WebStorage.GetAfterSet | src/managers/storageManager.ts:116 | after `setItem(k, v)`, `getItem(k)` is `v` |
| WebStorage.GetAfterSetOther | src/managers/storageManager.ts:116 | `setItem(k, v)` does not change `getItem` of any other key |
| WebStorage.GetItemOfMapped | src/managers/storageManager.ts:116 | rewriting in place only the entries with key `k` leaves lookups of every other key unchanged |
| WebStorage.GetItemAppend | src/managers/storageManager.ts:116 | appending an entry for `k` leaves lookups of every other key unchanged |
| WebStorage.GetAfterRemove | src/managers/storageManager.ts:141 | after `removeItem(k)`, `getItem(k)` is null and other keys read as before |
| WebStorage.GetOtherAfterRemove | src/managers/storageManager.ts:141 | `removeItem(k)` leaves every other key's value unchanged |
| WebStorage.Unprefixed | src/managers/storageManager.ts:173-178 | the entries without the prefix are kept, in order |
| WebStorage.UnprefixedAfterRemove | src/managers/storageManager.ts:176 | removing a prefixed key leaves the unprefixed entries and their order alone |
| Storage.IsBackgroundContext | src/managers/storageManager.ts:15-27 | a context is background iff `window` or `document` is missing |
| Storage.LocalStorageAvailable | src/managers/storageManager.ts:32-54 | `localStorage` is used iff not background, it exists and the self-test reads back its value |
| Storage.Probe | src/managers/storageManager.ts:44-47 | the self-test leaves `localStorage` as it was except that no `_test` entry survives |
| Storage.GetSpec | src/managers/storageManager.ts:59-90 | a value is found only when sync storage can be read, and no extension tier is changed |
| Storage.SetSpec | src/managers/storageManager.ts:95-128 | false iff both extension writes fail and the `localStorage` fallback is unavailable or its `setItem` throws; sync takes the value when it can, and local only after sync fails; after a failure only the self-test has touched `localStorage` |
| Storage.RemoveSpec | src/managers/storageManager.ts:133-149 | true iff both extension removals succeed; the key is then gone from every tier used, and other keys are kept |
| Storage.ClearSpec | src/managers/storageManager.ts:154-186 | success empties both extension tiers; a failure leaves local storage as it was |
| Storage.StorageManager.constructor | src/managers/storageManager.ts:7-9 | the manager starts from the given tiers |
| Storage.StorageManager.IsLocalStorageAvailable | src/managers/storageManager.ts:32-54 | the answer is `LocalStorageAvailable` and `localStorage` becomes `Probe` of it |
| Storage.StorageManager.Get | src/managers/storageManager.ts:59-90 | the value read and the new tiers are those of `GetSpec` |
| Storage.StorageManager.Set | src/managers/storageManager.ts:95-128 | the result and the new tiers are those of `SetSpec`, including a throwing fallback `setItem` |
| Storage.StorageManager.Remove | src/managers/storageManager.ts:133-149 | the result and the new tiers are those of `RemoveSpec` |
| Storage.StorageManager.Clear | src/managers/storageManager.ts:154-186 | the result and the new tiers are those of `ClearSpec`, with the index loop as written |
| Storage.SetThenRemove | src/managers/storageManager.ts:116 | `setItem` then `removeItem` of a key equals removing it alone |
| Storage.RemoveOfMapped | src/managers/storageManager.ts:141 | rewriting the entries of a key in place does not change what removing that key leaves |
| Storage.RemoveAppended | src/managers/storageManager.ts:141 | removing a key after appending an entry for it equals removing it from the original |
| Storage.FallbackKeyInjective | src/managers/storageManager.ts:75 | distinct keys have distinct fallback keys |
| Storage.SetThenGet | src/managers/storageManager.ts:59-128 | a value `set` reports as stored is what `get` returns next, when no higher tier shadows it |
| Storage.TestKeyIsNeverReadBack | src/managers/storageManager.ts:44-47 | the key `_test` is never found in the fallback store, because the self-test deletes it first |
| Storage.StaleSyncValueShadowsFallbackWrite | src/managers/storageManager.ts:62-65 | when the sync write fails, an older sync value still shadows the value just written below it |
| Storage.RemoveThenGet | src/managers/storageManager.ts:133-149 | after a successful `remove`, `get` finds the key in no tier |
| Storage.BackgroundNeverTouchesLocalStorage | src/managers/storageManager.ts:15-35 | in a background context `localStorage` is never read or changed by any operation |
| Storage.Sweep | src/managers/storageManager.ts:173-178 | the ascending loop of `clear` never adds entries and keeps every entry without the prefix |
| Storage.SweepKeepsUnprefixed | src/managers/storageManager.ts:173-178 | the loop of `clear` removes only prefixed entries and keeps the others, in order |
| Storage.ClearKeepsForeignEntries | src/managers/storageManager.ts:154-186 | a successful `clear` empties both extension tiers and keeps every foreign `localStorage` entry |
| Storage.SweepSkipsAdjacentEntry | src/managers/storageManager.ts:173-178 | with two adjacent prefixed entries, the loop as written leaves the second one in place |
| Storage.SweepFromEnd | src/managers/storageManager.ts:173-178 | the corrected sweep, from the last index down, removes every prefixed entry in the range and keeps the rest |
| Storage.UnprefixedSnoc | src/managers/storageManager.ts:173-178 | filtering distributes over appending one entry |
| Storage.SweepFromEndRemovesAllFallbackEntries | src/managers/storageManager.ts:171-178 | the corrected sweep leaves exactly the unprefixed entries and no fallback entry |
| ApiKeys.IsBlank | src/apiKeyManager.ts:36 | a key is blank iff it is all whitespace |
| ApiKeys.IsFresh | src/apiKeyManager.ts:71-72 | fresh only when an entry exists and is younger than 30 minutes |
| ApiKeys.SaveSpec | src/apiKeyManager.ts:33-61 | a blank key is removed and uncached and reports true; otherwise the result is the storage result, the plaintext is cached only on success, and other key types are untouched |
| ApiKeys.GetSpec | src/apiKeyManager.ts:68-101 | a fresh cache entry is returned without touching storage; otherwise a missing key gives "" and the cache is refreshed only by a non-empty decrypted key |
| ApiKeys.ApiKeyManager.constructor | src/apiKeyManager.ts:25 | the cache starts empty |
| ApiKeys.ApiKeyManager.SaveApiKey | src/apiKeyManager.ts:33-61 | result, cache and storage are those of `SaveSpec` |
| ApiKeys.ApiKeyManager.GetApiKey | src/apiKeyManager.ts:68-101 | result, cache and storage are those of `GetSpec` |
| ApiKeys.ApiKeyManager.HasApiKey | src/apiKeyManager.ts:108-116 | true iff `getApiKey` yields a non-empty key, with its effect on cache and storage |
| ApiKeys.ApiKeyManager.ClearCache | src/apiKeyManager.ts:122-124 | the cache is empty afterwards |
| ApiKeys.SaveThenGetFromCache | src/apiKeyManager.ts:16-74 | within 30 minutes of a successful save, `getApiKey` answers the saved key from the cache and leaves storage alone |
| ApiKeys.SaveThenGetFromStorage | src/apiKeyManager.ts:43-96 | with an empty cache, a stored key that decrypts back to the saved one is returned |
| ApiKeys.DeleteThenGet | src/apiKeyManager.ts:36-40 | saving a blank key makes a later uncached `getApiKey` yield "" once the removal succeeded |
| ApiKeys.BlankSaveReportsSuccessWhenRemoveFails | src/apiKeyManager.ts:36-40 | a blank save reports true even when the removal failed |
| YouTubeApi.GetYouTubeApiKey | src/youtube.ts:16-22 | the stored key is returned iff it is truthy, otherwise the "not set" error |
| YouTubeApi.GetVideoCategory | src/youtube.ts:30-83 | a category iff a key exists and an ok response names an id, read by `parseInt`; 403 quota, other non-ok status, 404 "not found" (the only non-retryable error) and code 0 after any throw |
| YouTubeApi.IsMusicCategory | src/youtube.ts:85-88 | music iff the category is 10 |
| YouTubeApi.CategoryIdRoundTrip | src/youtube.ts:64-88 | an ok response naming category `n` in decimal gives category `n`, and it is music iff `n` is 10 |
| Gemini.GetGeminiApiKey | src/gemini.ts:4-10 | the stored key is returned iff it is truthy, otherwise the "not set" error |
| Gemini.AskGemini | src/gemini.ts:22-55 | some text (possibly missing) comes back iff a key exists and the request answered |
| Gemini.Interpret | src/gemini.ts:91-102 | an attempt is valid iff its lowered, trimmed text is `true` or `false`, and says music iff it is `true` |
| Gemini.Attempt | src/gemini.ts:89-101 | one attempt's answer is that of `Interpret` on what `askGemini` returned: a valid `true`/`false`, or a failed attempt |
| Gemini.FetchMusicOrNot | src/gemini.ts:57-117 | the result and the attempt count are those of `Decide`; the waits are 1000·(k+1) ms and come only between attempts |
| Gemini.Decide | src/gemini.ts:86-116 | at least one attempt is made from the current one |
| Gemini.DecideIsFirstValidAnswer | src/gemini.ts:86-116 | at most three attempts, stopping at the first valid answer, which is the result; with none the result is false after three |
| Gemini.MusicIffFirstValidAnswerIsTrue | src/gemini.ts:86-116 | music iff some attempt among the three says `true` and every attempt before it failed |
| Gemini.MissingKeyMeansNotMusic | src/gemini.ts:4-10 | without a key every attempt fails |
| Gemini.PaddedAnswerIsAccepted | src/gemini.ts:96-99 | `true` in any letter case and with any surrounding whitespace is a valid "music" answer |
| Gemini.LowerKeepsWhitespace | src/gemini.ts:96 | lowering does not change whitespace |
| YouTubeContent.ReplyValue | src/content/youtube.ts:177-222 | a reply is an object whose `success` field is the reply's success |
| YouTubeContent.ReplyOf | src/content/youtube.ts:177-222 | a reply read from a value comes from an object with that `success` |
| YouTubeContent.ReplyRoundTrip | src/content/youtube.ts:177-222 | every reply reads back as itself |
| YouTubeContent.EveryReplyIsTruthy | src/content/youtube.ts:177-222 | every reply is truthy, whether or not it reports success |
| YouTubeContent.SetVideoPlaybackRate | src/content/youtube.ts:125-172 | immediate success iff the element accepts the rate; at most `maxRetries` re-tries, 500 ms apart without an element and 300 ms after a rejected set; applied iff the last try succeeds |
| YouTubeContent.Respond | src/content/youtube.ts:175-243 | `CHECK_READY` answers `isInitialized`; before initialization every other message gets the not-initialized error; a rate is applied iff `extensionEnabled !== false` or it is the disabling reset, and otherwise refused |
| YouTubeContent.IsDisabledReset | src/content/youtube.ts:199 | a disabling reset carries rate 1.0 and `save === false`, and needs `fromDisabledToggle` |
| YouTubeContent.DisabledResetIsApplied | src/content/youtube.ts:199-216 | the reset to 1x sent when the extension is switched off is applied although the stored flag is off |
| YouTubeContent.RateChangeRefusedWhenDisabled | src/content/youtube.ts:199-222 | any other rate change is refused with "Extension is disabled" while the flag is off |
| YouTubeContent.ContentScript.constructor | src/content/youtube.ts:5 | the script starts uninitialized and has sent nothing |
| YouTubeContent.ContentScript.FindAndInitializeVideo | src/content/youtube.ts:50-62 | found iff a video is present; `CONTENT_SCRIPT_READY` is sent only on the step from uninitialized to initialized |
| YouTubeContent.ContentScript.TryInitialize | src/content/youtube.ts:65-74 | at most `maxAttempts` probes that stop at the first success, with 500 ms waits after each failed probe |
| YouTubeContent.ContentScript.OnPageChange | src/content/youtube.ts:77-81 | while uninitialized, look again, and send readiness only on the transition |
| YouTubeContent.ContentScript.HandleNavigation | src/content/youtube.ts:8-39 | the flag is reset and then set iff a video is present; the navigation is reported, and reported again only when it was not acknowledged |
| YouTubeContent.ContentScript.OnLocationChange | src/content/youtube.ts:84-89 | only watch pages start a navigation, which sets the flag iff a video is present and sends readiness (if a video is present), the navigation report and, when unacknowledged, the report again; other pages change nothing |
| YouTubeContent.ContentScript.OnMessage | src/content/youtube.ts:175-243 | the reply is that of `Respond`, with `extensionEnabled` read through the storage manager only for a rate message to an initialized script |
| PlaybackRate.TrySendMessage | src/playback-rate-manager.ts:34-60 | at most `MAX_RETRIES` waits: 1000·(r+1) ms after an error and 500·(r+1) ms when not ready; a result only from a ready round that answered, and a throw once retries are exhausted |
| PlaybackRate.IsReady | src/playback-rate-manager.ts:37-39 | a round with no answer (the `.catch` gives false) is not ready; an object answer is |
| PlaybackRate.AtMostFourRounds | src/playback-rate-manager.ts:13-60 | a send makes at most four rounds |
| PlaybackRate.ResponseSuccess | src/playback-rate-manager.ts:128 | true only for a resolved object reply whose `success` is truthy |
| PlaybackRate.ResponseSuccessOfReply | src/playback-rate-manager.ts:128 | the result for a content-script reply is that reply's `success` |
| PlaybackRate.UninitializedScriptCountsAsReady | src/playback-rate-manager.ts:39-41 | the `{success: false}` answer of an uninitialized script passes the readiness test |
| PlaybackRate.DefaultRateFrom | src/playback-rate-manager.ts:65-73 | a stored non-zero number is kept, anything falsy gives 1.5, and the rate is never 0 |
| PlaybackRate.Gate | src/playback-rate-manager.ts:100-107 | refused only outside the toggle's reset and when `extensionEnabled` reads as `false`; a missing flag lets the call through; the toggle's reset reads nothing; the extension tiers are unchanged |
| PlaybackRate.SetCurrentTabSpec | src/playback-rate-manager.ts:94-133 | refused with nothing saved or sent when disabled (unless it is the toggle's reset); false with nothing saved when there is no tab; the default is saved only when `save` is set and before sending; true only when a message was sent |
| PlaybackRate.ApplySpec | src/playback-rate-manager.ts:139-153 | the message carries 1.0 for music and the stored default otherwise, with `save=false`, so stored settings never change |
| PlaybackRate.DisabledToggleResetIsHonoured | src/playback-rate-manager.ts:94-107 | the reset sent on switching off carries the disabling-reset marks and is applied by an initialized content script |
| PlaybackRate.AppliedRateRefusedWhenDisabled | src/playback-rate-manager.ts:139-153 | a rate chosen from the classification is refused by the content script while the extension is off |
| PlaybackRate.GetDefaultPlaybackRate | src/playback-rate-manager.ts:65-73 | the rate is `DefaultRateFrom` of what `get` returns |
| PlaybackRate.SaveDefaultPlaybackRate | src/playback-rate-manager.ts:78-86 | as written: storage changes as `set` makes it, and success is reported regardless |
| PlaybackRate.SaveReportsSuccessWithoutStoring | src/playback-rate-manager.ts:78-86 | when no tier can take the rate nothing is stored, so the as-written success report is wrong |
| PlaybackRate.SaveDefaultPlaybackRateChecked | src/playback-rate-manager.ts:78-86 | corrected: success iff some tier stored the rate |
| PlaybackRate.SetCurrentTabPlaybackRate | src/playback-rate-manager.ts:94-133 | result, message, waits and storage are those of `SetCurrentTabSpec`; it saves through the as-written `SaveDefaultPlaybackRate` |
| PlaybackRate.ApplyAppropriatePlaybackRate | src/playback-rate-manager.ts:139-153 | result, message, waits and storage are those of `ApplySpec` |
| Background.IsYouTubeTab | src/background.ts:20-22 | true iff the URL is defined and contains `youtube.com/watch` |
| Background.BadgeFor | src/background.ts:10-17 | the text is "" iff hidden, otherwise ♪ or 🎞️; the colour is #4CAF50 for music and #808080 otherwise, whatever the visibility |
| Background.BadgeShowsClassification | src/background.ts:10-17 | the colour does not depend on visibility and tells the classification; so does a visible text |
| Background.OnActivated | src/background.ts:25-44 | a page is handled iff it is a watch page with a non-empty `v` parameter; otherwise the badge is hidden |
| Background.OnUpdated | src/background.ts:138-150 | a page is handled iff loading completed on a watch page with a non-empty `v` parameter |
| Background.NextDelay | src/background.ts:98-101 | the next delay never exceeds 5000 ms, is 1.5 times the delay when that fits, and never decreases from a delay within the cap |
| Background.DelayAtNext | src/background.ts:98-101 | each delay is `min(1.5·previous, 5000)` of the one before |
| Background.DelaysSnoc | src/background.ts:86-101 | the first n+1 waits are the first n waits followed by the nth delay |
| Background.DefaultDelays | src/background.ts:85-101 | the defaults give waits of 2000, 3000, 4500, 5000 and 5000 ms |
| Background.DelaysCapped | src/background.ts:98-101 | from a delay within the cap, the waits never decrease and never exceed 5000 ms |
| Background.SendFromIsFirstSuccess | src/background.ts:88-105 | a response comes back iff some attempt succeeds, and it is the first success |
| Background.TrySendMessage | src/background.ts:85-106 | the outcome is `SendOutcomeOf`: at most `maxRetries` attempts, each after its wait; the first success is returned and the last failure rethrown; the waits follow the capped backoff |
| Background.FirstMatch | src/background.ts:121 | the least position in the range where the predicate holds, or none |
| Background.FindTail | src/background.ts:121 | the leftmost position where `\s*-\s*YouTube` matches to the end |
| Background.StripYouTubeSuffix | src/background.ts:121 | a prefix of the title: the title itself iff no suffix matches, otherwise cut at the leftmost match |
| Background.StripCountPrefix | src/background.ts:120 | a suffix of the title; it changes iff the title starts with `(`, one or more digits and `)`, and is then what follows the `)` with leading whitespace trimmed |
| Background.HasCountMarker | src/background.ts:120 | the title starts with `(`, at least one digit and `)` |
| Background.StripsCountMarker | src/background.ts:120 | `(digits)` and the whitespace after it are removed, and nothing else |
| Background.DashYouTubeIsTail | src/background.ts:121 | whitespace, `-`, whitespace and `YouTube` make a suffix the pattern matches |
| Background.StripsLeftmostTail | src/background.ts:121 | the suffix strip removes the leftmost match and keeps all before it |
| Background.PrefixOfSuffixOccurs | src/background.ts:119-121 | a prefix of a suffix of a text occurs in the text where the suffix starts |
| Background.CleanTitle | src/background.ts:119-121 | the cleaned title is no longer than the title and occurs in it where the count strip leaves off |
| Background.CleanTitleOfDecorated | src/background.ts:119-121 | a title decorated with a count marker and a `- YouTube` suffix is cleaned back to the title itself |
| Background.IsCacheHit | src/background.ts:54 | a hit needs an entry for the video younger than 28 days; no entry, no hit |
| Background.VideoRateSpec | src/background.ts:46-82 | the classifier is asked iff the cache misses; a miss writes only this video's entry; 1.0 for music, otherwise the stored default or 2.0; 1.0 and no change after a storage error; the badge and `lastBadgeState` show the classification |
| Background.SecondLookupHitsCache | src/background.ts:54-66 | a classification fetched now is reused until it expires: the next lookup gives the same rate without asking |
| Background.TitleOf | src/background.ts:113-117 | a title is found iff the reply is an object with a truthy `success` and a non-empty string `title`, and it is that `title` |
| Background.UpdateDefaultRateReply | src/background.ts:153-171 | a reply is sent iff there is an active tab with a truthy id; it reports failure iff the send threw |
| Background.BackgroundWorker.constructor | src/background.ts:8 | the worker starts from the given storage and badge |
| Background.BackgroundWorker.UpdateBadge | src/background.ts:10-17 | the badge becomes `BadgeFor` |
| Background.BackgroundWorker.GetVideoRate | src/background.ts:46-82 | rate, classifier use and new state are those of `VideoRateSpec` |
| Background.BackgroundWorker.HandleYouTubePage | src/background.ts:109-135 | without a usable title nothing changes and no rate is sent; otherwise the rate of `VideoRateSpec` for the cleaned title is sent |
| FirefoxManifest.OrElse | scripts/firefox/generate-manifest.js:32 | `s \|\| fallback`: the fallback exactly when the string is absent or empty |
| FirefoxManifest.ListOrEmpty | scripts/firefox/generate-manifest.js:26-27 | `list \|\| []` for an optional list |
| FirefoxManifest.GenerateFirefoxManifest | scripts/firefox/generate-manifest.js:17-59 | permissions then host permissions, in order; the defaults `pages/popup/index.html`, `background/index.js` and `pages/options/index.html` exactly when the Chrome field is absent or empty; `open_in_tab`; the gecko id and minimum version; manifest version 2; the copied fields unchanged |
| FirefoxManifest.GenerateIsStable | scripts/firefox/generate-manifest.js:17-59 | reading a generated manifest back as a Chrome one and converting it again gives it unchanged |
| FirefoxManifest.PermissionsAreUnion | scripts/firefox/generate-manifest.js:25-28 | a Firefox permission is present iff Chrome listed it in either list |

## Left out

- Timers, promises and event wiring (`setTimeout`, listeners, `MutationObserver`, `DOMContentLoaded`, `load`) are not modelled. Waits are recorded as values, and each handler is a separate method; interleavings are not modelled.
- `chrome.*` / `browser.*` calls are inputs, as is the choice between them in `src/browser-polyfill.ts`. Storage tiers are maps whose health is fixed per tier, and `tabs.sendMessage` answers per attempt.
- `encryptText` and `decryptText` from `src/crypto.ts` are parameters. AES-GCM is a foreign call; `decryptText` gives "" on failure.
- `fetch`, the JSON bodies of the YouTube and Gemini APIs, and `new URL(...).searchParams` are Option-valued inputs.
- The Preact UI (`src/popup.tsx`, `src/options.tsx`, `src/index.ts`), `src/content.ts`, `src/utils/navigationHelper.ts` and the build scripts are not part of this model.
- The file read and write of `generateFirefoxManifest` are not part of this model.
- `refreshVideoDetection` in `src/playback-rate-manager.ts:160-173` is not modelled. It only forwards a message to the tab and logs.
- YouTubeContent.SetVideoPlaybackRate: the extra re-check 500 ms after a successful set is not modelled. It only logs, and it sets the same rate again when the player changed it.
- YouTubeContent.ContentScript.OnMessage: the `.catch` branch, "Failed to check extension state", is not modelled. `StorageManager.get` catches every error and never rejects.
- YouTubeContent.ContentScript.HandleNavigation: it models the immediate check of `initializeContentScript`. The probes that follow are the separate methods `TryInitialize` and `OnPageChange`. The reply to `PAGE_NAVIGATION` is an input, because no listener for it is part of this model.
- PlaybackRate.DefaultRateFrom: a truthy stored value that is not a number is returned unchanged by the source. The model gives 1.5 for it, because rates are numbers here.
- Text.ToLower: only ASCII letters are lowered. That is enough for the comparisons with `true` and `false`.
- Playback rates are `real`, not floating point. They are only compared and passed through. The `delay * 1.5` of the background stays integral for the default delays.
- YouTubeApi.GetVideoCategory: the 401 branch for a missing key is kept, but it cannot be reached. A missing key throws in `getYouTubeApiKey`, and the catch turns that into code 0.
- Storage.ClearSpec and Storage.StorageManager.Clear model the `localStorage` sweep as written. They therefore do not promise that every fallback entry is gone; see Findings.
- Background.BackgroundWorker.HandleYouTubePage: what the final `SET_PLAYBACK_RATE` send answers is not modelled, since the source never examines it. A stored `defaultPlaybackRate` that is not a number is not modelled either.
- WebStorage keeps `localStorage` entries in insertion order and appends new keys. The order of `localStorage.key(i)` is defined by the user agent; the first finding assumes that the two prefixed keys are enumerated next to each other.
- All caches share `chrome.storage.local` with the storage manager's local tier in the source. The model keeps the background's entries apart.

## Findings

| source | as written | input that shows it | evidently intended | confidence | as-written member | corrected member |
|---|---|---|---|---|---|---|
| src/managers/storageManager.ts:173-178 | `clear` removes each prefixed key inside an ascending index loop, so the key that moves into the freed index is skipped | `localStorage` holding `fallback_music_x1_a` and `fallback_music_x1_b`, adjacent: `fallback_music_x1_b` survives `clear` | every key with the prefix is removed | not executed | Storage.SweepSkipsAdjacentEntry | Storage.SweepFromEndRemovesAllFallbackEntries |
| src/playback-rate-manager.ts:78-86 | `saveDefaultPlaybackRate` ignores the boolean that `StorageManager.set` returns and reports success | sync and local writes both reject and `localStorage` is unavailable: nothing is stored, yet the result is true | the result is `set`'s result | not executed | PlaybackRate.SaveReportsSuccessWithoutStoring | PlaybackRate.SaveDefaultPlaybackRateChecked |
