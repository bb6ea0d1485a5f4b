# Simplenote publish tracker and GlotPress metadata parser, in Dafny

This project models two pieces of the Simplenote iOS repository and proves
properties about them.

**`PublishController`** (module `PublishControl`, `publish_controller.dfy`).
This is the tracker that waits for the sync engine (Simperium) to report a
note's publish-state change before it runs the caller's completion block.
`UpdatePublishState` does nothing if the note's flag already has the requested
value. Otherwise it:
- replaces any pending wrapper for the note's `simperiumKey`;
- sets `published` and `modificationDate` and saves;
- arms the sweep timer if no valid one is running.

`DidReceiveUpdateFromSimperium` runs the pending block for a key once and
removes it. On each timer firing:
- with nothing pending, the timer invalidates itself;
- otherwise the entries older than `TimeOut` (5) are dropped without being run.

The class `PublishController` keeps the source's fields (`callbackMap`, `timer`).
It adds three fields for what the outside world is asked to do:
- `timersCreated`: timers made by the factory;
- `saveCount`: calls of the persistence hook;
- `invocations`: the log of (block, note) calls.

Each method's contract ties `State()` to a pure step function of the old
state: `RequestChange`, `Delivered` or `Ticked`. Lemmas over `Run`, any
sequence of these steps, prove the following:
- each completion block fires at most once;
- a block fires only with the note it was registered with;
- while anything is pending, a valid timer exists.

Time is an integer clock passed to each operation. A note is a class with
`simperiumKey` (constant), `published` and `modificationDate`.

**GlotPress entry parser** (module `DownloadMetadata`, `download_metadata.dfy`).
This is the part of `fastlane/download_metadata.swift` that turns one exported
JSON dictionary into the five App Store metadata values. The language code is
changed from `en-us` to `es` for the request. Each (key, value) entry is then
handled as follows:
- the key is split at its first U+0004;
- the entry is skipped unless the value is a non-empty array of strings;
- the translation is the text after the separator for `en-us`, and the first array element otherwise;
- the translation is stored in the field named by the selector before the separator.

`ParseExport` is the script's loop over its five optional variables. It is
proved equal to the fold `Collect`. `CollectLastWins` characterises every
field: it is nil when no accepted entry targets it, and otherwise the last
entry that targets it decides its value. `OutputFiles` gives the files
written, one per non-nil field.

`wrappers.dfy` holds the `Option` type used for Swift optionals.

A tick checks `callbackMap.isEmpty` before it sweeps
(`Simplenote/Controllers/PublishController.swift`, lines 68-71). So a tick
that sweeps the last entry away leaves the timer valid; only the next tick
invalidates it (`AbandonedRequestScenario`).

## Model

| member | source | states |
|---|---|---|
| `PublishControl.IsExpired` | Simplenote/Controllers/PublishController.swift:82-84 | an entry is expired exactly when more than `TimeOut` has passed since it was registered; an entry aged exactly `TimeOut` is not expired |
| `PublishControl.CallbackAtTimeoutIsKept` | Simplenote/Controllers/PublishController.swift:82-84 | a tick at exactly `TimeOut` after registration keeps the entry (expiry is strict) |
| `PublishControl.Sweep` | Simplenote/Controllers/PublishController.swift:43-49 | the swept map holds exactly the unexpired entries of the old map, with their values unchanged |
| `PublishControl.PreparedTimer` | Simplenote/Controllers/PublishController.swift:55-64 | afterwards a valid timer exists; a valid timer is kept and no timer is made; a missing or invalidated one is replaced by a new timer with a never-issued id and interval `TimeOut` |
| `PublishControl.RequestChange` | Simplenote/Controllers/PublishController.swift:15-25 | the note's key now maps to the new wrapper and all other keys are unchanged; the replaced wrapper is not invoked (log unchanged); one more save; the timer is valid, and is the old timer if that was valid |
| `PublishControl.Delivered` | Simplenote/Controllers/PublishController.swift:28-35 | an unknown key changes nothing; a known key appends one invocation of its block with its stored note, removes only that key and leaves the timer and saves alone |
| `PublishControl.Ticked` | Simplenote/Controllers/PublishController.swift:66-74 | a tick with an empty map invalidates the timer and keeps the map; otherwise it sweeps expired entries and keeps the timer valid; it never invokes a block |
| `PublishControl.PublishController.constructor` | Simplenote/Controllers/PublishController.swift:10-13 | a new controller has no callbacks, no timer, no saves and no invocations, and satisfies the invariant |
| `PublishControl.PublishController.UpdatePublishState` | Simplenote/Controllers/PublishController.swift:15-25 | if the flag already matches, nothing changes: controller, note, saves, timer, and the completion is not run; otherwise the note gets the flag and `now`, and the state is `RequestChange` of the old state; the invariant is kept |
| `PublishControl.PublishController.DidReceiveUpdateFromSimperium` | Simplenote/Controllers/PublishController.swift:27-35 | the new state is `Delivered` of the old state, and the invariant is kept |
| `PublishControl.PublishController.ChangePublishState` | Simplenote/Controllers/PublishController.swift:37-41 | sets the note's `published` and `modificationDate` and saves exactly once |
| `PublishControl.PublishController.RemoveExpiredCallbacks` | Simplenote/Controllers/PublishController.swift:43-49 | the loop over a snapshot of the map leaves exactly `Sweep` of the old map |
| `PublishControl.PublishController.RemoveCallbackFor` | Simplenote/Controllers/PublishController.swift:51-53 | removes exactly that key |
| `PublishControl.PublishController.PrepareTimerIfNeeded` | Simplenote/Controllers/PublishController.swift:55-64 | timer and factory count become `PreparedTimer` of the old ones |
| `PublishControl.PublishController.TimerFired` | Simplenote/Controllers/PublishController.swift:66-74 | the new state is `Ticked` of the old state, and the invariant is kept |
| `PublishControl.RequestChangeConsistent` | Simplenote/Controllers/PublishController.swift:20-24 | a real request keeps the invariant: entries filed under their note's key, a valid timer while anything is pending |
| `PublishControl.RunConsistent` | Simplenote/Controllers/PublishController.swift:15-74 | every run of requests, updates and ticks keeps the invariant, so a pending callback always has a valid sweep timer |
| `PublishControl.StepFiresAtMostOnce` | Simplenote/Controllers/PublishController.swift:20-35 | one step keeps "no block fired twice, none pending twice, none pending after firing" and introduces no block except a request's own |
| `PublishControl.CallbacksFireAtMostOnce` | Simplenote/Controllers/PublishController.swift:20-49 | in any run whose requests pass new blocks, no block is ever invoked twice |
| `PublishControl.FreshControllerFiresAtMostOnce` | Simplenote/Controllers/PublishController.swift:15-74 | from a new controller, distinct completion blocks are each invoked at most once |
| `PublishControl.StepPairedWithin` | Simplenote/Controllers/PublishController.swift:77-88 | one step pairs every pending and every invoked block only with a registered note |
| `PublishControl.RunPairedWithin` | Simplenote/Controllers/PublishController.swift:77-88 | across a run, every pending and every invoked block stays paired only with a registered note |
| `PublishControl.FreshControllerFiresWithRequestedNote` | Simplenote/Controllers/PublishController.swift:86-88 | from a new controller, every invocation calls a requested block with the note passed along with that same block |
| `PublishControl.SecondDeliveryIsNoOp` | Simplenote/Controllers/PublishController.swift:28-34 | a second update for the same key changes nothing |
| `PublishControl.SupersededCallbackNeverFires` | Simplenote/Controllers/PublishController.swift:20-34 | after two requests for one key and an update, only the second block has run, once, and the key is gone |
| `PublishControl.ExpiredCallbackIsDropped` | Simplenote/Controllers/PublishController.swift:43-49 | a tick past an entry's timeout removes it without invoking it and keeps the timer valid; a later update for it is a no-op |
| `PublishControl.TimerStopsAndRearms` | Simplenote/Controllers/PublishController.swift:55-73 | a tick with nothing pending stops the timer; the next request makes a fresh valid timer |
| `PublishControl.RearmingIsIdempotent` | Simplenote/Controllers/PublishController.swift:55-64 | a second request while the timer runs makes no new timer |
| `PublishControl.AbandonedRequestScenario` | Simplenote/Controllers/PublishController.swift:66-73 | a lone request with no update is dropped unfired by the first tick past its timeout; the timer stays valid until the next tick invalidates it |
| `DownloadMetadata.LanguageCodeOverride` | fastlane/download_metadata.swift:37 | `en-us` is requested as `es`, every other code unchanged; the request never uses `en-us` |
| `DownloadMetadata.EnglishFolders` | fastlane/download_metadata.swift:16-34 | exactly the folders `default` and `en-US` map to the source language |
| `DownloadMetadata.Set` | fastlane/download_metadata.swift:90-99 | setting a field gives it the value and leaves the other four alone |
| `DownloadMetadata.FieldFor` | fastlane/download_metadata.swift:89-102 | a known selector names the field whose selector it is; an unknown one names no field |
| `DownloadMetadata.FieldForSelector` | fastlane/download_metadata.swift:5-9 | each field's selector maps back to that field (the five selectors are distinct) |
| `DownloadMetadata.FirstIndexOf` | fastlane/download_metadata.swift:73 | no index exactly when the character is absent; otherwise the index holds the character and nothing before it does |
| `DownloadMetadata.AsStringArray` | fastlane/download_metadata.swift:79 | the cast succeeds exactly for an array of strings, and yields those strings in order |
| `DownloadMetadata.Strings` | fastlane/download_metadata.swift:79 | a JSON list converts exactly when every element is a string, and yields those strings in order |
| `DownloadMetadata.EntryTranslation` | fastlane/download_metadata.swift:73-87 | an entry is skipped exactly when its key has no U+0004 or its value is not a non-empty string array; otherwise the selector is the key before the first separator and the text is the key after it for `en-us`, else the first array element |
| `DownloadMetadata.ApplyEntry` | fastlane/download_metadata.swift:89-102 | the targeted field takes the translation and every other field is unchanged; skipped entries and unknown selectors change nothing |
| `DownloadMetadata.CollectLastWins` | fastlane/download_metadata.swift:65-103 | a field is nil exactly when no accepted entry targets it; otherwise the last targeting entry decides its value |
| `DownloadMetadata.ParseExport` | fastlane/download_metadata.swift:65-103 | the loop over the five optional variables computes `Collect` of the entries |
| `DownloadMetadata.OutputFiles` | fastlane/download_metadata.swift:110-115 | a file named for a field, with some contents, is written exactly when that field holds those contents; every written file belongs to a non-nil field |

## Left out

- `Simplenote/Classes/SPAuthViewController.swift` is not part of this model. It is UIKit wiring that delegates to `AuthenticationValidator` and `SPAuthHandler`; it holds no tracker or parser logic.
- Date and TimeInterval are floating point in the source. The model uses an integer clock, which is passed to each operation in place of `Date()`.
- The run loop that fires the timer every `TimeOut` is not modelled. `TimerFired` is an explicit step, and it does nothing unless the timer is valid, because an invalidated timer never fires.
- `TimerFactory` and `PublishListenerFactory` are inlined. A new timer is `Timer(id, TimeOut, true)` with the next id from `timersCreated`.
- `SPAppDelegate.shared().save()` is the counter `saveCount`.
- The Core Data `Note` is a class holding only the three fields the tracker touches.
- `@objc` and NSObject bridging are not modelled.
- What a completion block does is not modelled. Running a block is one entry appended to `invocations`.
- The proofs assume a block never calls back into the controller. The source runs the block before removing its entry (lines 33-34 of `PublishController.swift`). A re-entrant delivery for the same key would therefore fire a block twice. A re-entrant request for the same key would have its new wrapper removed unfired, a fourth silent drop beside the redundant, superseded and expired cases.
- Concurrency between the caller, the sync notification and the timer is not modelled. Every operation is one atomic step.
- A `Run` has no event for a request whose flag already matches, because `UpdatePublishState` proves that such a request changes nothing.
- The order of Swift dictionary iteration is not modelled. `RemoveExpiredCallbacks` picks keys in any order. `ParseExport` takes the entries in whatever order iteration gives, and only "last processed wins" is claimed.
- In `download_metadata.swift`, the following I/O and JSON handling are not modelled:
  - the URLSession request, its URL string and the semaphore (lines 38-47, 121-122);
  - `JSONSerialization` (line 59): its output is a list of `Entry` values, JSON numbers are integers, and a document that is not an object is not modelled;
  - the file-system effects (lines 105-130): directory creation and deletion, the write calls and their failure (a failed write skips the writes after it); `OutputFiles` gives the files and their contents;
  - the top-level driver (lines 133-137);
  - the console messages.
- Swift strings are sequences of grapheme clusters. The model treats a string as a sequence of `char`. U+0004 is a control character and always forms a cluster on its own, so the split point is the same.
