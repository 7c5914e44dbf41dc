# A verified model of the account-login manager

The system is an Electron desktop application that signs many accounts in to a
web service through Google or e-mail sign-up, one Chrome window per account.
This project models, in Dafny, the parts of it that decide things:

- the **job scheduler** (`TaskManager`). It queues accounts in order, runs at
  most two logins at once, reacts to the callbacks of a login, cleans up by
  status and writes status lists back only when they changed;
- the **Google sign-in state machine**. It polls the page URL, counts repeated
  URLs and turns too many repeats into typed errors. Otherwise it dispatches the
  URL through an ordered table of fragments to the action the page needs. Once
  the caller has closed the browser, the wrapper suppresses further callbacks;
- the **launch helpers**:
  - the 32-bit rolling hash that places each window;
  - the profile folder name;
  - the base 64 window name (section 4 of RFC 4648, padding removed);
  - Chrome's command line;
  - the bounded probe of the DevTools port;
  - `closeBrowser`;
- the **e-mail sign-up**: the five password rules and the early failure;
- the **database operators** over an id-to-account map: the account table
  operations and the settings merge with run-flag toggling;
- the **renderer logic**:
  - the tab-separated account import;
  - the account and download search filters;
  - the status tag, information column and run-button rules;
  - the file name of a download;
- **small stateful structures**:
  - the expiring `localStorage` wrapper;
  - the IPC listener registry;
  - the two ends of the worker message channel.

State the source changes in place is a `class` with `modifies` clauses:

- the task manager;
- the account and settings stores;
- the storage wrapper;
- the listener registry;
- the worker channel ends;
- the login session flag.

Each of these methods is specified against pure functions, and the lemmas are
proved about those functions. Loops in the source (the URL-polling loop, the
port probe, the window hash, the cleanup and flush loops, the dispatch over the live listener array, `arraysAreEqual`) are `while`/`for` loops with invariants.

Everything outside the program is a parameter:

- the page URL at each tick;
- whether a probe of the DevTools port answered;
- the winner of a `Promise.race`;
- the current time;
- the file system;
- the accounts the database returns.

The task manager records what it asks of the world (database writes, browser
launches, kills) as a sequence of effects.

Strings are sequences of Unicode scalar values (`char`), not of the UTF-16 code
units JavaScript counts. Case mapping covers ASCII letters only.

JavaScript values are one datatype, in which `undefined` may be nested. The
storage wrapper writes its records with `JSON.stringify` and reads them with
`JSON.parse`, so what it keeps of a value is that value's JSON image (`Json`):
nested undefined members are dropped and undefined array items become null.

## Model

| member | source | states |
|---|---|---|
| Utils.NatToString | packages/main/src/utils/utils.ts:7 | the decimal text of a count is non-empty and made of digits |
| Utils.ParseNatToString | packages/main/src/utils/utils.ts:7 | the digits written for a number read back as that number, so the text is unambiguous |
| Utils.JsRem1000 | packages/main/src/utils/utils.ts:6 | JavaScript's `%` by 1000 lies strictly between -1000 and 1000 and takes the sign of the dividend |
| Utils.DurationPartsExact | packages/main/src/utils/utils.ts:4-8 | for a non-negative duration the seconds and milliseconds recombine to it, the milliseconds are 0..999, and the text is `<d div 1000>s <d mod 1000>ms` |
| Utils.DurationPartsNegative | packages/main/src/utils/utils.ts:4-8 | for a negative duration that is not a whole second, floor and truncating remainder do not recombine: the parts undershoot the duration |
| Utils.FormatDurationToS | packages/main/src/utils/utils.ts:4-8 | the text ends in `ms`, and for a non-negative duration it is the decimal seconds and the decimal remaining milliseconds |
| Utils.CapitalizeFirstLetter | packages/main/src/utils/utils.ts:82-91 | same length, empty stays empty, the first letter is not lower-case and no later letter is upper-case |
| Utils.CapitalizeKeepsLetters | packages/main/src/utils/utils.ts:82-91 | capitalising changes only the case of letters: lower-cased, the result is the lower-cased word |
| Utils.LowerIdempotent | packages/main/src/utils/utils.ts:88 | lower-casing twice is lower-casing once |
| Utils.CapitalizeIdempotent | packages/main/src/utils/utils.ts:82-91 | capitalising a capitalised word changes nothing |
| Utils.ArraysAreEqual | packages/main/src/utils/utils.ts:93-105 | the length check and the element loop answer true exactly when the two arrays are equal |
| Utils.SanitizePathString | packages/main/src/utils/utils.ts:120-123 | the result keeps exactly the characters of `[a-zA-Z0-9/-]` that occur and is no longer than the input |
| Utils.SanitizeConcat | packages/main/src/utils/utils.ts:120-123 | sanitising distributes over concatenation, so kept characters stay in order |
| Utils.SanitizeClean | packages/main/src/utils/utils.ts:120-123 | a string made only of allowed characters is unchanged |
| Utils.SanitizeIdempotent | packages/main/src/utils/utils.ts:120-123 | sanitising twice is sanitising once |
| Storage.ExpiryFor | packages/renderer/src/utils/storage.ts:7-16 | no expiry (0) for a non-positive duration, otherwise the expiry lies that many minutes after now |
| Storage.ReadItem | packages/renderer/src/utils/storage.ts:21-37 | the default for a missing or expired key, the stored value otherwise |
| Storage.ItemsAfterRead | packages/renderer/src/utils/storage.ts:30-34 | a read removes the key exactly when it has expired and changes nothing else |
| Storage.ReadObjectAsWritten | packages/renderer/src/utils/storage.ts:43-55 | `getObject` as written unwraps `.value` a second time: a stored object comes back as its own `value` member |
| Storage.ReadObject | packages/renderer/src/utils/storage.ts:43-55 | the corrected read returns the stored value when it is truthy and alive, the default otherwise |
| JsValue.Json | packages/renderer/src/utils/storage.ts:18-28 | the JSON round trip keeps the kind of a value and its truthiness, leaves no nested undefined, keeps an array's length with undefined items as null, and keeps exactly the object members that are not undefined |
| JsValue.JsonKeepsSafe | packages/renderer/src/utils/storage.ts:18-28 | a value with no nested undefined comes back from the JSON round trip unchanged |
| JsValue.JsonIdempotent | packages/renderer/src/utils/storage.ts:18-28 | a second JSON round trip changes nothing |
| JsValue.JsonChangesUnsafe | packages/renderer/src/utils/storage.ts:18-28 | the JSON round trip changes a value exactly when undefined is nested in it |
| Storage.SetGetRoundTrip | packages/renderer/src/utils/storage.ts:7-37 | a value set without expiry is read back at any later time as its JSON image, which is the value itself when no undefined is nested in it |
| Storage.UndefinedMemberDropped | packages/renderer/src/utils/storage.ts:18-28 | `{a: undefined}` is read back as `{}` |
| Storage.UndefinedItemNulled | packages/renderer/src/utils/storage.ts:18-28 | `[undefined]` is read back as `[null]` |
| Storage.ExpiryBoundary | packages/renderer/src/utils/storage.ts:13-33 | a value with an expiry is readable, as its JSON image, up to and including the expiry instant, and gone one millisecond later |
| Storage.ReadObjectAsWrittenLosesObject | packages/renderer/src/utils/storage.ts:39-55 | an object stored by `setObject` without a `value` member reads back as undefined, not as itself |
| Storage.ReadObjectRoundTrip | packages/renderer/src/utils/storage.ts:39-55 | with the corrected read, every truthy value set without expiry reads back as its JSON image, and as itself when no undefined is nested in it |
| Storage.Store.SetItem | packages/renderer/src/utils/storage.ts:7-19 | the key now holds the value's JSON image with the expiry `ExpiryFor` computes; other keys unchanged |
| Storage.Store.GetItem | packages/renderer/src/utils/storage.ts:21-37 | returns `ReadItem` and leaves the store as `ItemsAfterRead` |
| Storage.Store.SetObject | packages/renderer/src/utils/storage.ts:39-41 | the same write as `SetItem`: the JSON image of the value with its expiry |
| Storage.Store.GetObject | packages/renderer/src/utils/storage.ts:43-55 | returns the corrected `ReadObject` and leaves the store as `ItemsAfterRead` |
| Storage.Store.RemoveItem | packages/renderer/src/utils/storage.ts:57-59 | the key is gone, everything else unchanged |
| Storage.Store.Clear | packages/renderer/src/utils/storage.ts:61-63 | the store is empty |
| IpcRenderer.Send | packages/renderer/src/IPC/IPCRenderer.ts:21-54 | resolves with the result exactly on a success reply, rejects with the error otherwise, and pops the error up only for `send` |
| IpcRenderer.SendKindsAgree | packages/renderer/src/IPC/IPCRenderer.ts:21-54 | `send` and `sendWithoutErrorPopup` settle identically; only the popup differs |
| IpcRenderer.IndexOf | packages/renderer/src/IPC/IPCRenderer.ts:66 | the index found holds the function and no earlier index does |
| IpcRenderer.RemoveFirst | packages/renderer/src/IPC/IPCRenderer.ts:64-69 | the remover splices out one registration when the function is present and changes nothing otherwise |
| IpcRenderer.RemoveFirstMultiset | packages/renderer/src/IPC/IPCRenderer.ts:64-69 | the registrations after removing are the ones before minus one copy of the function |
| IpcRenderer.RemoveAfterAppend | packages/renderer/src/IPC/IPCRenderer.ts:56-69 | registering a function not yet in the list and then calling its remover restores the list |
| IpcRenderer.RemoveFirstKeepsOrder | packages/renderer/src/IPC/IPCRenderer.ts:64-69 | removing keeps all other registrations in their order |
| IpcRenderer.Renderer.constructor | packages/renderer/src/IPC/IPCRenderer.ts:12-19 | the channel is the one given and no listener is registered |
| IpcRenderer.Renderer.On | packages/renderer/src/IPC/IPCRenderer.ts:56-70 | the function is appended to its name's list (created when missing) and the remover names both |
| IpcRenderer.Renderer.Remove | packages/renderer/src/IPC/IPCRenderer.ts:64-69 | the name's list becomes `RemoveFirst` of it; other names unchanged |
| IpcRenderer.ApplyEdit | packages/renderer/src/IPC/IPCRenderer.ts:56-69 | a listener's `on` appends to its name's list, creating it; its remover call splices the first registration out; no list is ever deleted |
| IpcRenderer.LiveDispatch | packages/renderer/src/IPC/IPCRenderer.ts:72-80 | the for-of over the live array: the calls made so far are a prefix of the result, and no list is deleted |
| IpcRenderer.LiveDispatchStep | packages/renderer/src/IPC/IPCRenderer.ts:76-78 | one iteration calls the listener now at the index and applies the edits that call makes before the next index is read |
| IpcRenderer.QuietDispatchFrom | packages/renderer/src/IPC/IPCRenderer.ts:76-78 | from any index, a dispatch without edits calls the rest of the list in order and leaves the registry alone |
| IpcRenderer.QuietDispatch | packages/renderer/src/IPC/IPCRenderer.ts:72-80 | when no listener changes the registry, exactly the listeners registered under the name are called, in registration order |
| IpcRenderer.SelfRemovalSkipsNext | packages/renderer/src/IPC/IPCRenderer.ts:64-78 | with listeners `[1, 2]`, a first listener that removes itself makes the dispatch skip listener 2, whose registration stays |
| IpcRenderer.AddedDuringDispatchIsCalled | packages/renderer/src/IPC/IPCRenderer.ts:56-78 | a listener registered on the same name while the dispatch runs is called by it |
| IpcRenderer.Renderer.Perform | packages/renderer/src/IPC/IPCRenderer.ts:56-69 | a running listener's `on` or remover call changes the registry as `ApplyEdit` says |
| IpcRenderer.Renderer.PerformAll | packages/renderer/src/IPC/IPCRenderer.ts:56-69 | the edits of one listener call are applied in order |
| IpcRenderer.Renderer.HandleReceivingMessage | packages/renderer/src/IPC/IPCRenderer.ts:72-80 | the listeners called and the registry afterwards are those of `LiveDispatch`, which re-reads the name's list at every index |
| WorkerProtocol.Request | packages/main/src/typesafe-worker-messages/TypeSafeWorkerMessagesInMain.ts:31-37 | the request envelope carries the channel tag, the "message" type and the id it was sent under |
| WorkerProtocol.Reply | packages/main/src/typesafe-worker-messages/TypeSafeWorkerMessagesInMain.ts:67-73 | the reply carries the channel tag, the "callback" type, an empty name, the handler's result and the request's own cbId |
| WorkerProtocol.RequestIds | packages/main/src/typesafe-worker-messages/TypeSafeWorkerMessagesInMain.ts:30-39 | the ids of the posted requests, one per request |
| WorkerProtocol.RequestIdsGrow | packages/main/src/typesafe-worker-messages/TypeSafeWorkerMessagesInMain.ts:30-39 | posting a request under the next id appends that id and keeps the ids strictly increasing and below the counter |
| WorkerProtocol.RequestIdsOther | packages/main/src/typesafe-worker-messages/TypeSafeWorkerMessagesInMain.ts:67-73 | posting a reply or a log line adds no request id |
| WorkerProtocol.Answer | packages/main/src/typesafe-worker-messages/TypeSafeWorkerMessagesInMain.ts:64-73 | after awaiting the handler, at most one envelope is posted: the reply with the handler's result, and nothing when the handler threw or its promise rejected |
| WorkerProtocol.AnsweredIffSettled | packages/main/src/typesafe-worker-messages/TypeSafeWorkerMessagesInMain.ts:64-73 | a callback under the request's id is posted exactly when the handler settled with a result, so a failing handler leaves the sender's resolver waiting |
| WorkerMain.MainEnd.constructor | packages/main/src/typesafe-worker-messages/TypeSafeWorkerMessagesInMain.ts:9-24 | no handler, counter 0, nothing waiting, nothing posted; the bookkeeping invariant holds |
| WorkerMain.MainEnd.Send | packages/main/src/typesafe-worker-messages/TypeSafeWorkerMessagesInMain.ts:26-44 | the request is posted under the current counter, which then grows by one; its resolver is newly waiting; the bookkeeping invariant (ids increase, every resolver belongs to a posted request, none is called twice) is kept |
| WorkerMain.MainEnd.Handle | packages/main/src/typesafe-worker-messages/TypeSafeWorkerMessagesInMain.ts:46-53 | a second handler for a name is refused with "Message handler <name> already existed!" and the first kept; otherwise the handler is installed |
| WorkerMain.MainEnd.Receive | packages/main/src/typesafe-worker-messages/TypeSafeWorkerMessagesInMain.ts:59-92 | foreign envelopes are ignored; a request is answered under its cbId only when a handler exists and settles, and a handler that throws or rejects posts nothing; a callback calls and removes the waiting resolver of its id, once; a log line is passed to the logger |
| WorkerSide.LogEnvelope | packages/main/src/typesafe-worker-messages/TypeSafeWorkerMessagesInWorker.ts:105-114 | a logger envelope carries the level as name, the arguments as payload and no cbId |
| WorkerSide.WorkerEnd.constructor | packages/main/src/typesafe-worker-messages/TypeSafeWorkerMessagesInWorker.ts:24-40 | no handler, counter 0, nothing waiting or posted; whether a parent port exists is fixed |
| WorkerSide.WorkerEnd.Send | packages/main/src/typesafe-worker-messages/TypeSafeWorkerMessagesInWorker.ts:42-64 | the counter grows by one either way; with a parent the request is posted and its resolver waits, without one nothing is delivered and the call settles at once with undefined |
| WorkerSide.WorkerEnd.Handle | packages/main/src/typesafe-worker-messages/TypeSafeWorkerMessagesInWorker.ts:66-73 | a second handler for a name is refused and the first kept; otherwise the handler is installed |
| WorkerSide.WorkerEnd.Receive | packages/main/src/typesafe-worker-messages/TypeSafeWorkerMessagesInWorker.ts:75-103 | without a parent nothing arrives; log lines and foreign envelopes are ignored; requests are answered under their cbId when a handler exists and settles, and nothing is posted when it throws or rejects; a callback resolves its waiting id once |
| WorkerSide.WorkerEnd.Log | packages/main/src/typesafe-worker-messages/TypeSafeWorkerMessagesInWorker.ts:105-122 | with a parent the log envelope is posted, without one nothing reaches the parent; nothing else changes |
| SystemHandler.Candidates | packages/main/src/IPC/handles/SystemHandler.ts:49-56 | only win32, darwin and linux have install locations to try |
| SystemHandler.FirstExisting | packages/main/src/IPC/handles/SystemHandler.ts:58-70 | the search returns the first path that exists, and undefined exactly when none does |
| SystemHandler.GuessChromeExecutablePath | packages/main/src/IPC/handles/SystemHandler.ts:48-71 | a guess is one of the platform's candidates and exists; undefined exactly when no candidate exists |
| SystemHandler.Win32PrefersProgramFiles | packages/main/src/IPC/handles/SystemHandler.ts:50-53 | on Windows the 'Program Files' location wins whenever it exists |
| SystemHandler.Win32FallsBack | packages/main/src/IPC/handles/SystemHandler.ts:50-53 | the 'Program Files (x86)' location is reported only when the first one is missing |
| SystemHandler.DropTrailing | packages/main/src/IPC/handles/SystemHandler.ts:77 | removing trailing separators leaves a prefix that does not end in a separator |
| SystemHandler.Basename | packages/main/src/IPC/handles/SystemHandler.ts:77 | the basename contains no separator |
| SystemHandler.BasenameOf | packages/main/src/IPC/handles/SystemHandler.ts:77 | the basename of `dir/name` is `name` |
| SystemHandler.DetectBrowserIsExecutable | packages/main/src/IPC/handles/SystemHandler.ts:73-81 | true exactly for a non-empty existing file whose lower-cased basename contains "chrome"; otherwise the first failing guard's message followed by the path |
| SystemHandler.CandidateNamedChrome | packages/main/src/IPC/handles/SystemHandler.ts:49-56 | every install location is named like chrome on its platform |
| SystemHandler.ChromeInName | packages/main/src/IPC/handles/SystemHandler.ts:77 | a name with "chrome" in it, in any case, passes the name check |
| SystemHandler.GuessPassesCheck | packages/main/src/IPC/handles/SystemHandler.ts:48-81 | whatever is guessed passes the executable check when it is a file |
| AccountOperator.Ids | packages/main/src/db/operators/AccountOperator.ts:15-17 | the ids of the table, one per row, in table order |
| AccountOperator.Emails | packages/main/src/db/operators/AccountOperator.ts:31-38 | the set of e-mails stored in some row |
| AccountOperator.AccountsByIds | packages/main/src/db/operators/AccountOperator.ts:23-25 | exactly the stored rows whose id is listed |
| AccountOperator.FreshCredentials | packages/main/src/db/operators/AccountOperator.ts:38-41 | exactly the imported credentials whose e-mail is not stored yet |
| AccountOperator.NewRows | packages/main/src/db/operators/AccountOperator.ts:44-50 | one row per credential with its fields, status WAITING, empty logs, and consecutive fresh ids |
| AccountOperator.AppendNewRows | packages/main/src/db/operators/AccountOperator.ts:43-51 | appending the saved rows keeps the ids positive, strictly increasing and below the next id |
| AccountOperator.BatchRepeatsKept | packages/main/src/db/operators/AccountOperator.ts:38-41 | an unknown e-mail repeated inside one batch is inserted twice: only stored e-mails are filtered |
| AccountOperator.PatchRows | packages/main/src/db/operators/AccountOperator.ts:61-64 | the row with the id takes the patch; every other row and every id is unchanged |
| AccountOperator.BulkPatched | packages/main/src/db/operators/AccountOperator.ts:66-77 | a bulk update keeps the number of rows and their ids |
| AccountOperator.BulkPatchedUntouched | packages/main/src/db/operators/AccountOperator.ts:66-77 | a row that no patch names comes out unchanged |
| AccountOperator.BulkPatchedApplies | packages/main/src/db/operators/AccountOperator.ts:66-77 | a stored row with a truthy id that exactly one patch names comes out as that patch applied to it |
| AccountOperator.BulkPatchedSkipsUnknown | packages/main/src/db/operators/AccountOperator.ts:69-73 | patches without an id, with id 0 or with an unknown id change nothing |
| AccountOperator.ResetStatus | packages/main/src/db/operators/AccountOperator.ts:79-84 | RUNNING and WAITING_FOR_ACTION become WAITING; every other status is kept |
| AccountOperator.ResetRows | packages/main/src/db/operators/AccountOperator.ts:79-84 | every row keeps all its fields but the status, which is reset |
| AccountOperator.ResetRowsSettles | packages/main/src/db/operators/AccountOperator.ts:79-84 | after the reset no row is RUNNING or WAITING_FOR_ACTION, and a second reset changes nothing |
| AccountOperator.DeleteRows | packages/main/src/db/operators/AccountOperator.ts:55-56 | exactly the rows whose id is not listed remain |
| AccountOperator.FilterKeepsWellKeyed | packages/main/src/db/operators/AccountOperator.ts:55-56 | deleting rows keeps the remaining ids positive and strictly increasing |
| AccountOperator.AccountStore.constructor | packages/main/src/db/operators/AccountOperator.ts:10-13 | an empty table whose first id will be 1 |
| AccountOperator.AccountStore.GetAccountsByIds | packages/main/src/db/operators/AccountOperator.ts:23-25 | returns exactly the stored rows whose id is listed and changes nothing |
| AccountOperator.AccountStore.AddAccounts | packages/main/src/db/operators/AccountOperator.ts:27-53 | appends new WAITING rows for exactly the credentials whose e-mail is not stored, and announces the change even when nothing was added |
| AccountOperator.AccountStore.DeleteAccounts | packages/main/src/db/operators/AccountOperator.ts:55-59 | exactly the listed rows go; the change is announced, provided the task manager call before it returns |
| AccountOperator.AccountStore.UpdateAccount | packages/main/src/db/operators/AccountOperator.ts:61-64 | the row with the id takes the patch; the change is announced |
| AccountOperator.AccountStore.UpdateAccountsInBulk | packages/main/src/db/operators/AccountOperator.ts:66-77 | the loop applies each patch with a truthy, known id in turn; the change is announced once |
| AccountOperator.AccountStore.ResetRunningAccountsStatus | packages/main/src/db/operators/AccountOperator.ts:79-84 | the table becomes `ResetRows` of itself and nothing is announced |
| Entities.ParseStatus | packages/main/src/db/types/index.ts:1-7 | a string read back as a status is that status's stored name |
| Entities.ParseStatusName | packages/main/src/db/types/index.ts:1-7 | every status reads back from its stored name, so the five names are distinct |
| Entities.StatusName | packages/main/src/db/types/index.ts:1-7 | every stored status name is non-empty and has no blank |
| Entities.StatusPatch | packages/main/src/modules/taskManager.ts:352-368 | a `{ id, status }` patch names its row and changes only the status |
| Entities.SetError | packages/main/src/modules/taskManager.ts:290-301 | the ERROR patch changes exactly the status and the logs |
| Entities.SetSuccess | packages/main/src/modules/taskManager.ts:276-287 | the SUCCESS patch changes exactly the status and the login timestamp |
| Entities.NewAccountRow | packages/main/src/db/entity/Account.entity.ts:4-26 | a row created from credentials keeps them and takes the column defaults: WAITING, empty logs, timestamp 0 |
| Entities.ApplyPatch | packages/main/src/db/operators/AccountOperator.ts:61-64 | the fields present in a partial account overwrite, the absent ones are kept, and the row keeps its id |
| Entities.ApplyPatchIdempotent | packages/main/src/db/operators/AccountOperator.ts:61-64 | applying the same partial account twice is applying it once |
| SettingsOperator.Merge | packages/main/src/db/operators/SettingsOperator.ts:21-24 | each field given overwrites, each field absent is kept |
| SettingsOperator.MergeSettles | packages/main/src/db/operators/SettingsOperator.ts:21-24 | merging the same fields twice is merging them once, and merging nothing changes nothing |
| SettingsOperator.SettingsStore.constructor | packages/main/src/lowdb.ts:18 | the store starts from the defaults: empty executable path and the run flag off |
| SettingsOperator.SettingsStore.GetSettings | packages/main/src/db/operators/SettingsOperator.ts:16-19 | returns the stored settings |
| SettingsOperator.SettingsStore.UpdateSettings | packages/main/src/db/operators/SettingsOperator.ts:21-24 | the stored settings become the merge of the old ones with the fields given |
| SettingsOperator.SettingsStore.UpdateRunFlag | packages/main/src/db/operators/SettingsOperator.ts:26-35 | only the run flag is written; turning it on enables the task manager with its jobs untouched, turning it off disables it after the non-full clean-up; both timers follow the flag, the last flushed status list is kept, and the task manager stays sound |
| LoginCommon.ToInt32 | packages/main/src/modules/LoginCommon.ts:114 | `& 0xffffffff` leaves a signed 32-bit value congruent to its argument modulo 2^32 |
| LoginCommon.ToInt32Offset | packages/main/src/modules/LoginCommon.ts:114 | the 32-bit truncation differs from its argument by a whole multiple of 2^32 |
| LoginCommon.ToInt32Shift | packages/main/src/modules/LoginCommon.ts:114 | adding a multiple of 2^32 does not change the truncated value |
| LoginCommon.HashStep | packages/main/src/modules/LoginCommon.ts:114 | one step of the rolling hash is a signed 32-bit value |
| LoginCommon.HashStepIsTimes31 | packages/main/src/modules/LoginCommon.ts:114 | `(hash << 5) - hash + code`, truncated, is `31 * hash + code` truncated: the shift's own wrap-around does not change the result |
| LoginCommon.Hash | packages/main/src/modules/LoginCommon.ts:110-116 | the hash of no characters is the port; over a non-empty email it is a signed 32-bit value |
| LoginCommon.WindowX | packages/main/src/modules/LoginCommon.ts:118-133 | the x position is one of the six columns the clamp to 790 allows: offsets 0 to 4 give 50 + 150 * offset, offsets 5 to 7 are clamped to 790 |
| LoginCommon.WindowY | packages/main/src/modules/LoginCommon.ts:119-134 | the y position is one of the three rows the clamp to 260 allows |
| LoginCommon.CalculateWindowPosition | packages/main/src/modules/LoginCommon.ts:110-136 | the loop computes the hash of the port and every character of a non-empty email, and the position is derived from it |
| LoginCommon.ProfileFolderName | packages/main/src/modules/LoginCommon.ts:102 | the folder name has no '@' and no '.' and is no longer than the email |
| LoginCommon.ProfileFolderNameIdempotent | packages/main/src/modules/LoginCommon.ts:102 | computing the folder name of a folder name changes nothing |
| LoginCommon.LaunchArgs | packages/main/src/modules/LoginCommon.ts:152-173 | fifteen arguments, seventeen with the VPN extension; the third is the debugging port and the fifteenth the window name |
| LoginCommon.ExtensionFlagsLast | packages/main/src/modules/LoginCommon.ts:146-173 | the extension flags are the only difference the VPN extension makes, and they come last |
| LoginCommon.LaunchCommand | packages/main/src/modules/LoginCommon.ts:139-181 | a non-Latin-1 email throws while the arguments are built, before a missing executable path throws; otherwise a command |
| LoginCommon.LaunchCommandShape | packages/main/src/modules/LoginCommon.ts:181 | the command is the quoted executable, a space, then the arguments joined by single spaces |
| LoginCommon.CeilDiv1000 | packages/main/src/modules/LoginCommon.ts:45 | the result is the ceiling of the timeout divided by 1000 |
| LoginCommon.MaxProbes | packages/main/src/modules/LoginCommon.ts:45-80 | the do-while probes at least once and otherwise `ceil(timeout / 1000)` times at most |
| LoginCommon.CheckPortAvailable | packages/main/src/modules/LoginCommon.ts:44-83 | probes until the first ready answer or the attempt limit, one sleep between consecutive probes and none after the last; true exactly when the last probe was ready |
| LoginCommon.PortReady | packages/main/src/modules/LoginCommon.ts:48-70 | a failed request or a status other than 200 is not ready; a ready answer is a JSON object carrying `webSocketDebuggerUrl` |
| LoginCommon.PortTimeout | packages/main/src/modules/LoginCommon.ts:210-213 | the message is the fixed text around the port in decimal, and the port reads back from it |
| LoginCommon.PortTimeoutInjective | packages/main/src/modules/LoginCommon.ts:210-213 | different ports give different timeout messages |
| LoginCommon.LaunchBrowserSession | packages/main/src/modules/LoginCommon.ts:200-213 | a command that throws is the session's error; otherwise the session starts when one of at most thirty probes is ready and fails with the port timeout message when none is; a started session carries the built command and every probe before the ready one failed |
| LoginCommon.WaitForPort | packages/main/src/modules/LoginCommon.ts:208-213 | an error from the launch is passed on unchanged; after a launch the session holds the launched command once a probe among the first thirty is ready, every earlier probe failed, and the error is the port timeout message exactly when all thirty failed |
| LoginCommon.CloseBrowser | packages/main/src/modules/LoginCommon.ts:254-261 | the process is killed first; the connection is closed exactly when the kill did not throw, and nothing escapes |
| Base64.Symbol | packages/main/src/modules/LoginCommon.ts:167 | an alphabet symbol is never the padding character |
| Base64.SymbolValue | packages/main/src/modules/LoginCommon.ts:167 | a symbol decodes to a 6-bit value |
| Base64.SymbolRoundTrip | packages/main/src/modules/LoginCommon.ts:167 | each 6-bit value decodes back from its symbol |
| Base64.EncodeUnpadded | packages/main/src/modules/LoginCommon.ts:167 | the encoding without padding has no '=' and 4n/3 symbols rounded up |
| Base64.Group | packages/main/src/modules/LoginCommon.ts:167 | three bytes become four symbols |
| Base64.Encode | packages/main/src/modules/LoginCommon.ts:167 | `btoa`'s output length is a multiple of four |
| Base64.PaddedLength | packages/main/src/modules/LoginCommon.ts:167 | the unpadded length plus its `=` padding is a multiple of four for every input length |
| Base64.GroupBits | packages/main/src/modules/LoginCommon.ts:167 | the bits of three bytes split into four symbols join back into the bytes |
| Base64.DecodeEncode | packages/main/src/modules/LoginCommon.ts:167 | decoding the unpadded encoding gives back the bytes |
| Base64.DecodeOne | packages/main/src/modules/LoginCommon.ts:167 | a one-byte tail decodes from its two symbols |
| Base64.DecodeTwo | packages/main/src/modules/LoginCommon.ts:167 | a two-byte tail decodes from its three symbols |
| Base64.DecodeGroup | packages/main/src/modules/LoginCommon.ts:167 | a full group decodes to its three bytes whatever follows |
| Base64.EncodeInjective | packages/main/src/modules/LoginCommon.ts:167 | different byte strings never share an unpadded encoding |
| Base64.Latin1Bytes | packages/main/src/modules/LoginCommon.ts:167 | a Latin-1 string becomes one byte per character, with the same code |
| Base64.Btoa | packages/main/src/modules/LoginCommon.ts:167 | `btoa` succeeds exactly on Latin-1 strings |
| Base64.WindowName | packages/main/src/modules/taskManager.ts:123 | the window name exists exactly for a Latin-1 email; it has no '=' and is the unpadded encoding of the email's bytes |
| Base64.RemoveTrailing | packages/main/src/modules/LoginCommon.ts:167 | removing '=' from an encoding followed by padding leaves the encoding |
| Base64.RemoveRun | packages/main/src/modules/LoginCommon.ts:167 | removing '=' from padding alone leaves nothing |
| Base64.WindowNameInjective | packages/main/src/modules/taskManager.ts:123 | two accounts share a window name only when their emails are equal, so killing by window name reaches one account's browser |
| TaskManager.Without | packages/main/src/modules/taskManager.ts:106 | the key order without one key holds exactly the other keys and stays duplicate-free |
| TaskManager.JobMap.Put | packages/main/src/modules/taskManager.ts:61-65 | `Map.set`: the key maps to the job, every other entry is unchanged, and an existing key keeps its place in insertion order |
| TaskManager.JobMap.Remove | packages/main/src/modules/taskManager.ts:106 | `Map.delete`: the key is gone and every other entry is unchanged |
| TaskManager.JobMap.Values | packages/main/src/modules/taskManager.ts:116 | `Array.from(values())` lists the jobs in insertion order |
| TaskManager.SubMapSound | packages/main/src/modules/taskManager.ts:100-147 | deleting entries keeps the scheduler's invariant: ids match, orders are positive and distinct, at most two jobs run |
| TaskManager.MaxOrderIn | packages/main/src/modules/taskManager.ts:57-59 | the `reduce` from 0 is at least every order and is 0 or one of them |
| TaskManager.MaxOrder | packages/main/src/modules/taskManager.ts:57-59 | the largest order is at least every order in the map |
| TaskManager.Enqueue | packages/main/src/modules/taskManager.ts:51-66 | the account gets a WAITING job without a session and an order above every other job; an old session is closed; nothing else changes |
| TaskManager.EnqueueSound | packages/main/src/modules/taskManager.ts:51-66 | queuing an account keeps the scheduler's invariant |
| TaskManager.EnqueueAll | packages/main/src/modules/taskManager.ts:51-66 | the loop of `run` keeps the map well formed |
| TaskManager.EnqueueAllSound | packages/main/src/modules/taskManager.ts:51-66 | the whole loop keeps the scheduler's invariant |
| TaskManager.EnqueueAllWaiting | packages/main/src/modules/taskManager.ts:51-66 | after `run` every fetched account has a WAITING job without a session |
| TaskManager.EnqueueAllUntouched | packages/main/src/modules/taskManager.ts:51-66 | jobs of accounts not in the batch are left as they were |
| TaskManager.EnqueueAllOrdered | packages/main/src/modules/taskManager.ts:57-64 | within a batch of distinct accounts a later account runs later |
| TaskManager.WaitingPatches | packages/main/src/modules/taskManager.ts:43-48 | one WAITING patch per fetched account, in order |
| TaskManager.SuccessIds | packages/main/src/modules/taskManager.ts:101-103 | exactly the ids of the SUCCESS jobs |
| TaskManager.RemoveAll | packages/main/src/modules/taskManager.ts:105-107 | deleting keys one by one keeps the map well formed |
| TaskManager.RemoveAllEntries | packages/main/src/modules/taskManager.ts:105-107 | the listed keys are gone and every other entry is unchanged |
| TaskManager.RemoveAllSound | packages/main/src/modules/taskManager.ts:100-108 | deleting the listed keys keeps the scheduler invariant |
| TaskManager.RemoveSuccessExactly | packages/main/src/modules/taskManager.ts:100-108 | `cleanUpSuccessAccounts` removes exactly the SUCCESS jobs and keeps every other job as it was |
| TaskManager.Finish | packages/main/src/modules/taskManager.ts:137-142 | a complete cleanup kills the window by name and closes the session; `btoa` throwing there ends the loop; the map is unchanged |
| TaskManager.CleanOne | packages/main/src/modules/taskManager.ts:118-142 | one iteration only appends effects, and once the loop has ended nothing more happens |
| TaskManager.CleanAll | packages/main/src/modules/taskManager.ts:114-147 | the loop keeps the map well formed and only appends effects |
| TaskManager.CleanAllStaysAborted | packages/main/src/modules/taskManager.ts:118-146 | after `btoa` throws, the rest of the snapshot is not visited |
| TaskManager.CleanAllCompletes | packages/main/src/modules/taskManager.ts:118-143 | when every email is Latin-1 the loop visits the whole snapshot |
| TaskManager.CleanAllEntries | packages/main/src/modules/taskManager.ts:118-135 | a completed loop deletes exactly the visited jobs that are not WAITING_FOR_ACTION |
| TaskManager.CleanAllShrinks | packages/main/src/modules/taskManager.ts:118-135 | whatever the loop visited, the map only lost entries |
| TaskManager.CleanAllReportsRunning | packages/main/src/modules/taskManager.ts:119-128 | a completed loop writes every visited RUNNING job back as ERROR with the cleanup log |
| TaskManager.CleanOneReportsRunning | packages/main/src/modules/taskManager.ts:119-128 | a RUNNING job visited without `btoa` throwing is written back as ERROR with the cleanup log |
| TaskManager.CleanAllSound | packages/main/src/modules/taskManager.ts:114-147 | the cleanup loop keeps the scheduler invariant, whether it completes or stops early |
| TaskManager.CleanAllStopped | packages/main/src/modules/taskManager.ts:118-146 | where the loop stops, at the end or after `btoa` threw, nothing remains to be done |
| TaskManager.CleanUpKeepsOnlyWaitingForAction | packages/main/src/modules/taskManager.ts:114-135 | cleaning a sound map keeps exactly its WAITING_FOR_ACTION jobs, unchanged, and stays sound |
| TaskManager.LowestWaitingIn | packages/main/src/modules/taskManager.ts:203-221 | none exactly when nothing waits; else a WAITING job whose order is lowest, the first such in map order |
| TaskManager.LowestWaiting | packages/main/src/modules/taskManager.ts:203-221 | none exactly when nothing waits; else a WAITING job of lowest order |
| TaskManager.LowestWaitingUnique | packages/main/src/modules/taskManager.ts:203-205 | in a sound map every other WAITING job has a strictly larger order, so the sort has no ties |
| TaskManager.Mark | packages/main/src/modules/taskManager.ts:252-269 | only the status of the job changes; a job no longer in the map is left alone |
| TaskManager.MarkSound | packages/main/src/modules/taskManager.ts:207-255 | a status change keeps the invariant unless it would make a third job run |
| TaskManager.StatusList | packages/main/src/modules/taskManager.ts:350-361 | one entry per job, in map order |
| TaskManager.StatusListOfSound | packages/main/src/modules/taskManager.ts:356-361 | in a sound map the list names each key once, in insertion order, with its job's status |
| TaskManager.StatusPatches | packages/main/src/modules/taskManager.ts:368 | one status patch per list entry |
| TaskManager.TaskManager.constructor | packages/main/src/modules/taskManager.ts:16-29 | an empty map, disabled, no timers, nothing flushed |
| TaskManager.TaskManager.Run | packages/main/src/modules/taskManager.ts:35-73 | SUCCESS jobs are dropped, the accounts are written back as WAITING and queued in order, and the manager is enabled |
| TaskManager.TaskManager.EnqueueAccount | packages/main/src/modules/taskManager.ts:52-65 | one iteration of the loop in `run` is `Enqueue` |
| TaskManager.TaskManager.Enable | packages/main/src/modules/taskManager.ts:78-87 | the manager is enabled with both timers; when it was already enabled nothing changes |
| TaskManager.TaskManager.Disable | packages/main/src/modules/taskManager.ts:93-98 | the timers stop and the map is what the cleanup loop leaves |
| TaskManager.TaskManager.CleanUpSuccessAccounts | packages/main/src/modules/taskManager.ts:100-108 | the map loses exactly its SUCCESS jobs |
| TaskManager.TaskManager.CleanUp | packages/main/src/modules/taskManager.ts:114-147 | the map and effects are what `CleanAll` over the snapshot gives |
| TaskManager.TaskManager.CleanSnapshot | packages/main/src/modules/taskManager.ts:116-146 | the loop over the snapshot leaves the map and effects `CleanAll` describes, stopping where `btoa` throws |
| TaskManager.TaskManager.CleanJob | packages/main/src/modules/taskManager.ts:119-142 | one iteration of the cleanup loop is `CleanOne` |
| TaskManager.TaskManager.DispatchTick | packages/main/src/modules/taskManager.ts:189-255 | nothing happens when disabled, the run flag is off, two jobs run or nothing waits; else the lowest-order WAITING job becomes RUNNING and its login starts |
| TaskManager.TaskManager.LaunchSucceeded | packages/main/src/modules/taskManager.ts:304-313 | a job still in the map keeps the returned session |
| TaskManager.TaskManager.OnWaitingForActions | packages/main/src/modules/taskManager.ts:261-273 | a job still in the map becomes WAITING_FOR_ACTION in the map and in the table |
| TaskManager.TaskManager.OnSuccess | packages/main/src/modules/taskManager.ts:274-287 | a job still in the map succeeds, with the login time written to the table |
| TaskManager.TaskManager.OnError | packages/main/src/modules/taskManager.ts:288-338 | a job still in the map fails, with the message as its log |
| TaskManager.TaskManager.FlushStatuses | packages/main/src/modules/taskManager.ts:344-373 | skipped when disabled or empty; otherwise the list is written exactly when it differs from the last list written, and becomes the last list |
| TaskManager.TaskManager.BringBrowserToFront | packages/main/src/modules/taskManager.ts:375-384 | only a job with a session is brought to front; nothing else changes |
| LoginGoogle.StripQuery | packages/main/src/modules/LoginWIthGoogle.ts:83 | the cut URL has no '?', is a prefix of the URL, and is the URL itself when it has no query |
| LoginGoogle.StripQueryIsFirstPiece | packages/main/src/modules/LoginWIthGoogle.ts:83 | the cut is the first piece of `split('?')` |
| LoginGoogle.FirstRoute | packages/main/src/modules/LoginWIthGoogle.ts:126-227 | none exactly when no row matches; otherwise the first row whose fragments the URL contains |
| LoginGoogle.Act | packages/main/src/modules/LoginWIthGoogle.ts:145-162 | the code page fails without a seed and otherwise fills the code of the seed with its spaces removed; no other page fails |
| LoginGoogle.Dispatch | packages/main/src/modules/LoginWIthGoogle.ts:126-227 | an unknown URL fails with the unconfigured-link error; otherwise the first matching row's handler decides |
| LoginGoogle.IdentifierFirst | packages/main/src/modules/LoginWIthGoogle.ts:127-133 | an e-mail page types the e-mail whatever else the URL contains |
| LoginGoogle.CodePage | packages/main/src/modules/LoginWIthGoogle.ts:145-162 | on the code page the flow fails without a seed and otherwise fills the code from the normalised seed |
| LoginGoogle.FatalMessage | packages/main/src/modules/LoginWIthGoogle.ts:85-97 | the fatal error is the password, the code or the retry message |
| LoginGoogle.Step | packages/main/src/modules/LoginWIthGoogle.ts:82-227 | a tick ends the loop signed in exactly when the URL is new and has left Google's sign-in pages |
| LoginGoogle.StepNewUrl | packages/main/src/modules/LoginWIthGoogle.ts:113-115 | a new URL resets the counter to 0, becomes the last URL, and is never just polled |
| LoginGoogle.StepCountsRepeats | packages/main/src/modules/LoginWIthGoogle.ts:106-111 | a repeat below the ceiling polls again and counts unless the URL is exempt |
| LoginGoogle.StepCeiling | packages/main/src/modules/LoginWIthGoogle.ts:85-98 | a repeat past fifteen fails with the page's message |
| LoginGoogle.StepKeepsCounterInRange | packages/main/src/modules/LoginWIthGoogle.ts:84-113 | the counter stays between -1 and 16 |
| LoginGoogle.IdentifierNeverFails | packages/main/src/modules/LoginWIthGoogle.ts:100-104 | on the e-mail page the reload keeps the counter at 6 or below, so no tick there fails |
| LoginGoogle.StepKeepsIdentifierBounded | packages/main/src/modules/LoginWIthGoogle.ts:100-115 | every tick keeps the e-mail page's counter bounded |
| LoginGoogle.ReportedOnlyOnThrow | packages/main/src/modules/LoginWIthGoogle.ts:82-227 | inside the loop onError fires exactly once, with the error the loop throws, and never otherwise; the wrapper's second call is `LoginWrapper.LoginSession.FlowRejected` |
| LoginGoogle.IdentifierPageNeverThrows | packages/main/src/modules/LoginWIthGoogle.ts:100-104 | however long the e-mail page repeats, the loop never throws |
| LoginGoogle.Tick | packages/main/src/modules/LoginWIthGoogle.ts:83-227 | the loop body as the source writes it, updating `lastUrl` and `retryCount` in place; `Step` is its specification, and the loop of `PerformGoogleLogin` calls it |
| LoginGoogle.RunTicksNext | packages/main/src/modules/LoginWIthGoogle.ts:82 | one more observation while polling is one more step |
| LoginGoogle.RunTicks | packages/main/src/modules/LoginWIthGoogle.ts:82-227 | the loop ends signed in or thrown at a tick among those observed, and takes at most one action or report per tick |
| LoginGoogle.PerformGoogleLogin | packages/main/src/modules/LoginWIthGoogle.ts:69-228 | the loop ends, acts and reports exactly as `RunTicks` over the observed URLs |
| LoginGoogle.CutAfterEnd | packages/main/src/modules/LoginWIthGoogle.ts:82-123 | once the loop has ended, later observations change nothing |
| LoginGoogle.WaitForManualVerification | packages/main/src/modules/LoginWIthGoogle.ts:39-57 | returns at the first poll whose URL could be read and lacks the pattern; every earlier poll threw or still showed it |
| LoginWrapper.LoginSession.constructor | packages/main/src/modules/LoginWIthGoogle.ts:256 | not closed, no listeners, nothing fired |
| LoginWrapper.LoginSession.Close | packages/main/src/modules/LoginWIthGoogle.ts:286-289 | the closer marks the session closed and closes the browser |
| LoginWrapper.LoginSession.FlowResolved | packages/main/src/modules/LoginWIthGoogle.ts:262-275 | unless closed, the user is asked to act and the success listeners are attached; after close nothing happens |
| LoginWrapper.LoginSession.FlowRejected | packages/main/src/modules/LoginWIthGoogle.ts:276-282 | unless closed, onError fires and the browser is closed; after close nothing happens |
| LoginWrapper.LoginSession.BrowserGone | packages/main/src/modules/LoginWIthGoogle.ts:269-274 | a closed page or disconnected browser fires onSuccess exactly when the listeners are attached |
| LoginWrapper.StartFailed | packages/main/src/modules/LoginWithEmail.ts:44-47 | a browser that fails to start fires onError with the error and rethrows it |
| LoginEmail.Messages | packages/main/src/modules/LoginWithEmail.ts:183-215 | one message per rule, in the rules' order |
| LoginEmail.Broken | packages/main/src/modules/LoginWithEmail.ts:187-209 | the empty password breaks every rule |
| LoginEmail.KeptWhenExtended | packages/main/src/modules/LoginWithEmail.ts:187-209 | a rule a password keeps stays kept when characters are appended |
| LoginEmail.Message | packages/main/src/modules/LoginWithEmail.ts:187-209 | every message is a non-empty sentence about the password |
| LoginEmail.MessageInjective | packages/main/src/modules/LoginWithEmail.ts:187-209 | each rule has its own message |
| LoginEmail.BrokenAmong | packages/main/src/modules/LoginWithEmail.ts:187-209 | exactly the listed rules the password breaks |
| LoginEmail.Violations | packages/main/src/modules/LoginWithEmail.ts:187-209 | at most five rules, exactly those the password breaks |
| LoginEmail.ValidatePassword | packages/main/src/modules/LoginWithEmail.ts:183-215 | the errors are the messages of the broken rules in checking order; valid exactly when there are none |
| LoginEmail.Reported | packages/main/src/modules/LoginWithEmail.ts:184-209 | after the first n checks at most n messages have been pushed |
| LoginEmail.ReportedIsMessages | packages/main/src/modules/LoginWithEmail.ts:184-209 | the messages pushed by the first n checks are those of the broken rules among the first n, in order |
| LoginEmail.ReportedAll | packages/main/src/modules/LoginWithEmail.ts:184-214 | the five checks push exactly the messages of the violations |
| LoginEmail.CheckedOneMore | packages/main/src/modules/LoginWithEmail.ts:187-209 | each check appends its rule's message exactly when the password breaks it |
| LoginEmail.ValidIff | packages/main/src/modules/LoginWithEmail.ts:183-215 | a password passes exactly when it has eight characters, a lower-case and an upper-case letter, a digit and a special character |
| LoginEmail.ShortFirst | packages/main/src/modules/LoginWithEmail.ts:187-189 | a short password is reported first with the length message |
| LoginEmail.BrokenAmongFirst | packages/main/src/modules/LoginWithEmail.ts:187-209 | the first broken rule is reported first |
| LoginEmail.SignUp | packages/main/src/modules/LoginWithEmail.ts:63-110 | a password that breaks a rule is reported and thrown with the messages joined by line breaks before any navigation; otherwise the form is filled and the race decides between the existing-account error and success |
| LoginEmail.SignUpFillsCheckedPassword | packages/main/src/modules/LoginWithEmail.ts:67-90 | the password typed into the form is the one that passed the rules |
| AddAccounts.Field | packages/renderer/src/views/Accounts/AddAccountsModal.tsx:16-19 | a field is trimmed, and a missing one is empty |
| AddAccounts.Candidates | packages/renderer/src/views/Accounts/AddAccountsModal.tsx:15-20 | one candidate per line of the paste, at least one even for empty input |
| AddAccounts.OneLine | packages/renderer/src/views/Accounts/AddAccountsModal.tsx:15-20 | text without a line break gives exactly one candidate, parsed from the whole text |
| AddAccounts.TwoFilters | packages/renderer/src/views/Accounts/AddAccountsModal.tsx:32-38 | the two filters in a row keep, in order, exactly the acceptable candidates |
| AddAccounts.HandleOk | packages/renderer/src/views/Accounts/AddAccountsModal.tsx:13-55 | rejected exactly when no candidate is acceptable; otherwise the acceptable candidates in order are submitted, with a warning exactly when some were dropped |
| AddAccounts.SubmittedAreWellFormed | packages/renderer/src/views/Accounts/AddAccountsModal.tsx:15-38 | every submitted account has an e-mail with '@' and a password, neither starting with a blank |
| AddAccounts.AtFound | packages/renderer/src/views/Accounts/AddAccountsModal.tsx:37 | an e-mail that includes "@" has an '@' character |
| AddAccounts.EmptyInput | packages/renderer/src/views/Accounts/AddAccountsModal.tsx:15-27 | an empty paste yields one empty candidate and is rejected |
| AddAccounts.LineIsJoin | packages/renderer/src/views/Accounts/AddAccountsModal.tsx:16 | a pasted line is the three fields joined by tabs |
| AddAccounts.CandidateLine | packages/renderer/src/views/Accounts/AddAccountsModal.tsx:16-19 | parsing a clean pasted line gives back its account |
| AddAccounts.PasteRoundTrip | packages/renderer/src/views/Accounts/AddAccountsModal.tsx:13-55 | pasting clean, acceptable accounts one per line submits exactly them, in order, without a warning |
| AccountsView.FilteredAccounts | packages/renderer/src/views/Accounts/index.tsx:67-77 | nothing without data, everything for a blank search, otherwise exactly the rows whose e-mail, status or logs include the search |
| AccountsView.MatchesSearch | packages/renderer/src/views/Accounts/index.tsx:71-76 | the empty search matches every account |
| AccountsView.LongSearchMatchesNothing | packages/renderer/src/views/Accounts/index.tsx:71-76 | a search longer than the e-mail, the status name and the logs matches nothing |
| AccountsView.FilteredAccountsKeepsOrder | packages/renderer/src/views/Accounts/index.tsx:67-77 | filtering a table made of two parts filters each part, so rows keep their order |
| AccountsView.SearchKeepsBlanks | packages/renderer/src/views/Accounts/index.tsx:71-76 | the search is trimmed only to decide whether it is blank: any search starting with a blank matches no account whose e-mail and logs have none |
| AccountsView.FilteredKeepsBlanks | packages/renderer/src/views/Accounts/index.tsx:67-77 | a non-blank search that starts with a blank keeps only rows with a blank in their e-mail or logs |
| AccountsView.NoBlankInLower | packages/renderer/src/views/Accounts/index.tsx:73-75 | lower-casing a text adds no blank to it |
| AccountsView.NoBlankNoMatch | packages/renderer/src/views/Accounts/index.tsx:71-76 | text without a blank never includes a search that starts with one |
| AccountsView.StatusLabel | packages/renderer/src/views/Accounts/index.tsx:37-43 | every status has a non-empty label |
| AccountsView.TagText | packages/renderer/src/views/Accounts/index.tsx:116-118 | a stored status shows its label; any other string is shown as it is |
| AccountsView.TagTextOfStatus | packages/renderer/src/views/Accounts/index.tsx:116-118 | every status the table stores shows its label |
| AccountsView.Info | packages/renderer/src/views/Accounts/index.tsx:130-150 | running or waiting-for-action rows offer a view button, a success with a login time shows it, anything else shows its logs |
| AccountsView.RunButton | packages/renderer/src/views/Accounts/index.tsx:279-304 | disabled exactly without the run flag or a selection; asks for confirmation exactly when a selected account waits for the user; otherwise sends the selection |
| AccountsView.AnyWaiting | packages/renderer/src/views/Accounts/index.tsx:284-286 | true exactly when a selected row waits for the user |
| DownloadHistory.FileName | packages/renderer/src/views/DownloadHistory/index.tsx:40-42 | the name is the whole path or has no separator, and is empty only for an empty path |
| DownloadHistory.FileNameNoSeparator | packages/renderer/src/views/DownloadHistory/index.tsx:40-42 | a path without a separator is its own name |
| DownloadHistory.FileNameAfterLastSeparator | packages/renderer/src/views/DownloadHistory/index.tsx:40-42 | the name is what follows the last separator |
| DownloadHistory.FileNameTrailingSeparator | packages/renderer/src/views/DownloadHistory/index.tsx:40-42 | a path ending in a separator is shown whole |
| DownloadHistory.FilteredDownloads | packages/renderer/src/views/DownloadHistory/index.tsx:60-71 | nothing without data, everything for an empty search, otherwise exactly the rows whose name, path or e-mail include the search |
| DownloadHistory.MatchesSearch | packages/renderer/src/views/DownloadHistory/index.tsx:63-70 | the empty search matches every row |
| DownloadHistory.LongSearchMatchesNothing | packages/renderer/src/views/DownloadHistory/index.tsx:63-70 | a search longer than the path and the e-mail matches nothing, the file name being no longer than its path |
| DownloadHistory.FileNameLength | packages/renderer/src/views/DownloadHistory/index.tsx:63-65 | the file name shown is no longer than its path |
| DownloadHistory.FileNameMatchIsPathMatch | packages/renderer/src/views/DownloadHistory/index.tsx:60-71 | matching the file name adds nothing to matching the path |
| DownloadHistory.SplitSuffix | packages/renderer/src/views/DownloadHistory/index.tsx:41 | the last piece of a split is a suffix of the path |
| DownloadHistory.LowerSuffix | packages/renderer/src/views/DownloadHistory/index.tsx:64-67 | lower-casing commutes with taking a suffix |
| DownloadHistory.SuffixContains | packages/renderer/src/views/DownloadHistory/index.tsx:64-67 | a text includes what its suffix includes |
| Storage.Store.constructor | packages/renderer/src/utils/storage.ts:6 | no entry is stored yet |
| Strings.Split | packages/renderer/src/views/Accounts/AddAccountsModal.tsx:15 | `split` yields at least one piece, and no piece holds a separator |
| Strings.JoinSplit | packages/renderer/src/views/Accounts/AddAccountsModal.tsx:15 | joining the pieces of a split with the separator gives back the text |
| Strings.SplitJoin | packages/renderer/src/views/Accounts/AddAccountsModal.tsx:15 | splitting pieces joined by a separator they do not contain gives back the pieces |
| Strings.Trim | packages/renderer/src/views/Accounts/AddAccountsModal.tsx:17-19 | `trim` gives the text between a blank prefix and a blank suffix, and neither end of it is blank, so it drops exactly the blanks at both ends; empty exactly for blank text, and text without blanks at its ends is unchanged |
| Strings.Lower | packages/renderer/src/views/Accounts/index.tsx:72-75 | `toLowerCase` maps each character, keeping the length |
| Strings.ReplaceChar | packages/main/src/modules/LoginCommon.ts:102 | `replaceAll` of a character replaces exactly its occurrences |
| Strings.RemoveChar | packages/main/src/modules/LoginCommon.ts:167 | removing a character leaves none of it, and text without it is unchanged |
| Strings.Filter | packages/renderer/src/views/Accounts/AddAccountsModal.tsx:32-38 | `filter` keeps exactly the elements that pass, never more than it was given |
| Strings.FilterConcat | packages/renderer/src/views/Accounts/index.tsx:71-76 | filtering a concatenation filters each part |
| Strings.FilterAll | packages/renderer/src/views/Accounts/AddAccountsModal.tsx:32-38 | a filter every element passes keeps everything |

## Left out

- Browser control and networking are outside the model: Playwright page operations, `connectOverCDP`, the `exec` of Chrome, `fetch`, `getPort`, the VPN extension pop-up and the download-progress listener. The page URL, probe outcomes and race winners are parameters instead.
- TOTP code generation (RFC 6238) is not modelled. `FillCode` carries the normalised seed the code would be generated from.
- Timers are not modelled: `setInterval`, `setTimeout` and `sleep`. The two interval ticks are the explicit methods `DispatchTick` and `FlushStatuses`. Each `await` is treated as atomic, so interleavings of the asynchronous callbacks are not modelled.
- The process signal hooks of `taskManager.ts` (394-409) are not modelled. They only call `Disable(true)`.
- The operating-system helpers are not part of this model: focusing a window and killing by window name. Those calls appear as `BringToFront` and `KillByWindowName` effects.
- `logs`/`renderLog` messages and `console` output are left out.
- Persistence and IPC plumbing are outside the model: typeorm, lowdb, the preload bridge and the `accountDataChange` broadcast. The stores are maps.
- The random profile-folder suffix, `Math.random` and `Date.now` are not modelled. The time is a parameter. `ProfileFolderName` models only the sanitised email part of the path.
- `path.join`, `path.dirname` and `path.basename` of the profile path are not modelled. `LaunchArgs` takes the directory and base name as parameters.
- The floating-point and random helpers of `utils.ts` are outside the model: colours, easing, `uuidv4`.
- Non-ASCII case mapping is not modelled: `Lower`, `Upper` and `CapitalizeFirstLetter` change ASCII letters only, while JavaScript's `toLowerCase` and `toUpperCase` cover all of Unicode.
- LoginGoogle.PerformGoogleLogin: the loop is unbounded in the source. The model runs it over a finite sequence of observed URLs and ends in `Polling` when they run out, so a page stuck forever on an exempt URL is not modelled.
- LoginGoogle.WaitForManualVerification: the method requires a poll at which the user has finished. A user who never finishes, which loops forever in the source, is not modelled.
- The actions on each page are not modelled: clicks, typing, waits for selectors. Only which action a URL selects is modelled. A Playwright call that throws inside the loop is not modelled either.
- The polling loop after e-mail sign-up (`isLoginPage`) is reduced to the `WatchForConfirmation` step.
- The `!accountInfo` check of `performLoginWithEmail` is not modelled, because credentials always exist in the model.
- A race in which neither selector appears within 30 seconds is not modelled, so the resulting timeout error is missing; the winner is a parameter.
- AccountOperator.AccountStore.DeleteAccounts: `taskManager.stopTaskByAccountIds`, called by `deleteAccounts`, is not defined in `taskManager.ts` and has no counterpart in `TaskManager`, so it is not modelled; the method announces the change unconditionally, while the source announces it only if that call returns normally.
- LoginCommon.Hash: a character above U+FFFF is folded as one code, while `charCodeAt` folds its two UTF-16 surrogates, so the hash differs from JavaScript for such e-mails.
- LoginCommon.CalculateWindowPosition: through `Hash`, the window position differs from JavaScript for e-mails with a character above U+FFFF.
- LoginEmail.ValidatePassword: the MinLength rule counts a character above U+FFFF once, while `password.length` counts it twice.
- The second argument that the IPC handler passes to `run` is not modelled.
- Utils.ArraysAreEqual: elements are compared with Dafny's `==`, which is structural, while JavaScript's `!==` compares objects by identity; no caller in the modelled code compares arrays of objects, and for primitive values the two agree.
- IpcRenderer.Renderer.HandleReceivingMessage: a listener is represented only by the registry edits each of its calls makes; the payload, its other effects and a listener that throws (which ends the loop) are not modelled. Calls past the end of `effects` make no edits, so a dispatch whose listeners keep registering on every call, which never ends in the source, is not modelled.
- JsValue.Json: numbers are integers, so NaN and the infinities, which JSON turns into null, are not modelled; functions and symbols are not values of the model.
- AddAccounts.HandleOk: the `accounts.length === 0` branch cannot be taken, because splitting always yields at least one line. The model keeps the branch, and `Candidates` proves it dead.
- The React rendering, antd components and the date formatting of the login time are left out.

## Findings

| source | as written | input that shows it | evidently intended | confidence | as-written member | corrected member |
|---|---|---|---|---|---|---|
| packages/renderer/src/utils/storage.ts:43-55 | `getObject` reads the entry through `getItem`, which already returns the stored value, and then returns that value's `.value` member | `setObject("k", {name: "x"})` then `getObject("k")` returns `undefined` instead of `{name: "x"}` | return the value `getItem` returned, so that `getObject` is the inverse of `setObject` | not executed | Storage.ReadObjectAsWrittenLosesObject | Storage.ReadObjectRoundTrip |
