# googlysync: a verified model of the daemon's core

This Dafny project models the parts of the googlysync daemon that carry state, and proves properties
of them for all inputs, all runs and all interleavings. `dafny verify dfyconfig.toml` checks it.

## What is modelled

**The event pipeline.** The filesystem watcher merges raw events per path in a pending map with a
sliding deadline, and a ticker flushes the due ones into the status store and a bounded channel. A
forwarder goroutine moves them into a second bounded queue, from which the sync engine consumes. Both
channels drop events when full.

- `Events`, `WatchTree`, `Watching`, `SyncQueue`, `SyncEngine` and `Status` hold the components: the
  classes with the fields and methods of the source, and the functions their methods are proved
  against. `Status.Store` keeps its ring as a slice of an array with in-place appends, so that aliasing
  between the ring and returned snapshots is part of the model.
- `Debounce` specifies debouncing on a log of accepted events and flushes, independently of the
  pending map.
- `Pipeline` is a transition system whose steps are the atomic actions of the goroutines, with a clock
  that only moves forward, and `Runs` proves what holds in every reachable state. `Flow` is about
  sequences with lost positions.
- `Daemon` composes the objects; each goroutine step of the objects is proved to be a step of the
  transition system, so the results of `Runs` hold of the objects under any schedule.

**The metadata store and sign-in.** `Schema` has the tables, constraints and statements; `Store` the
records, their encoding and the requests; `StorageObject` the Storage class; `Query` what answers an
ordered and limited query; `Migrations` the second migration in both directions; `Auth` the calls of
the auth service over the store and a keyring, and `AuthService` the service as an object. Faults of the
database, the keyring and the OAuth flow are inputs of each call.

**Small algorithms.** `Like` (prefix escaping against a LIKE matcher), `Config` (the comma-separated
list), `Scopes` (the stored scope string), `GoTime` (times as integer columns), `Text` (joining,
splitting, ordering). `Wrappers` has Option, Result and pointers.

Time is counted in nanoseconds since Go's zero time. The clock, `filepath.Match`, `filepath.Rel`, the
directory tree, failures, and the OAuth result are parameters.

## Where the code differs from its documentation

- The comment on `DeleteAccount` says that it cascades to dependent rows; `files` has no foreign key
  (internal/storage/migrations/00002_sync_state.sql:14), so files stay. `Schema.FilesKeepAccounts` says
  exactly when a statement leaves a file without its account, `Schema.FileOutlivesAccount` gives a case.
- `ListFilesByPrefix` "returns files under a path prefix", but LIKE ignores the case of ASCII letters.
  `Like.PrefixSearchExact` shows that the search is exact if and only if the prefix has no ASCII letter.
- A successful sign-in overwrites `is_primary`, so an account that signs in again stops being primary
  (`Auth.SignInPrimary`, `Auth.PrimaryCanBeLost`), and on a new database the account created by the
  migration is the only primary one until it is deleted (`Auth.FreshDatabase`).
- A token reference can be left without its secret when a store write fails at the wrong moment;
  `Auth.CallCovers` gives the exact condition, `Auth.SecretCanBeLost` and `Auth.SecretCanBeRefused` cases.
- Signing out any account clears the in-memory state, so it can differ from what a restart finds;
  `Auth.RestartAfterSignOut` says exactly when.
- `normalizeOp` prefers create and write to remove and rename, `mergeOp` the other way round;
  `Events.NormalizePreference` says when they agree.

## Model

| member | source | states |
|---|---|---|
| Runs.Conservation | internal/fswatch/fswatch.go:164-171 | in every reachable state, consumed, queued, held and buffered events together are the offered events without the dropped ones, in the order offered; nothing is lost or duplicated otherwise; buffers stay within capacity |
| Runs.OnePlace | internal/daemon/daemon.go:67-73 | every offered event is in exactly one place: dropped at the out channel, dropped at the queue, or at one position on its way |
| Runs.DropAtOut | internal/fswatch/fswatch.go:166-170 | an offered event joins the out channel if there is room; if it is full, channel and events on their way stay as they were and exactly the offered event is lost; no other action loses one there |
| Runs.DropAtQueue | internal/sync/queue.go:24-30 | the queue drops exactly the event the forwarder holds, exactly when it is full; otherwise a put adds it and nothing else adds or loses one |
| Runs.DebounceRefinement | internal/fswatch/fswatch.go:126-172 | in every reachable state the pending map is the merge of the unflushed events and every past flush was correct |
| Runs.ReceiveExact | internal/fswatch/fswatch.go:126-149 | which raw events are accepted, and that an accepted one gives its path, and no other, a deadline 300 ms later |
| Runs.FlushCorrect | internal/fswatch/fswatch.go:151-162 | a flush emits exactly the paths with unflushed events and none in the last 300 ms, once each, with the top operation, in any map order, and leaves every other path as it was |
| Runs.RateOfEmissions | internal/fswatch/fswatch.go:65 | a path is emitted at most T/300 ms + 1 times at any positions within a time window of length T |
| Runs.Latency | internal/fswatch/fswatch.go:102-122 | if a flush comes within 200 ms of the first entry and of each flush, a path that falls quiet is emitted between 300 and 500 ms after its last event |
| Runs.LatencyApplies | internal/fswatch/fswatch.go:102-122 | under every configuration some run meets the conditions of the latency bound, for any path that is not ignored |
| Runs.ConsumedInOrder | internal/sync/sync.go:46-47 | what the engine consumes has non-decreasing times, and events of one path are at least 300 ms apart, whatever was dropped |
| Runs.StatusAgreement | internal/sync/sync.go:38-67 | the store says syncing only between the two updates of a step, is never paused or unspecified, its ring is the last events of the record and its last event the latest, with the label and path of that one |
| Runs.StatusAfterStep | internal/sync/sync.go:38-67 | the state and message after each step: syncing after the first half of a step, idle after the second and at the end, watching at the start, an error after a watcher error, otherwise as before |
| Runs.RecordIsEmissions | internal/fswatch/fswatch.go:164-165 | the status record is the emitted events in order, each with its label, its path relative to the sync root, and its time |
| Runs.ConsumedWasRecorded | internal/daemon/daemon.go:53-73 | what the engine consumed is a subsequence of the status record |
| Runs.ReachableInv | internal/daemon/daemon.go:53-73 | every reachable state satisfies the invariants of watcher, flow, status and engine |
| Pipeline.StepInv | internal/fswatch/fswatch.go:101-172 | each atomic action of each goroutine keeps these invariants |
| Debounce.AcceptRefines | internal/fswatch/fswatch.go:143-148 | accepting an event keeps the pending map equal to the merge of the unflushed events with a deadline 300 ms after the last |
| Debounce.FlushRefines | internal/fswatch/fswatch.go:151-162 | flushing, in any map order, empties exactly the due paths and is a correct flush of the log |
| Debounce.MergeIsTop | internal/fswatch/events.go:21-34 | merging event by event yields an operation of highest priority of the batch |
| Debounce.TopUnique | internal/fswatch/events.go:22-29 | there is only one such operation, so the order of events does not matter |
| Debounce.EmissionsSpaced | internal/fswatch/fswatch.go:147-159 | two emissions of one path are at least 300 ms apart, in every well-formed log |
| Debounce.RateBound | internal/fswatch/fswatch.go:65 | the rate bound for logs |
| Debounce.LatencyBound | internal/fswatch/fswatch.go:102-122 | the latency bound for logs |
| Debounce.TickingWindow | internal/fswatch/fswatch.go:102-122 | if consecutive flushes are at most 200 ms apart, every 200 ms window from the first entry on contains one |
| Debounce.EmissionsOrdered | internal/fswatch/fswatch.go:152-159 | emitted events carry non-decreasing times, and those of one path are 300 ms apart |
| Events.NormalizePreference | internal/fswatch/fswatch.go:226-241 | normalizeOp returns a flagged operation if there is one, and the one mergeOp prefers exactly when create or write is not flagged together with remove or rename |
| Events.NormalizeFirst | internal/fswatch/fswatch.go:226-241 | normalizeOp returns the first flagged operation in the order create, write, remove, rename, chmod |
| Events.NoOperation | internal/fswatch/fswatch.go:226-241 | the operations are the five lowest bits, and without any of them the operation is unknown |
| Events.OpStrings | internal/fswatch/events.go:4-19 | the six labels, all different |
| Watching.Watcher.constructor | internal/fswatch/fswatch.go:52-68 | a new watcher has nothing pending, buffered or watched |
| Watching.Watcher.HandleEvent | internal/fswatch/fswatch.go:126-149 | ignored and unknown events change nothing; others merge into the pending map; a created directory is added recursively |
| Watching.Watcher.CollectReady | internal/fswatch/fswatch.go:151-162 | collects exactly the due paths, in any map order, and leaves the rest pending |
| Watching.Watcher.Announce | internal/fswatch/fswatch.go:165 | records the next ready event with its label and relative path |
| Watching.Watcher.Offer | internal/fswatch/fswatch.go:166-170 | buffers the next ready event if there is room |
| Watching.Watcher.FlushPending | internal/fswatch/fswatch.go:151-172 | run without interference, records all ready events in order and buffers the longest prefix of them that fits |
| Watching.RecordAllRing | internal/fswatch/fswatch.go:164-165 | recording a batch leaves a ring that ends in the records of the batch, in order, cut to its limit, and changes neither state nor message |
| Watching.Watcher.AddRecursive | internal/fswatch/fswatch.go:174-192 | without an error adds exactly the directories the walk reaches; fails exactly if one of them cannot be watched or listed, and then adds no other directory |
| Watching.BrokenExact | internal/fswatch/fswatch.go:174-192 | a walk fails exactly if a directory with no ignored path down to it cannot be watched or listed |
| WatchTree.VisitsExact | internal/fswatch/fswatch.go:174-192 | the walk reaches exactly the directories with no ignored path from the walk root down to them |
| WatchTree.PathExact | internal/fswatch/fswatch.go:174-192 | the path of a visited place is the walk root and the names down to it with single slashes between, also for a root that ends in a slash |
| WatchTree.VisitsBelow | internal/fswatch/fswatch.go:174-192 | every directory reached has a path that begins with the walk root |
| WatchTree.ShouldIgnore | internal/fswatch/fswatch.go:194-224 | the verdict is the declarative exclusion rule |
| WatchTree.IgnoredExact | internal/fswatch/fswatch.go:194-224 | the exclusions, spelled out for a path with a given base name |
| WatchTree.BaseExact | internal/fswatch/fswatch.go:195 | the base name is the part without slashes in front of any trailing slashes |
| WatchTree.BaseOfSlashes | internal/fswatch/fswatch.go:195 | a path of slashes only has the base name "/", the empty path "." |
| SyncQueue.Queue.constructor | internal/sync/queue.go:16-21 | a non-positive capacity is replaced by 1024 |
| SyncQueue.Queue.Enqueue | internal/sync/queue.go:24-30 | appends if there is room, else drops |
| SyncQueue.Queue.Receive | internal/sync/queue.go:33-35 | takes the oldest event |
| SyncEngine.Engine.Dequeue | internal/sync/sync.go:46 | the engine takes the oldest queued event |
| SyncEngine.Engine.BeginEvent | internal/sync/sync.go:59-62 | marks the store as syncing before an event is processed |
| SyncEngine.Engine.BeginTick | internal/sync/sync.go:48-51 | marks the store as syncing at a tick |
| SyncEngine.Engine.Finish | internal/sync/sync.go:63-66 | marks the store as idle after either |
| SyncEngine.Engine.Stop | internal/sync/sync.go:40-45 | marks the store as idle and ends the loop |
| Daemon.Daemon.constructor | cmd/googlysync/providers.go:15-23 | a newly wired daemon is in an initial state of the transition system |
| Daemon.Daemon.StartWatcher | internal/fswatch/fswatch.go:75-91 | starting either registers the whole tree and begins processing, or changes nothing but some watches |
| Daemon.Daemon.ForwardTake | internal/daemon/daemon.go:69 | the forwarder's receive is a step of the transition system |
| Daemon.Daemon.ForwardPut | internal/daemon/daemon.go:70 | the forwarder's enqueue is one, too |
| Daemon.Daemon.WatcherTurn | internal/fswatch/fswatch.go:101-124 | so is every step of the watcher goroutine |
| Daemon.Daemon.OtherTurn | internal/sync/sync.go:38-57 | so is every step of the forwarder and the engine |
| Daemon.Daemon.Run | internal/daemon/daemon.go:53-73 | under any schedule and any input the objects stay in reachable states of the transition system |
| Daemon.Launched | cmd/googlysync/providers.go:15-23 | a newly wired daemon, run under any schedule, is in a reachable state and satisfies the invariants |
| Status.RingExact | internal/status/status.go:51-97 | after any calls the ring is a suffix of all events ever added, of length exactly the least of their number and, over every past moment, the limit then in force plus the events added since |
| Status.FieldsExact | internal/status/status.go:44-97 | after any calls the store holds the state and message of the last update, the last event named, and the time of the last update or event |
| Status.LastEventIsLatest | internal/status/status.go:66-95 | while no update names a last event, the snapshot's is the operation and path of the latest added event |
| Status.HoldSnapshot | internal/status/status.go:81-106 | a snapshot already returned never changes, whatever is called on the store later, although appends are in place |
| Status.Store.constructor | internal/status/status.go:44-48 | a new store is idle with limit 20 and no events |
| Status.Store.SetMaxEvents | internal/status/status.go:51-63 | ignores non-positive limits, otherwise trims the ring |
| Status.Store.Update | internal/status/status.go:66-78 | replaces the snapshot, keeping an omitted last event and the ring's events |
| Status.Store.AddEvent | internal/status/status.go:81-97 | appends, trims, and updates the last event and the snapshot's events |
| Status.Store.Current | internal/status/status.go:100-107 | returns the fields and a fresh copy of the ring |
| Schema.CheckExact | internal/storage/migrations/00002_sync_state.sql:10-65 | on consistent tables the engine's local checks let a statement through exactly if the resulting tables satisfy every unique index and foreign key |
| Schema.DropAccountWithin | internal/storage/store.go:139-144 | deleting an account removes it, adds and changes nothing, and keeps all files and shared drives |
| Schema.DropAccountLargest | internal/storage/migrations/00002_sync_state.sql:27-63 | it removes no more than it must: every consistent part of the tables without the account is still there |
| Schema.FilesKeepAccounts | internal/storage/migrations/00002_sync_state.sql:14 | a statement keeps all files with their accounts unless it deletes an account that has files or writes a file of an unknown account |
| Schema.FileOutlivesAccount | internal/storage/store.go:138-144 | a case in which a file outlives its account |
| Store.ExecExact | internal/storage/store.go:88-606 | a request succeeds exactly if its mandatory fields are filled, the driver works and the tables it asks for satisfy all constraints; a failed one changes no table |
| Store.MandatoryFields | internal/storage/store.go:88-606 | a request is refused for a missing field exactly if one of its mandatory fields is empty, naming the first; a nil argument does nothing |
| Store.ExecFrame | internal/storage/store.go:88-606 | a request changes no row but those it names, by their key, their path or their account |
| Store.DeletesExact | internal/storage/store.go:139-606 | after a successful delete every row it names is gone; for a file delete those are the rows with its account and its path |
| Store.StaysConsistent | internal/storage/store.go:88-606 | after any calls, successful or not, emails and paths are unique and every reference names an existing account |
| Store.PrefixListing | internal/storage/store.go:363-374 | the prefix listings of files and folders select exactly the account's rows whose path begins with the prefix, character by character, up to the case of ASCII letters |
| Store.PathListing | internal/storage/store.go:372 | listings of files and folders are in lexicographic order of the paths |
| Store.OpListing | internal/storage/store.go:552-588 | a listing of pending operations selects the account's operations, of one state if one is given, and has them by creation time |
| Store.FileListingUnique | internal/storage/store.go:363-374 | a file listing has only one possible answer |
| Store.FolderListingUnique | internal/storage/store.go:432-443 | likewise for folders |
| StorageObject.UpsertThenGetFile | internal/storage/store.go:278-333 | after a successful upsert the one file at that path is the record given, times as stored or the time of the call where missing, with the creation time of the row it replaced |
| StorageObject.UpsertThenGetAccount | internal/storage/store.go:88-136 | likewise for accounts |
| StorageObject.UpsertThenGetTokenRef | internal/storage/store.go:174-218 | likewise for token references |
| StorageObject.UpsertThenGetSyncState | internal/storage/store.go:232-275 | likewise for sync states |
| StorageObject.UpsertThenGetFolder | internal/storage/store.go:395-461 | likewise for folders |
| StorageObject.UpsertThenGetSharedDrive | internal/storage/store.go:464-515 | likewise for shared drives |
| StorageObject.AddThenListPendingOp | internal/storage/store.go:518-588 | a new pending operation is decoded as given, queued if it has no state, with its times as stored or the time of the call where missing |
| StorageObject.UpdateThenListPendingOp | internal/storage/store.go:591-598 | an update changes the state, the retry count, the error and the update time of the operation, and no more of it |
| StorageObject.Storage.UpsertAccount | internal/storage/store.go:88-115 | fills in missing times of the argument and is the upsert request |
| StorageObject.Storage.DeleteAccount | internal/storage/store.go:139-144 | is the delete request |
| StorageObject.Storage.UpsertTokenRef | internal/storage/store.go:174-199 | fills in the missing time and is the upsert request |
| StorageObject.Storage.DeleteTokenRef | internal/storage/store.go:221-229 | is the delete request, with its check of the id |
| StorageObject.Storage.UpsertSyncState | internal/storage/store.go:232-254 | fills in the missing time and is the upsert request |
| StorageObject.Storage.UpsertFile | internal/storage/store.go:278-314 | fills in missing times and is the upsert request |
| StorageObject.Storage.DeleteFile | internal/storage/store.go:355-360 | is the delete request |
| StorageObject.Storage.UpsertFolder | internal/storage/store.go:395-429 | fills in missing times and is the upsert request |
| StorageObject.Storage.UpsertSharedDrive | internal/storage/store.go:464-489 | fills in missing times and is the upsert request |
| StorageObject.Storage.AddPendingOp | internal/storage/store.go:518-549 | fills in missing times and state and is the insert request, which fails on an existing id |
| StorageObject.Storage.UpdatePendingOp | internal/storage/store.go:591-598 | is the update request |
| StorageObject.Storage.DeletePendingOp | internal/storage/store.go:601-606 | is the delete request |
| StorageObject.Storage.GetTokenRef | internal/storage/store.go:202-218 | returns the decoded row, or nothing |
| StorageObject.Storage.GetFileByPath | internal/storage/store.go:317-333 | returns the one file at the path, nothing, or an error for a NULL column |
| StorageObject.Storage.GetFileByDriveID | internal/storage/store.go:336-352 | returns some file with the Drive id if there is one |
| StorageObject.Storage.ListAccounts | internal/storage/store.go:147-171 | all accounts by creation time |
| StorageObject.Storage.ListFilesByPrefix | internal/storage/store.go:363-392 | the first rows by path, up to the limit (500 if not positive), or an error for a NULL column |
| StorageObject.Storage.ListFoldersByPrefix | internal/storage/store.go:432-461 | the first rows by path, up to the limit |
| StorageObject.Storage.ListPendingOps | internal/storage/store.go:552-588 | the first rows by creation time, optionally of one state, up to the limit |
| GoTime.EncodeDecode | internal/storage/store.go:608-620 | storing a time loses its sub-second part, and the whole second at the Unix epoch; it loses nothing exactly for whole seconds other than that one |
| GoTime.DecodeEncode | internal/storage/store.go:608-620 | reading and storing again is the identity on all column values except that of the zero time |
| GoTime.ColumnMeaning | internal/storage/store.go:608-620 | a column counts whole seconds since 1970, and 0 stands for the zero time |
| Like.EscapedIsLiteral | internal/storage/store.go:633-640 | an escaped string in front of any pattern matches exactly its own folded characters |
| Like.PrefixSearch | internal/storage/store.go:367-371 | the search pattern matches exactly the strings that begin with the prefix, character by character, up to the case of ASCII letters |
| Like.FoldExact | internal/storage/store.go:371 | two characters match exactly if they are equal or one ASCII letter in its two cases |
| Like.EscapingNeeded | internal/storage/store.go:633-640 | cases in which an unescaped prefix would match more |
| Like.PrefixSearchExact | internal/storage/store.go:362-374 | every path with the prefix is found, and no other exactly if the prefix has no ASCII letter |
| Like.UnescapeEscape | internal/storage/store.go:633-640 | unescaping undoes escaping |
| Like.EscapeInjective | internal/storage/store.go:633-640 | different strings have different escaped forms |
| Migrations.Migrator.Up | internal/storage/migrations/00002_sync_state.sql:2-65 | from version 1 files, version 2 tables with the default account and the files assigned to it |
| Migrations.Migrator.Down | internal/storage/migrations/00002_sync_state.sql:75-99 | succeeds exactly if file paths are unique across accounts, and otherwise changes nothing |
| Migrations.UpgradedConsistent | internal/storage/migrations/00002_sync_state.sql:2-65 | the upgraded tables satisfy every constraint |
| Migrations.UpgradedRows | internal/storage/migrations/00002_sync_state.sql:2-65 | the default account is the only one and is primary, every file keeps its columns and belongs to it, and the other tables are empty |
| Migrations.DownUndoesUp | internal/storage/migrations/00002_sync_state.sql:85-99 | down after up restores any version 1 table |
| Migrations.DownSucceeds | internal/storage/migrations/00002_sync_state.sql:95-99 | when down succeeds, and that it keeps every file row but for its account |
| Migrations.UpAfterDown | internal/storage/migrations/00002_sync_state.sql:14-15 | up after down assigns all files to the default account |
| Migrations.DownCanFail | internal/storage/migrations/00002_sync_state.sql:99 | consistent tables that cannot go down |
| Auth.CallSafe | internal/auth/auth.go:68-227 | whatever fails, every call keeps the tables consistent, at most one account primary, and a signed-in state naming an existing account |
| Auth.CallCovers | internal/auth/auth.go:115-121 | every token reference keeps its secret exactly unless a store write fails right after the keyring refused or deleted it |
| Auth.SecretCanBeLost | internal/auth/auth.go:176-179 | a case in which a sign-out leaves a reference without its secret |
| Auth.SecretCanBeRefused | internal/auth/auth.go:118-121 | a case in which a sign-in does |
| Auth.RunSafe | internal/auth/auth.go:68-227 | both, over any sequence of sign-ins, sign-outs, refreshes and restarts |
| Auth.SignInOutcome | internal/auth/auth.go:68-128 | a successful sign-in leaves account, reference and secret behind; a failed one touches neither keyring nor in-memory state |
| Auth.SignInResult | internal/auth/auth.go:68-128 | when a sign-in succeeds, and which error it reports otherwise, for every combination of inputs and faults |
| Auth.SignInAccounts | internal/auth/auth.go:91-101 | if the account can be written it is stored with the email and name of the flow, even if a later step fails; no other account changes |
| Auth.SignInTables | internal/auth/auth.go:103-121 | in each case what becomes of the token reference; no table but the two changes |
| Auth.SignInState | internal/auth/auth.go:123-127 | the in-memory account is the one the flow returned |
| Auth.SignInPrimary | internal/auth/auth.go:91-101 | the account is primary afterwards exactly if there was no account before |
| Auth.PrimaryCanBeLost | internal/auth/auth.go:91-101 | a case in which a primary account signs in again and is primary no more |
| Auth.SignInReference | internal/auth/auth.go:107-117 | the stored reference names the account's key and carries the canonical scopes |
| Auth.SignOutOutcome | internal/auth/auth.go:172-184 | only the account's own secret goes, unless the keyring refuses; then the account and its dependents go and the state is cleared, whoever was signed in, unless the store fails |
| Auth.RefreshChanges | internal/auth/auth.go:163-167 | what a refresh reports in each case; it touches neither keyring nor in-memory state, and changes at most the expiry and update time of one reference, which it keeps if the store refuses them |
| Auth.RestartAgreement | internal/auth/auth.go:194-227 | a restarted service is signed in exactly if a token reference exists, as a primary holder if there is one, else as an earliest created holder |
| Auth.RestartAfterSignOut | internal/auth/auth.go:180-202 | after a sign-out the in-memory state is what a restart finds exactly if no other account has a token reference |
| Auth.RestartDisagrees | internal/auth/auth.go:180-202 | a case in which signing out an unknown account clears a state that a restart brings back |
| Auth.FreshDatabase | internal/storage/migrations/00002_sync_state.sql:11-12 | a new database is safe, and in any run on it, until the account created by the migration is deleted, no other account is primary |
| Auth.CallDefault | internal/auth/auth.go:91-101 | one call keeps it so exactly unless it is a sign-out that deletes that account |
| AuthService.Service.constructor | internal/auth/auth.go:39-58 | a new service holds what the store's listing bootstraps |
| AuthService.Service.FindActiveAccount | internal/auth/auth.go:204-227 | the loops find the first primary candidate, else the first candidate |
| AuthService.Service.IsFirstAccount | internal/auth/auth.go:186-192 | true exactly if the listing works and there is no account |
| AuthService.Service.SignIn | internal/auth/auth.go:68-128 | the method is the sign-in call, step by step |
| AuthService.Service.SignOut | internal/auth/auth.go:172-184 | the method is the sign-out call |
| AuthService.Service.Refresh | internal/auth/auth.go:131-169 | the method is the refresh call |
| Scopes.ScopeString | internal/auth/auth.go:229-250 | the loops compute the canonical string |
| Scopes.CanonicalDecodes | internal/auth/auth.go:229-250 | splitting the string on spaces gives the scopes in strictly increasing order, and encoding those again changes nothing |
| Scopes.DecodesExactly | internal/auth/auth.go:229-250 | splitting the string gives back the set of the scopes if and only if no scope has a space inside |
| Scopes.CanonicalIff | internal/auth/auth.go:229-250 | for space-free scopes two lists give the same string exactly if they contain the same non-empty scopes |
| Scopes.CanonicalOfSet | internal/auth/auth.go:229-250 | for any scopes, the same set gives the same string |
| Scopes.SpacesCollide | internal/auth/auth.go:249 | with spaces inside scopes, different sets can give the same string |
| Config.SplitList | internal/config/config.go:268-280 | the scan returns the comma-separated pieces |
| Config.SplitListMeaning | internal/config/config.go:268-280 | the pieces are non-empty and comma-free, their join is the value without superfluous commas, only commas are lost, and splitting the join again gives the same pieces |
| Config.SplitListOfJoin | internal/config/config.go:268-280 | splitting undoes joining of non-empty comma-free words |
| Config.Settings.constructor | internal/config/config.go:80-82 | the default sizes and ignore patterns |
| Config.Settings.ApplyConfigFile | internal/config/config.go:176-184 | only non-empty and positive values override, so sizes stay positive |
| Config.Settings.ApplyEnv | internal/config/config.go:244-256 | likewise for the environment |
| Text.SplitUnique | internal/config/config.go:268-280 | the pieces are the only non-empty separator-free words whose join is the input without superfluous separators |
| Text.LessExact | internal/auth/auth.go:247-248 | in the order used for sorting a proper prefix comes first, and otherwise the first difference decides |
| Query.Select | internal/storage/store.go:372-373 | an ordered, limited query has an answer |
| Query.OneAnswer | internal/storage/store.go:372-373 | it has only one when no two rows compare equal |

## Left out

- The OAuth flow, browser launch, callback server, hashing and token decoding: their result is an input of sign-in.
- The gRPC server and client, proto conversion, command line, terminal interface, logging and wiring: plumbing without state of its own.
- SQLite, goose, fsnotify and the keyring: only their documented effect, with faults as inputs; a database error is taken to leave the tables unchanged. Paths with embedded NUL characters, at which SQLite's LIKE stops, are not modelled.
- PRAGMA foreign_keys holds for the connection that set it; a reconnect of the pool is not modelled.
- GetAccount, GetSyncState and ListSharedDrives: one-row or unfiltered reads like those modelled; what they decode is in the UpsertThenGet lemmas.
- Shutdown beyond the engine's last update: queued events are not drained, so there is no completion property.
- Sign-in and sign-out running at the same time: isFirstAccount and the upsert are not one transaction; calls come one after another. Each call reads the clock once.
- The in-memory sign-in state against the state after a restart, for calls other than sign-out: a sign-in names the account that just signed in, a restart the one `Auth.RestartAgreement` describes.
- Configuration fields other than the two sizes and the ignore patterns: each is a single override.
- The 64-bit width of seconds and sizes: both conversions of times wrap alike, so the round trips are not affected.
- filepath.Join's cleaning of the walk root, and Windows paths: the model joins with a slash.
- The latency bound assumes that the ticker keeps its period, which Go does not promise for a slow receiver.
- Migrations.Migrator.Up: the first migration itself (internal/storage/migrations/00001_init.sql) appears only as the version 1 table and its unique path index.
