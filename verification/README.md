# Minty board, list and task client — a Dafny model

This project models the decision logic of a local-first board/list/task client and proves
properties of it. Every backend answer, storage read and browser event is an explicit
parameter, so each hook or store action is a pure state transition. The parts modelled:

- the synchronisation hook (`useSync`): its creation defaults, optimistic writes with a version
  bump, `updateBoard`, the cascading `deleteBoard`, realtime board events, conflict notices and
  the loading/syncing/offline/last-sync flags (module `SyncEngine`);
- the version-conditioned task write with its last-writer-wins merge (`updateTask` in
  `db.ts`, module `TaskWrite`);
- the bucketed task store (`useStore`): `load`, `addTask`, `saveTask` and `removeTask`
  (module `Store`);
- the identity state machines: guest minting, profile load/create/upgrade and sign-out
  (`useAuth`, module `Auth`), and the session hook with its migration trigger (`useSession`,
  module `SessionHook`);
- the two keyboard shortcut dispatchers:
  - the context-scoped manager of `useKeyboardShortcuts` (module `Shortcuts`);
  - the combo-string registry of `shortcutManager.js` (module `Combos`);
- the sync indicator (`SyncStatus`, module `SyncStatus`) and the avatar (`Avatar`, module
  `Avatars`).

Shared pieces:

- `Common` holds option/result types and sequence helpers.
- `Text` holds ASCII case mapping, `split`/`join`, `trim` and decimal numerals.
- `Records` holds rows. A row is a map from field name to value, so the spread `{...a, ...b}`
  is a right-biased map union.

## Model

| member | source | states |
|---|---|---|
| Common.Filter | src/hooks/useSync.ts:228-230 | `filter` keeps exactly the passing elements, as often as they occur and in their original order. |
| Common.SelectsIsFilter | src/hooks/useSync.ts:228-230 | Any sequence that keeps exactly the passing elements, in order and with their counts, is the filter: the contract above pins the result down. |
| Text.Upper | src/shortcutManager.js:29 | `toUpperCase` maps a lower-case ASCII letter to a capital and leaves other characters alone; it never changes the lower-case reading. |
| Records.Overlay | src/hooks/useSync.ts:213 | The spread `{...base, ...top}` has the keys of both; every field of `top` wins, and `base` supplies the rest. |
| Records.OverlayIdempotent | src/services/db.ts:83 | Spreading the same fields a second time changes nothing. |
| Text.Split | src/shortcutManager.js:22 | `split` yields at least one part, and no part contains the separator. |
| Text.JoinSplit | src/shortcutManager.js:22 | Joining the parts of a split with the same separator gives back the string. |
| Text.SplitJoin | src/shortcutManager.js:30 | Splitting a join of separator-free parts gives back the parts. |
| Text.TrimInfix | src/shortcutManager.js:22 | `trim` returns a substring of its input with no whitespace at either end, and everything cut off before and after it is whitespace. |
| Text.TrimTrimmed | src/shortcutManager.js:22 | `trim` leaves a string with no whitespace at its ends unchanged. |
| Text.NatToStringRoundTrip | src/components/SyncStatus.tsx:39 | The decimal text of a count parses back to that count. |
| Text.NatToStringInjective | src/components/SyncStatus.tsx:39 | Different counts print differently. |
| SyncEngine.InitialState | src/hooks/useSync.ts:31-39 | The hook starts loading, not syncing, with no last sync, and offline exactly when the browser is offline. |
| SyncEngine.WithRows | src/hooks/useSync.ts:150-153 | Writing `[table]` replaces that table and leaves the other tables and every flag alone. |
| SyncEngine.NewRow | src/hooks/useSync.ts:195-202 | A new board or list has the caller's fields plus the id, the owner, both timestamps and version 1. |
| SyncEngine.NewTask | src/hooks/useSync.ts:267-279 | A new task is a new row with the task defaults; a caller's field always wins over a default, and a default fills every field the caller left out. |
| SyncEngine.NewTaskDefaults | src/hooks/useSync.ts:273-277 | Unless overridden, a task starts incomplete, with medium priority, no labels, and a null description and due date. |
| SyncEngine.Bumped | src/hooks/useSync.ts:163 | The outgoing row is the item with its version one higher and a fresh `updated_at`; every other field is as before. |
| SyncEngine.Settle | src/hooks/useSync.ts:171-187 | On success, every row with the stored row's id becomes the stored row and the length is kept. On failure, every row with the item's id is removed and the others stay, in their original order and with their counts. |
| SyncEngine.OptimisticUpdate | src/hooks/useSync.ts:147-188 | With no user nothing happens. A guest gets the reducer applied and sends nothing. A signed-in user sends the bumped item and then settles the reduced table. Other tables never change. |
| SyncEngine.Create | src/hooks/useSync.ts:160-187 | A signed-in create sends the row one version above the row built, and the table is the row appended and then settled with the answer: replaced by the stored row when saved, rows sharing its id dropped when rejected. Other tables are untouched. |
| SyncEngine.CreateSavedAppends | src/hooks/useSync.ts:174-177 | An accepted create under a fresh id ends with the stored row appended to the table. |
| SyncEngine.CreateRejectedRestores | src/hooks/useSync.ts:183-187 | A rejected create under a fresh id leaves the whole state as it was before the create. |
| SyncEngine.CreateBoard | src/hooks/useSync.ts:192-205 | Without a user nothing happens. A guest's new board row is appended and nothing is sent. A signed-in user sends that row bumped once, and the boards are the old boards plus that row, settled with the answer. Lists and tasks never change. |
| SyncEngine.CreateBoardSettles | src/hooks/useSync.ts:174-187 | A signed-in board create under a fresh id ends with the old state when rejected, and with the stored row appended to the boards when saved. |
| SyncEngine.CreateList | src/hooks/useSync.ts:249-262 | The same for a list: appended for a guest; for a signed-in user sent bumped, appended and settled with the answer. Boards and tasks never change. |
| SyncEngine.CreateTask | src/hooks/useSync.ts:264-282 | The same for a task, whose row also carries the task defaults: appended for a guest; for a signed-in user sent bumped, appended and settled with the answer. Boards and lists never change. |
| SyncEngine.CreateBoardVersions | src/hooks/useSync.ts:195-204 | A signed-in board create sends version 2 under the new id; a guest's board is appended under that id. |
| SyncEngine.EditedBoard | src/hooks/useSync.ts:213 | An edited board takes every update, keeps every other field, and gets a fresh `updated_at`. |
| SyncEngine.FindBoard | src/hooks/useSync.ts:210 | The board found is the first board with the id; none is found exactly when no board has the id. |
| SyncEngine.ReplaceBoard | src/hooks/useSync.ts:214-216 | Exactly the boards with the id are replaced by the edited board; positions and length are kept. |
| SyncEngine.UpdateBoard | src/hooks/useSync.ts:207-217 | With an unknown id or no user nothing changes and nothing is sent. Otherwise the first board with the id, overlaid with the updates, replaces every board with that id. A guest stops there. A signed-in user sends that board bumped, and the boards are then settled with the answer. Lists, tasks and every flag are kept. |
| SyncEngine.UpdateBoardSendsNextVersion | src/hooks/useSync.ts:213-214 | An edit that does not touch the version sends the found board's version plus one. |
| SyncEngine.UpdateRejectedDropsBoard | src/hooks/useSync.ts:183-187 | A rejected signed-in edit that does not change the id leaves no board with that id in memory: the failure path filters the board out instead of restoring it. |
| SyncEngine.DeleteBoard | src/hooks/useSync.ts:219-246 | The board, the lists of that board and the tasks of those lists leave memory; every other board, list and task stays, in its original order. The flags are kept. A signed-in user issues three remote deletes: the tasks whose list id is one of the board's list ids, in list order, then the board's lists, then the board. A guest issues none. |
| SyncEngine.RemoteDeleteMatchesLocal | src/hooks/useSync.ts:224-236 | A task leaves memory exactly when its list id is among the list ids the remote task delete targets. |
| SyncEngine.LinkedAfterFilter | src/hooks/useSync.ts:226-231 | Filtering children, and removing only parents that no surviving child links to, keeps every child linked. |
| SyncEngine.DeleteBoardKeepsIntact | src/hooks/useSync.ts:222-231 | If every list names a live board and every task a live list, the same holds after the cascade delete. |
| SyncEngine.ApplyChange | src/hooks/useSync.ts:299-316 | An insert appends without de-duplication. An update replaces the rows with the new id and keeps the length. A delete removes exactly the rows with the old id and keeps the rest in order. |
| SyncEngine.IngestBoardChange | src/hooks/useSync.ts:285-321 | Only a signed-in user has a boards channel; its events touch only the boards. |
| SyncEngine.InsertThenDelete | src/hooks/useSync.ts:299-316 | Deleting a row just inserted under a fresh id restores the table. |
| SyncEngine.ReplayIsHarmless | src/hooks/useSync.ts:304-316 | Applying the same update or delete event twice is the same as applying it once. |
| SyncEngine.NoticeIdsDiffer | src/hooks/useSync.ts:126 | Notices for the same item raised at different instants have different ids. |
| SyncEngine.HandleConflict | src/hooks/useSync.ts:124-133 | Exactly one notice is appended, with the kind, item and instant, and the earlier notices are kept. |
| SyncEngine.DismissConflict | src/hooks/useSync.ts:361-363 | Exactly the notices with that id are removed, and every other notice is kept in its original order. |
| SyncEngine.HandleThenExpire | src/hooks/useSync.ts:133-138 | When a notice expires right after it was raised, the list is as it was before. |
| SyncEngine.LoadFromCache | src/hooks/useSync.ts:47-65 | Only a readable cache for a signed-in or guest user changes state. Its missing tables read as empty and loading ends; the other flags are kept. |
| SyncEngine.SyncFromServer | src/hooks/useSync.ts:85-121 | A guest or missing user only reads the cache. Otherwise loading and syncing end. Success installs the fetched tables and stamps the last sync. Failure keeps the last sync and falls back to the cache. |
| SyncEngine.GuestWithoutCacheKeepsLoading | src/hooks/useSync.ts:86-88 | A guest with no cache yet fetches nothing, and nothing clears its loading flag. |
| SyncEngine.GoOnline | src/hooks/useSync.ts:335-338 | The online event clears the offline flag and fetches exactly when a user is signed in. |
| SyncEngine.GoOffline | src/hooks/useSync.ts:340-342 | The offline event sets the flag and changes nothing else. |
| TaskWrite.WithoutId | src/services/db.ts:70 | The values sent are every field of the task except its id. |
| TaskWrite.Merge | src/services/db.ts:82-84 | The merged record has every local field except the version. The remote supplies only the fields the local record lacks. The version is the remote version plus one. |
| TaskWrite.UpdateTask | src/services/db.ts:69-95 | The first write is conditioned on the id and the unchanged version. Success returns the row unmerged. A non-conflict error is rethrown. A conflict issues one unconditional merged write, and its result or error is what the call returns. |
| TaskWrite.FirstWriteKeepsVersion | src/services/db.ts:71-77 | The first write sends the task's own version and guards on that same version. |
| TaskWrite.MergeAdvancesVersion | src/services/db.ts:84 | The merged version is above the stored one. |
| TaskWrite.MergeWithoutRemote | src/services/db.ts:84 | When the re-read finds nothing, the merge has the local fields and version 1. |
| TaskWrite.MergeTwice | src/services/db.ts:83 | Merging the same local fields onto a merge result changes no field except the version. |
| TaskWrite.MergeExample | src/services/db.ts:81-92 | A stale local title at version 3 against a stored row at version 4 sends the local title, the stored description and version 5. |
| TaskWrite.DetailsMentioningVersionMerge | src/services/db.ts:81 | An error whose details mention the version takes the merge path, whatever its code. |
| Store.PutGet | src/store/useStore.ts:44 | After writing a key, that key reads as the rows written and every other key reads as before. |
| Store.PutKeys | src/store/useStore.ts:57 | Writing keeps the key order: an existing key stays in place and a new key goes last. This is the order of keys that are not array indices. |
| Store.PutPut | src/store/useStore.ts:44 | Writing a key twice keeps only the second write. |
| Store.LoadTasks | src/store/useStore.ts:27-29 | The inner loop succeeds exactly when every list's task fetch succeeds. It then has one faithful bucket per list id, added after the existing buckets. |
| Store.LoadBoard | src/store/useStore.ts:25-28 | One board's pass succeeds exactly when its list fetch and every task fetch of its lists succeed. It then extends the buckets to cover that board. |
| Store.LoadAll | src/store/useStore.ts:24-29 | The loop over the boards succeeds exactly when every fetch it makes succeeds. It then holds one faithful list bucket per board id and one task bucket per list id, each belonging to a loaded list. |
| Store.Load | src/store/useStore.ts:21-33 | The boards are stored as served, with one list bucket per board id and one task bucket per list id of every board. Each bucket holds what its fetch returned, and every task bucket belongs to a loaded list. The `conflict` flag is left as it was. A failed fetch propagates. |
| Store.BoardOfList | src/store/useStore.ts:38 | The board id is that of the first board whose lists contain the list. It is the empty string when no board does, or when that board's id is missing or null. |
| Store.NewTaskFields | src/store/useStore.ts:35-42 | The inserted task has the id, the list, the board id found for the list, the title and an empty description. Its position is the list's current task count plus one. |
| Store.AddTask | src/store/useStore.ts:34-45 | The insert carries that position and the board id found for the list. The created row is appended to its list's bucket, a missing bucket counting as empty. All other buckets and fields are unchanged, and an insert error propagates. |
| Store.AddTwicePositions | src/store/useStore.ts:41 | Two tasks added to one list in a row get consecutive positions. |
| Store.SaveTask | src/store/useStore.ts:46-55 | The task write is made. Within the task's own list bucket every row with its id becomes the stored row and the length is kept. Other buckets are untouched, and `conflict` is overwritten with the merge flag. |
| Store.SaveTaskConflict | src/store/useStore.ts:49 | After a save, `conflict` is set exactly when the first write hit a version conflict and the merged write succeeded, so a clean save clears it. |
| Store.FirstHolder | src/store/useStore.ts:57-58 | The bucket found is the first in insertion order holding a task with the id; none is found exactly when no bucket holds one. |
| Store.RemoveTask | src/store/useStore.ts:56-66 | An unknown id causes no delete and no change. Otherwise the id is deleted remotely, and only the first holding bucket loses its tasks with that id. A delete error propagates. |
| Store.AddThenRemove | src/store/useStore.ts:56-66 | Removing a task just added under a fresh id to an existing list gives the store back. |
| Auth.OrNull | src/hooks/useAuth.ts:86-88 | `x \|\| null` keeps a non-empty string and turns an empty or missing one into null. |
| Auth.InitializeGuestSession | src/hooks/useAuth.ts:33-59 | When storage takes both writes, the hook holds a guest with the fresh id, guest flag and null email, name, avatar and upgrade time. Both keys hold it, and loading ends. When storage throws, only loading ends in the state. If the first write went through, the guest profile stays stored without a guest id. |
| Auth.HalfWrittenGuestIsStranded | src/hooks/useAuth.ts:46-47 | When the profile is stored but the guest id is not, the next start reuses that guest. A later sign-in without a profile then transfers nothing. |
| Auth.LoadUserProfile | src/hooks/useAuth.ts:62-79 | The profile row is returned. "No rows" (`PGRST116`) is not an error, and any other error yields null. |
| Auth.ProfileFor | src/hooks/useAuth.ts:84-91 | A created profile is a non-guest with the user's id. Its email and avatar URL are the provider's when non-empty, else null. Its full name is the provider's full name, else its name, else null. |
| Auth.CreateUserProfile | src/hooks/useAuth.ts:82-104 | One upsert of that profile is issued; the profile is returned exactly when the upsert succeeds. |
| Auth.UpgradeGuestToUser | src/hooks/useAuth.ts:107-140 | Without a stored guest id nothing happens. Otherwise it transfers, clears both guest keys and creates the profile. It marks the upgrade only when a profile came back. |
| Auth.UpgradeTransfersOnce | src/hooks/useAuth.ts:109-124 | An upgrade transfers once exactly when a guest id is stored, and the id is gone afterwards. |
| Auth.ResolveSignedIn | src/hooks/useAuth.ts:199-219 | An existing profile is used. Failing that, the app upgrades when a guest id is stored and creates a profile otherwise. The state always ends signed in, not a guest and not loading. |
| Auth.ResolveTransfersOnce | src/hooks/useAuth.ts:201-210 | Resolving a session transfers at most once, only with a stored guest id, and removes that id. |
| Auth.InitializeAuth | src/hooks/useAuth.ts:195-246 | A session resolves as signed in. Without one, a stored guest profile is reused as a guest and an unparsable one only ends loading. With nothing stored a guest is minted. Once unmounted, a resolved or reused state is not applied, but minting still is, as in the source. |
| Auth.GuestReusedOnNextStart | src/hooks/useAuth.ts:221-238 | The guest minted on one start is the guest found, with no remote call, on the next start without a session. |
| Auth.OnAuthStateChange | src/hooks/useAuth.ts:251-277 | Once unmounted, events are ignored. `SIGNED_IN` with a session resolves the session, `SIGNED_OUT` mints a guest, and anything else does nothing. |
| Auth.AtMostOneTransfer | src/hooks/useAuth.ts:255-265 | Two `SIGNED_IN` events in a row transfer guest data at most once between them. |
| Auth.SignOut | src/hooks/useAuth.ts:179-189 | Only a successful remote sign-out mints a new guest; an error leaves everything unchanged. |
| Auth.SignOutThenEvent | src/hooks/useAuth.ts:274-276 | After a sign-out, the `SIGNED_OUT` event mints a second guest. The sign-out itself leaves the old user and session in the state. |
| SessionHook.Initialize | src/hooks/useSession.ts:17-27 | An existing session is adopted and its user remembered. Otherwise the anonymous session is adopted and the anonymous user remembered, or null. An answer after unmount is ignored. |
| SessionHook.OnAuthEvent | src/hooks/useSession.ts:29-42 | The new session is set. Migration runs exactly when a previous user is remembered, the new session has a different, non-anonymous user; it is called as (new, old). The previous user becomes the new id or null whether or not the migration fails. The migration condition is SessionHook.ShouldMigrate. |
| SessionHook.Unmount | src/hooks/useSession.ts:43-46 | Cleanup marks the hook unmounted and keeps its session and previous user. |
| SessionHook.NoRepeatedMigration | src/hooks/useSession.ts:33-41 | The same session announced twice migrates at most once. |
| SessionHook.AnonymousToRealMigrates | src/hooks/useSession.ts:23-35 | Moving from an anonymous session to a different real account migrates exactly the anonymous user's data to that account. |
| SessionHook.UnmountedIgnoresAll | src/hooks/useSession.ts:17-30 | After unmount, neither the initial answer nor any event changes the hook or migrates. |
| Shortcuts.Register | src/hooks/useKeyboardShortcuts.ts:28-30 | A known id has its entry replaced in its slot; a new id is appended. |
| Shortcuts.RegisterKeepsUnique | src/hooks/useKeyboardShortcuts.ts:28-30 | Registration never creates a second entry for an id. |
| Shortcuts.Unregister | src/hooks/useKeyboardShortcuts.ts:32-34 | Exactly the entry with that id is removed, and the other entries keep their order, which decides which entry dispatch finds first. |
| Shortcuts.RegisterThenUnregister | src/hooks/useKeyboardShortcuts.ts:28-34 | Unregistering a freshly registered id gives the manager back. |
| Shortcuts.SetContext | src/hooks/useKeyboardShortcuts.ts:36-38 | Only the active context changes. |
| Shortcuts.SetEnabled | src/hooks/useKeyboardShortcuts.ts:40-42 | Only the enabled flag changes. |
| Shortcuts.Matches | src/hooks/useKeyboardShortcuts.ts:64-89 | An event matches exactly when the key matches, with `space` standing for the space character. Ctrl and meta must equal the config's (swapped on a Mac), and shift and alt must equal it too. |
| Shortcuts.MacSwapsCtrlAndMeta | src/hooks/useKeyboardShortcuts.ts:73-74 | A Mac event matches exactly when the same event with ctrl and meta exchanged matches elsewhere. |
| Shortcuts.HandleKeyDown | src/hooks/useKeyboardShortcuts.ts:91-118 | While disabled nothing runs. Otherwise the first eligible entry runs: the active context, a match, and not a suppressed key in a text field. Nothing runs only when no entry is eligible, and the default is prevented unless the entry opts out. |
| Shortcuts.NormalKey | src/hooks/useKeyboardShortcuts.ts:53-58 | The key is lower-cased. A space becomes `space` and the four arrow keys become `up`, `down`, `left` and `right`. Any other key is only lower-cased. |
| Shortcuts.ModifierNamesShowFlags | src/hooks/useKeyboardShortcuts.ts:47-50 | Each modifier flag has its own name in the key string. |
| Shortcuts.KeyStringParts | src/hooks/useKeyboardShortcuts.ts:44-62 | Splitting a key string at `+` gives back the modifier names and the key name. This is the inverse of `createKeyString` (Shortcuts.CreateKeyString). |
| Shortcuts.KeyStringInjective | src/hooks/useKeyboardShortcuts.ts:44-62 | Events with the same key string held the same modifiers and the same key name. |
| Shortcuts.DisplayModifiersShowFlags | src/hooks/useKeyboardShortcuts.ts:127-130 | Off the Mac each modifier flag has its own display name. |
| Shortcuts.MacHidesMeta | src/hooks/useKeyboardShortcuts.ts:130 | On a Mac, configs differing only in meta display alike. |
| Shortcuts.DisplaySplitsBack | src/hooks/useKeyboardShortcuts.ts:124-142 | Off the Mac, the display of a `+`-free key other than delete splits back into its modifier names and the upper-cased key. This is the inverse of `getShortcutDisplay` (Shortcuts.GetShortcutDisplay). |
| Shortcuts.DisplayShowsModifiers | src/hooks/useKeyboardShortcuts.ts:124-142 | Off the Mac, two configs for the same such key that display alike have the same modifiers. |
| Combos.Clean | src/shortcutManager.js:22 | Each piece is trimmed and lower-cased, position by position. |
| Combos.CleanPiece | src/shortcutManager.js:22 | A cleaned piece is its own lower case, `+`-free when the piece was, and has no whitespace at its ends. |
| Combos.NormalizeCombo | src/shortcutManager.js:20-31 | The only failure is a missing key, and it names the combo. It fails exactly when the piece after the last `+`, trimmed, is empty. |
| Combos.MissingKeyExactly | src/shortcutManager.js:20-31 | Normalisation fails exactly when the piece after the last `+` is all spaces (or empty). |
| Combos.MissingKeyThrows | src/shortcutManager.js:29 | The empty combo and a combo ending in `+` both throw. |
| Combos.NormalizeComboShape | src/shortcutManager.js:20-31 | A normal form is the modifiers found, in the order Ctrl, Meta, Alt, Shift, followed by the capitalised last piece. That piece is a lower-case word without `+`. |
| Combos.NormalizeJoined | src/shortcutManager.js:20-31 | Modifier words in any spelling of case and padding, followed by a key, normalise to the canonical words and the capitalised key. |
| Combos.NormalizeComboIdempotent | src/shortcutManager.js:20-31 | A normal form normalises to itself. |
| Combos.ModifierOrderIrrelevant | src/shortcutManager.js:24-28 | Rearranging the modifier parts changes neither success nor the normal form. |
| Combos.NormalizeLowerWords | src/shortcutManager.js:25-29 | Lower-case modifier words and a key normalise to the capitalised words in canonical order and the capitalised key. |
| Combos.NormalizeModifierWords | src/shortcutManager.js:25-29 | Capitalised modifier words normalise the same way. |
| Combos.NormalizeComboExamples | src/shortcutManager.test.js:13-16 | `ctrl+n` becomes `Ctrl+N` and `meta+shift+f` becomes `Meta+Shift+F`. |
| Combos.NormalizeEventExamples | src/shortcutManager.test.js:18-21 | Ctrl with `n` gives `Ctrl+N`; Meta with `ArrowUp` gives `Meta+ArrowUp`. |
| Combos.ComboTextAgrees | src/shortcutManager.js:9-31 | The combo written for any event normalises to the event's corrected normal form. |
| Combos.AsWrittenAgreesExactly | src/shortcutManager.js:9-31 | As written, the event form agrees with the combo form exactly for keys of at most one character and keys already spelled in that form. This pins down `normalizeEvent` (Combos.NormalizeEvent) against `normalizeCombo`. |
| Combos.Register | src/shortcutManager.js:44-51 | Registration fails exactly when some combo fails to normalise, with that error. On success it stores the normalised combos and hands out a new handler identity. |
| Combos.AddAllLookup | src/shortcutManager.js:48-51 | Each listed combo gains the handler once; other combos are unchanged. |
| Combos.RemoveAllLookup | src/shortcutManager.js:53-59 | Each listed combo loses the handler, and is dropped when its set empties; other combos are unchanged. |
| Combos.RegisterAddsHandler | src/shortcutManager.js:48-51 | After registering, each normalised combo holds the new handler and no other combo changes. |
| Combos.RegisterKeepsWf | src/shortcutManager.js:48-51 | Every handler set stays non-empty and holds only identities already handed out. |
| Combos.OffUndoesRegister | src/shortcutManager.js:52-60 | Calling the remover right after registering restores the combo map exactly. The remover is `off` (Combos.Off). |
| Combos.HandleWith | src/shortcutManager.js:63-71 | Every handler of the combo's set runs, not just the first. They run in insertion order. Outside a typing target all of them run; in one, only those that opted in. A typing target is an input, textarea or select element, or a content-editable one (Combos.IsTypingTarget). |
| Combos.HandleAsWritten | src/shortcutManager.js:63-71 | As written, the handlers run are those registered under `normalizeEvent` of the event that are allowed in the target, in insertion order. |
| Combos.Handle | src/shortcutManager.js:63-71 | With the corrected lookup, the handlers run are those registered under the event's normal form that are allowed in the target, in insertion order. |
| Combos.RegisteredHandlerFires | src/shortcutManager.js:63-71 | With the corrected lookup, a handler registered for the combo written for an event runs on that event, unless it comes from a typing target without opt-in. |
| Combos.OffRestoresDispatch | src/shortcutManager.js:52-71 | After the remover runs, every event dispatches as before registering. |
| Combos.ArrowShortcutNeverFires | src/shortcutManager.js:16-29 | As written, a handler registered for `ArrowUp` is stored under `Arrowup` and never runs on ArrowUp; the corrected lookup runs it. |
| Combos.AsWrittenHandleAgrees | src/shortcutManager.js:9-18 | For a one-character key the as-written `handle` runs exactly what the corrected one runs. |
| Combos.RegisterAndTrigger | src/shortcutManager.test.js:23-31 | Driving `handle` as written, one handler under `Ctrl+X` and `Meta+X` runs once for each chord and not after the remover: two runs in total. |
| SyncStatus.Classify | src/components/SyncStatus.tsx:22-32 | Offline beats syncing, syncing beats guest mode, and only a signed-in, idle, online user is synced. |
| SyncStatus.StatusIcon | src/components/SyncStatus.tsx:22-27 | The icon is the one of the state the shared priority picks. |
| SyncStatus.StatusColor | src/components/SyncStatus.tsx:50-55 | The colour is the one of the state the shared priority picks. |
| SyncStatus.PanelFollowsPriority | src/components/SyncStatus.tsx:22-55 | Icon, text and colour all follow that priority, and only the synced state looks at the clock. The text is `getStatusText` (SyncStatus.StatusText). |
| SyncStatus.AgeOf | src/components/SyncStatus.tsx:34-45 | Under a minute, including a future stamp, is just now. Below an hour shows minutes, below a day hours, else days; the count is the number of whole units elapsed. |
| SyncStatus.HoursOfMinutes | src/components/SyncStatus.tsx:41 | The whole hours of the whole minutes are the whole hours of the difference. |
| SyncStatus.DaysOfHours | src/components/SyncStatus.tsx:44 | The whole days of those hours are the whole days of the difference. |
| SyncStatus.AgeMonotone | src/components/SyncStatus.tsx:34-45 | A later sync never reads as longer ago. |
| SyncStatus.AgeTextRoundTrip | src/components/SyncStatus.tsx:38-45 | The age can be read back from its text. |
| SyncStatus.SyncedTextShowsAge | src/components/SyncStatus.tsx:33-46 | A synced user's text reads back as the whole minutes, hours or days since the last sync. |
| SyncStatus.SyncedTextReadsBack | src/components/SyncStatus.tsx:33-46 | A synced user's text reads back as exactly the age of the time since the last sync. |
| SyncStatus.AgeExamples | src/components/SyncStatus.tsx:36-45 | Ninety minutes is one hour, 59 minutes is 59 minutes, a future stamp is just now, and three days and a millisecond is three days. |
| Avatars.TakeTwo | src/components/Avatar.tsx:25 | At most two characters, a prefix of the input, and exactly two when there are two. |
| Avatars.Initials | src/components/Avatar.tsx:18-26 | A missing or empty name has no initials, and there are never more than two. |
| Avatars.FirstCharsAreWordStarts | src/components/Avatar.tsx:20-23 | The first characters of the space-separated parts are exactly the word starts of the name; empty parts contribute nothing. |
| Avatars.InitialsByScan | src/components/Avatar.tsx:18-26 | The initials are the first two word starts, upper-cased. |
| Avatars.InitialsComeFromWords | src/components/Avatar.tsx:20-25 | Each initial is the capital of a character that opens a word of the name. |
| Avatars.InitialsEmptyOnlyForBlank | src/components/Avatar.tsx:19-25 | A non-empty name has no initials exactly when it is all spaces. |
| Avatars.InitialsExamples | src/components/Avatar.tsx:18-26 | `ada love` gives `AL`, extra words and spaces are ignored, and no name gives none. |
| Avatars.Render | src/components/Avatar.tsx:39-72 | A picture shows when there is a URL, with the name or "User avatar" as its text. Otherwise initials show when there is a name, else a placeholder. The guest badge shows exactly for a guest, in every variant. |
| Avatars.BadgeShowsNameInitials | src/components/Avatar.tsx:54-63 | Without a picture, a name with a non-space character shows a badge of one or two letters, each the capital of a word start of that name. |

## Left out

- Supabase queries, the remote procedure call, auth and realtime channels, `localStorage` and
  `localforage` are not modelled. Their answers are parameters: written rows, error codes, a
  parsed cache or a stored profile.
- React lifecycles, `setTimeout` and DOM event listeners are not modelled as such.
  - Expiry of a conflict notice is the explicit `DismissConflict` step.
  - The online and offline events are `GoOnline` and `GoOffline`.
  - Unmounting is a `mounted` flag.
- Ids, timestamps and the clock (`crypto.randomUUID`, `uuidv4`, `Date`) are parameters. Times
  are integer milliseconds, so an invalid `Date` (NaN) is not modelled.
- The cache writes of `useSync` (`saveToCache`) are not modelled. They serialise a snapshot
  captured before the update, so the model claims nothing about what the cache holds.
- Concurrency is not modelled: interleavings of asynchronous writes, and what a later `await`
  observes of state changed meanwhile.
- `signInWithEmail` and `signInWithOAuth` only delegate to the identity provider.
- The other `db.ts` functions (`getBoards`, `createTask`, `deleteTask` and the rest) are
  one-call wrappers. Their results are the parameters of `Store`.
- Case mapping and `trim` cover ASCII only; Unicode case mapping and Unicode whitespace are not
  modelled.
- `isMac` is a parameter rather than a reading of the platform string.
- `createKeyString` of `useKeyboardShortcuts` is private and never called. It is modelled on
  its own (`Shortcuts.KeyStringParts`) but plays no part in dispatch.
- An event target without a `tagName` is modelled as the empty tag name.
- The avatar's size and styling classes and the indicator's animation are presentation only.
- Only the boards realtime channel exists; the lists and tasks channels are only a comment in
  the hook, so none are modelled.
- NewRow, NewTask, CreateBoard, CreateList, CreateTask: require caller fields without `id`, `user_id`,
  the timestamps or `version`, as the `Omit<...>` parameter types promise. Because the caller's
  fields are spread last (src/hooks/useSync.ts:195-202), a caller passing one of them at run
  time would override the generated value; the model leaves that case out.
- Store.KeysOf, Store.Put, Store.PutKeys, Store.FirstHolder, Store.RemoveTask: the key order of a
  grouping object is insertion order. JavaScript lists integer-like keys (array indices such as
  `"0"` or `"42"`) first, in ascending order. The client creates every id with
  `crypto.randomUUID` (src/hooks/useSync.ts:196, src/store/useStore.ts:36), and a UUID is never
  an array index, so the model leaves integer-like ids out.
- Combos.ModifierOrderIrrelevant: states equal success and equal normal forms rather than
  equal results, because the error of a failed normalisation names the combo text, which
  differs between orderings.
- Avatars.Initials, Avatars.TakeTwo: a name is a sequence of code points here, while JavaScript
  strings are UTF-16 code units. A character outside the Basic Multilingual Plane is one element
  in the model but two code units in the source, so `n[0]` and `slice(0, 2)`
  (src/components/Avatar.tsx:22, 25) can split a surrogate pair there: for `"😀 Bob"` the source
  yields a lone high surrogate followed by `B`. The model states initials for whole characters only.

Behaviour of the code worth noting:

- A guest's first run, with no cache yet, never clears `loading`
  (`SyncEngine.GuestWithoutCacheKeepsLoading`).
- A successful sign-out mints a guest, and the `SIGNED_OUT` event that follows mints a second
  one (`Auth.SignOutThenEvent`).
- Realtime inserts are not de-duplicated (`SyncEngine.ApplyChange`).
- A rejected edit by a signed-in user removes the board from memory instead of restoring the
  previous board; the failure path filters by id although it is commented as a revert
  (`SyncEngine.UpdateRejectedDropsBoard`).

## Findings

| source | as written | input that shows it | evidently intended | confidence | as-written member | corrected member |
|---|---|---|---|---|---|---|
| src/shortcutManager.js:16-29 | `normalizeCombo` lower-cases a multi-character key after its first letter (`Arrowup`), while `normalizeEvent` keeps the event key verbatim (`ArrowUp`), so the lookup in `handle` misses | register `ArrowUp`, then press ArrowUp with no modifier: no handler runs | both sides spell a key the same way, so a handler registered for a named key runs when that key is pressed | not executed | Combos.ArrowShortcutNeverFires | Combos.RegisteredHandlerFires |
