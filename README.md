# Learning-goal download, merge and undo — a Dafny model

This project models the part of linguanodon that copies a learning goal, its
units of meaning and their direct translations from the remote content
service into the local IndexedDB store, and that makes each such download one
undoable step of the application-wide undo/redo history.

- `records.dfy` (module `Records`): the learning goal and unit-of-meaning
  records as the downloader uses them (string `uid`, `name`, `content`,
  optional `translations`), plus small sequence helpers.
- `local_store.dfy` (module `LocalStore`): the two tables `learningGoals` and
  `unitsOfMeaning` as maps from uid to record. The class `Database` holds them
  and offers the Dexie calls the downloader makes (`get`, `bulkGet`, `add`,
  `bulkAdd`, `delete`, `bulkDelete`). `InsertUnits` is `bulkAdd` on values:
  refused as a whole when a uid is already stored or repeats in the batch.
- `download_operation.dfy` (module `Operations`): the download's operation as
  an inspectable value (`newGoal`, `newUnits`). Its `do` and `undo` have
  meaning twice: as functions on table contents (`DoSpec`, `UndoSpec`) and as
  methods (`Do`, `Undo`) that change a `Database` in place. Each method runs
  as one all-or-nothing transaction. The lemmas show that `do` succeeds exactly
  when the operation is applicable, that it adds only its own keys, and that
  `undo` inverts it.
- `history.dfy` (module `History`): the plugin state, a `HistoryManager` class
  with the database and the `undoStack`/`redoStack` sequences and the methods
  `Execute`, `Undo` and `Redo`. Three client methods prove several facts from
  those contracts alone:
  - undo and redo preserve the history's size;
  - undo then redo restores both stacks whenever both succeed, and the tables
    too when the top operation's `do` produced them;
  - a new execute after an undo empties the redo stack, so the next redo
    changes nothing.
- `downloader.dfy` (module `Downloader`):
  - the three fetch phases against a model of the content service;
  - the uid-prefix language rule;
  - translation-uid deduplication;
  - the diff against the store, the "nothing new" outcome and the displayed
    names;
  - the `LearningGoalDownloader` class with `isLoading`, `error`,
    `lastDownloadedNames`, `DownloadLearningGoal` and `Reset`.
- `scenarios.dfy` (module `Scenarios`): the goal `en_goal1` with the mutual
  translations `en_cat`/`fr_chat`, downloaded into an empty store.

External inputs are parameters:
- The content service is a value `Remote`: what it serves for each request
  path (language, uid). A path it does not serve stands for any failed fetch.
- A storage-engine abort for reasons outside this model (quota, closed
  database) is the boolean `engineFails` of each transaction.

The downloader does not merge the fetched units with their translations: it
concatenates `units` and `translations` as they are
(composables/useLearningGoalDownloader.ts:63-66). A unit that is both one of the
goal's units and a translation of another of them is therefore in `newUnits`
twice. For the goal `en_goal1` with `en_cat` and `fr_chat`, translations of
each other, the plan is `[en_cat, fr_chat, fr_chat, en_cat]`. `bulkAdd` then
meets a repeated key, the transaction adds nothing, and the download reports
the failure message (`Scenarios.ScenarioRepeatsUnits`,
`Downloader.PlanDoFailsIffRepeats`). For the same reason, the do/undo inverse
law for a planned download is stated for new units with distinct uids
(`Downloader.PlanDoUndoInverse`). For any operation whose `do` succeeded, it
holds unconditionally (`Operations.DoUndoInverse`).

The database is persistent (`linguanodon-db`): opening it gives whatever
earlier sessions stored, so both constructors take those initial tables as a
parameter. Only the two history stacks start empty.

## Model

| member | source | states |
|---|---|---|
| `Records.Uids` | composables/useLearningGoalDownloader.ts:64 | `allUnits.map(u => u.uid)`: one uid per unit, position by position |
| `LocalStore.Lookup` | composables/useLearningGoalDownloader.ts:67 | `get(key)` finds a record exactly when the key is stored, and then the stored record |
| `LocalStore.BulkGet` | composables/useLearningGoalDownloader.ts:65 | `bulkGet(keys)` answers once per key, in key order, with that key's lookup |
| `LocalStore.InsertGoal` | composables/useLearningGoalDownloader.ts:80 | `add(goal)` is refused exactly when the uid is taken; otherwise only that key is added and every other record is kept |
| `LocalStore.InsertUnitsSucceedsIff` | composables/useLearningGoalDownloader.ts:81 | `bulkAdd(newUnits)` succeeds if and only if the batch's uids are distinct and none is already stored |
| `LocalStore.InsertUnitsContents` | composables/useLearningGoalDownloader.ts:81 | an accepted `bulkAdd` adds exactly the batch's uids, stores each unit under its uid and keeps every stored unit |
| `LocalStore.InsertUnitsKeys` | composables/useLearningGoalDownloader.ts:81 | an accepted `bulkAdd` adds exactly the batch's uids to the keys |
| `LocalStore.InsertUnitsKeeps` | composables/useLearningGoalDownloader.ts:81 | an accepted `bulkAdd` keeps every stored unit as it was |
| `LocalStore.InsertUnitsStores` | composables/useLearningGoalDownloader.ts:81 | an accepted `bulkAdd` stores each unit of the batch under its uid |
| `LocalStore.Database.constructor` | db/dexie.ts:26-35 | opening the database gives the tables it already holds (`initial`), every record under its own uid (primary key `uid`) |
| `LocalStore.Database.Add` | composables/useLearningGoalDownloader.ts:80 | adds the goal when its uid is free, reports refusal otherwise, and leaves the unit table alone |
| `LocalStore.Database.BulkAdd` | composables/useLearningGoalDownloader.ts:81 | the loop gives the outcome of `InsertUnits`; a refused batch leaves the table unchanged |
| `LocalStore.Database.Delete` | composables/useLearningGoalDownloader.ts:86 | removes the goal's key (an absent key is no error) and nothing else |
| `LocalStore.Database.BulkDelete` | composables/useLearningGoalDownloader.ts:87 | removes exactly the listed unit keys |
| `LocalStore.Database.Restore` | composables/useLearningGoalDownloader.ts:79-82 | an aborted transaction puts both tables back as they were |
| `Operations.DoSucceedsIff` | composables/useLearningGoalDownloader.ts:78-83 | `do` succeeds if and only if the new goal's uid and the new units' uids are unstored and the unit uids are distinct |
| `Operations.DoAddsExactly` | composables/useLearningGoalDownloader.ts:78-83 | a successful `do` adds the new goal and the new units under their uids and touches no other key of either table |
| `Operations.DoPreservesWellKeyed` | composables/useLearningGoalDownloader.ts:78-83 | after `do` every record is still stored under its own uid |
| `Operations.DoUndoInverse` | composables/useLearningGoalDownloader.ts:77-89 | `undo` right after a successful `do` restores both tables exactly |
| `Operations.DoThenUndoRestores` | composables/useLearningGoalDownloader.ts:77-89 | when nothing of the operation is stored and its uids are distinct, `do` succeeds and `undo` then restores both tables |
| `Operations.RedoReapplies` | composables/useLearningGoalDownloader.ts:77-89 | `do` after `undo` (a redo) gives the same tables as the first `do` |
| `Operations.Do` | composables/useLearningGoalDownloader.ts:78-83 | the `do` transaction succeeds exactly when the engine does not abort and `DoSpec` succeeds; the tables are then `DoSpec`'s result, otherwise unchanged |
| `Operations.Undo` | composables/useLearningGoalDownloader.ts:84-89 | the `undo` transaction fails only on an engine abort; the tables are then `UndoSpec`'s result, otherwise unchanged |
| `History.HistoryManager.constructor` | plugins/db.client.ts:10-14 | the plugin opens the database with the tables earlier sessions stored, and starts with two empty stacks |
| `History.HistoryManager.Execute` | plugins/db.client.ts:21-27 | on success with `undoable` the undo stack gains `op` on top and the redo stack is emptied. With `undoable` false, or when `do` fails, both stacks are unchanged; a failed `do` also leaves the tables unchanged and is reported |
| `History.HistoryManager.Undo` | plugins/db.client.ts:30-35 | with an empty undo stack nothing happens. Otherwise the top is popped and undone; it moves to the top of the redo stack if `undo` succeeded and is lost if it failed |
| `History.HistoryManager.Redo` | plugins/db.client.ts:38-43 | the mirror image of `Undo`: with an empty redo stack nothing happens, otherwise the top operation's `do` runs and it moves back onto the undo stack on success |
| `History.UndoRedoKeepHistorySize` | plugins/db.client.ts:30-43 | a successful `undo` or `redo` keeps `|undoStack| + |redoStack|`; a failed one loses exactly one operation |
| `History.UndoThenRedoRestores` | plugins/db.client.ts:30-43 | on a non-empty undo stack, `undo` then `redo` restore both stacks whenever both calls succeed, whatever the engine does. With no engine abort and a top operation whose `do` produced the current tables, both calls succeed and both tables are restored too |
| `History.ExecuteAfterUndoDropsRedo` | plugins/db.client.ts:21-43 | after `undo`, an undoable `execute` succeeds exactly when `op`'s `do` succeeds on the tables `undo` left. It then empties the redo stack, so the following `redo` changes nothing: the undo stack ends as the popped stack plus `op`, the redo stack empty, and the tables `do`'s result on the undone tables |
| `Downloader.UidLanguage` | composables/useLearningGoalDownloader.ts:49 | the language of a unit's request is a prefix of its uid without `_`, either the whole uid or followed by `_` in it |
| `Downloader.UidLanguageUnique` | composables/useLearningGoalDownloader.ts:57 | the contract of `UidLanguage` determines its result |
| `Downloader.FetchUnits` | composables/useLearningGoalDownloader.ts:48-52 | the unit phase succeeds exactly when every unit is served under the language of its own uid, and then yields those units in uid order |
| `Downloader.TranslationRefs` | composables/useLearningGoalDownloader.ts:55 | the flattened translation lists hold exactly the uids some fetched unit lists, an absent list counting as empty |
| `Downloader.DedupFrom` | composables/useLearningGoalDownloader.ts:55 | deduplication yields no repeats and exactly the elements of the input not already seen |
| `Downloader.DedupFromDistinct` | composables/useLearningGoalDownloader.ts:55 | deduplication leaves a repeat-free list as it is, order included |
| `Downloader.TranslationUids` | composables/useLearningGoalDownloader.ts:55 | `translationUids` has no duplicates and holds exactly the union of the fetched units' translations |
| `Downloader.Fetch` | composables/useLearningGoalDownloader.ts:42-60 | the three phases succeed exactly when the goal, its units and the translation uids' units are all served. The results are what was served, and skipping the translation phase for no translation uids changes nothing |
| `Downloader.ExistingUnitUids` | composables/useLearningGoalDownloader.ts:65 | the existing uids are exactly the uids of the records `bulkGet` found |
| `Downloader.NewGoal` | composables/useLearningGoalDownloader.ts:67-68 | after `get(goal.uid)`, `newGoal` is the fetched goal exactly when the goal table has no record under its uid, and none otherwise |
| `Downloader.NewUnitsByKey` | composables/useLearningGoalDownloader.ts:64-66 | filtering by a uid list that agrees with the unit table gives the table-based reference filter |
| `Downloader.DiffAgainstStore` | composables/useLearningGoalDownloader.ts:63-68 | on a well-keyed store, `newGoal` is the goal iff its uid is unstored. `newUnits` is the order-preserving sublist of `units ++ translations`, repeats kept, of units whose uid is not stored |
| `Downloader.UnstoredMembers` | composables/useLearningGoalDownloader.ts:66 | a fetched unit is among the new units exactly when its uid is not stored |
| `Downloader.UnstoredFromEmpty` | composables/useLearningGoalDownloader.ts:66 | against an empty unit table every fetched unit is new |
| `Downloader.DropEmpty` | composables/useLearningGoalDownloader.ts:94 | `.filter(Boolean)` keeps exactly the non-empty strings |
| `Downloader.DropEmptyAppend` | composables/useLearningGoalDownloader.ts:94 | dropping empty strings distributes over concatenation, so the kept strings keep their order |
| `Downloader.Contents` | composables/useLearningGoalDownloader.ts:94 | one `content` per new unit, in order |
| `Downloader.DownloadedNamesSplit` | composables/useLearningGoalDownloader.ts:94 | `lastDownloadedNames` is the new goal's name if present and non-empty, followed by the non-empty contents of the new units in order |
| `Downloader.PlanAddsOnlyUnstored` | composables/useLearningGoalDownloader.ts:63-74 | an operation that reaches `execute` is non-empty and adds only a goal and units whose uids are not stored |
| `Downloader.PlanDoFailsIffRepeats` | composables/useLearningGoalDownloader.ts:63-83 | a planned download's transaction succeeds if and only if its new units have distinct uids |
| `Downloader.PlanDoUndoInverse` | composables/useLearningGoalDownloader.ts:63-89 | for a planned download whose new units have distinct uids, `do` succeeds and `undo` restores both tables |
| `Downloader.RedownloadFindsNothingNew` | composables/useLearningGoalDownloader.ts:65-74 | after a successful download, the same download finds nothing new |
| `Downloader.LearningGoalDownloader.constructor` | composables/useLearningGoalDownloader.ts:21-23 | the state starts not loading, without error and with no names |
| `Downloader.LearningGoalDownloader.DownloadLearningGoal` | composables/useLearningGoalDownloader.ts:32-102 | `isLoading` ends false on every path. A fetch or transaction failure sets the failure message naming the goal, leaves the names empty and changes neither tables nor stacks. Nothing new sets "All items already exist locally." without calling `execute`. Success pushes the operation, empties the redo stack and records the names |
| `Downloader.LearningGoalDownloader.Reset` | composables/useLearningGoalDownloader.ts:104-108 | `reset` sets `isLoading` false, `error` none and the names empty |
| `Downloader.DownloadTwice` | composables/useLearningGoalDownloader.ts:65-74 | two identical downloads in a row store and push what the first one adds, and the second reports "already exist" |
| `Scenarios.ScenarioUnitLanguages` | composables/useLearningGoalDownloader.ts:49 | `en_cat` is fetched in `en` and `fr_chat` in `fr` |
| `Scenarios.ScenarioTranslationUids` | composables/useLearningGoalDownloader.ts:55 | the mutual translations yield the translation uids `[fr_chat, en_cat]` |
| `Scenarios.ScenarioFetchPair` | composables/useLearningGoalDownloader.ts:48-52 | a two-uid unit phase with both paths served yields the two served units |
| `Scenarios.ScenarioFetch` | composables/useLearningGoalDownloader.ts:42-60 | all three phases succeed, and the translation phase fetches both units again |
| `Scenarios.ScenarioPlan` | composables/useLearningGoalDownloader.ts:63-74 | into an empty store the plan is the goal followed by `[en_cat, fr_chat, fr_chat, en_cat]` |
| `Scenarios.ScenarioRepeatsUnits` | composables/useLearningGoalDownloader.ts:63-81 | into an empty store the plan carries `[en_cat, fr_chat, fr_chat, en_cat]`, and its transaction is refused |

## Left out

- Network access: `$fetch`, the host of the hard-coded URLs and the concurrency of `Promise.all` are not modelled. The content service is a map from request path to record. The map is fixed for the call, so repeated requests for one path get the same answer, and a path served in phase 2 cannot fail in phase 3. A failed fetch is a path it does not serve.
- Dexie itself: its schema declaration, the progress tables and IndexedDB are a thin library layer. The store is two maps. Reads (`get`, `bulkGet`) never fail, and a transaction is all-or-nothing; engine-side aborts are the `engineFails` parameter.
- The generic `Operation` interface: the history stacks hold download operations, the only kind of operation in this core. Other callers' closures are not modelled.
- Vue reactivity: `ref` wrappers are plain fields. That `isLoading` is true while a call is in flight is set but not observable in a sequential model.
- `console.error` logging of the caught error.
- Toast notifications (`composables/useToast.ts`), which rely on timers, clocks and randomness.
- Type-only files: they are used for field names only. The unit's optional `credit` metadata is left out of the record because nothing in the core reads it.
- Interleaving of concurrent `downloadLearningGoal` calls and the shared-state race it allows: the model runs one call at a time.
- The Dexie tests (`tests/db.nuxt.spec.ts`): they exercise only Dexie's add and get.
