# Kids' learning app: verified model of its persistence layer and controllers

The application is a small Angular single-page app for young children. Caregivers keep
*categories* (a name and a picture) and *items* (a name, a picture and a recorded sound, each
belonging to a category) in the browser's IndexedDB database `KidsLearningDB`. Learners then
browse that content. This project models three stateful parts of the app in Dafny and proves
properties about them:

- **`DbService`** opens the database at version 1. A schema upgrade creates the `categories`
  and `items` object stores: in-line key `id`, a key generator, and a non-unique `categoryId`
  index on items. The service keeps the handle and the `dbReady` flag. It seeds demo data
  only when the categories store is empty. It offers generic `add`/`getAll`/`update`/
  `delete`/`count`, `getItems` through the index, and typed wrappers. Every request made
  while the handle is null is rejected with "Database not initialized".
- **Admin panel** holds loaded snapshots of both stores, a category form and an item form
  (each with a mode, an editable record and a shown flag), and the recording state. It
  validates records before saving, sends add mode to `add` and edit mode to `update`,
  deletes a category's items before the category, and looks up a category's name.
- **App component** is the learn/edit view-mode switch plus the category a learner has
  opened.

Modules:

- `Records` (`records.dfy`) holds the records, the store errors and `Option`/`Result`.
- `ObjectStore` (`object_store.dfy`) is a value model of one object store: a map from key
  to record, plus the current number of its key generator. It follows section 2.11 (key
  generators) and the add / put / delete / count / getAll / index getAll operations of the
  W3C Indexed Database API 3.0.
- `DbService` (`db_service.dfy`) is the database value, the schema upgrade, opening, the
  request functions, the seeding, and the `DbService` class.
- `AdminPanel` (`admin_panel.dfy`) is the panel's class and the pure functions that specify
  its actions.
- `App` (`app.dfy`) is the root component's class.

Each class method runs synchronously. It either succeeds or returns the error its promise
would reject with. Its contract ties the new state to a pure function of the old state:
`AddIn`, `PutIn`, `DeleteIn`, `Seed`, `Reload`, `DeleteEach` and `Toggled`. The lemmas then
prove the source's promises about those functions. `DbService.writes` is a ghost log of
every add, put and delete request issued to the engine, in order, so contracts can say
"no store call" and "items first, then the category".

Decisions that follow the code or the standard:

- `getAll` returns records in ascending key order, as the Indexed DB standard requires.
  This is not always insertion order. The two agree for records added with generated keys,
  because generated keys strictly increase (`GeneratedKeysIncrease`). They differ once
  records with explicit keys are put.
- Generated keys start at 1. A generator past 2^53 (9007199254740992) makes `add`/`put`
  fail with `ConstraintError`. An explicit numeric key at or above the current number
  moves the generator past it. A failed request changes nothing.
- `put` of a record without an `id` generates a key, as the standard says. `update`
  resolves with the record exactly as the caller passed it.
- `saveCategory` in add mode passes only `{name, picture}`. `saveItem` in add mode passes
  the item with whatever `id` it carries.
- The cascade's `if (item.id)` skips an item whose id is 0, so such an item is never
  deleted.
- `getCategoryName` uses `?? 'Unknown'`. It therefore returns `""` for a found category
  whose name is empty, and "Unknown" only when no loaded category has the id.

## Model

| member | source | states |
|---|---|---|
| ObjectStore.Empty | src/services/db.service.ts:46-49 | a freshly created store is valid, holds no records, and its key generator's current number is 1 |
| ObjectStore.PossiblyUpdate | src/services/db.service.ts:46-49 | an explicit key never lowers the generator; a key up to 2^53 ends up below the new current number; a key below the current number leaves it unchanged |
| ObjectStore.GenerateKey | src/services/db.service.ts:76 | the generator's next key is its current number, and ConstraintError once that number is past 2^53 (properties in `AddAssignsFreshKey`) |
| ObjectStore.StoreRecord | src/services/db.service.ts:76 | the engine's store step shared by add and put: a record without an `id` takes the generated key and moves the generator; one with an `id` keeps that key and may move the generator past it; a taken key is ConstraintError when overwriting is not allowed (properties in `AddAssignsFreshKey`, `PutStoresRecord`, `StoreFailureIsConstraint`) |
| ObjectStore.Add | src/services/db.service.ts:76 | the engine's add request: store without overwriting (properties in `AddAssignsFreshKey`) |
| ObjectStore.Put | src/services/db.service.ts:94 | the engine's put request: store, replacing a record under the same key (properties in `PutStoresRecord`, `PutIdempotent`) |
| ObjectStore.Delete | src/services/db.service.ts:103 | the engine's delete request: the store without that key, generator kept (properties in `DeleteRemovesOnlyKey`) |
| ObjectStore.GetAll | src/services/db.service.ts:85 | the engine's getAll request: the records in ascending key order (properties in `GetAllIsOrderedContents`) |
| ObjectStore.IndexGetAll | src/services/db.service.ts:137 | the `categoryId` index's getAll at a key: the matching records in ascending key order (properties in `IndexGetAllIsCategoryFilter`) |
| ObjectStore.AddAssignsFreshKey | src/services/db.service.ts:73-80 | add succeeds exactly when the record's own key is absent, or, for a record without an id, the generator is not exhausted; the returned key was not in the store, the store gains exactly that key holding the record with its id set, and a generated key is the generator's number, which moves past it |
| ObjectStore.StoreFailureIsConstraint | src/services/db.service.ts:73-98 | the only way add or put fails on an opened store is ConstraintError |
| ObjectStore.PutStoresRecord | src/services/db.service.ts:91-98 | put succeeds unless the record lacks an id and the generator is exhausted; afterwards the key maps to the record and every other key keeps its record |
| ObjectStore.PutIdempotent | src/services/db.service.ts:91-98 | putting the same keyed record twice gives the same store as putting it once |
| ObjectStore.DeleteRemovesOnlyKey | src/services/db.service.ts:100-107 | delete removes that key and only that key, keeps the generator, leaves the store unchanged for an absent key, is idempotent, and lowers the count by one exactly when the key was present |
| ObjectStore.GetAllIsOrderedContents | src/services/db.service.ts:82-89 | getAll lists every record of the store exactly once, in strictly ascending key order, and its length is the count |
| ObjectStore.IndexGetAllIsCategoryFilter | src/services/db.service.ts:133-141 | the categoryId index at k yields exactly the stored records whose categoryId is k, in ascending key order, and is empty exactly when no record matches |
| ObjectStore.StepKeepsValid | src/services/db.service.ts:73-107 | every add, put or delete keeps the store valid (each record under its own id, every key below the generator while it is not exhausted) and never lowers the generator |
| ObjectStore.GeneratedKeysIncrease | src/services/db.service.ts:73-80 | over any sequence of requests, each key the generator hands out was not in the store before the run, and the keys strictly increase |
| DbService.Upgrade | src/services/db.service.ts:43-52 | the upgrade handler: creates the categories store if missing, and the items store with its `categoryId` index if missing (properties in `UpgradeCreatesSchema`) |
| DbService.Open | src/services/db.service.ts:39-62 | opening at version 1: a refused open rejects, a newer stored version is VersionError, an older one is upgraded (properties in `OpenSpec`) |
| DbService.UpgradeCreatesSchema | src/services/db.service.ts:43-52 | the upgrade creates whichever store is missing (items with its categoryId index), keeps the existing ones, and is idempotent |
| DbService.OpenSpec | src/services/db.service.ts:39-62 | opening succeeds exactly when the engine allows it and the stored version is not newer than 1; the result is at version 1 and valid, and a database that does not exist yet opens with both stores empty |
| DbService.Located | src/services/db.service.ts:64-70 | a null handle is "Database not initialized"; a store is found exactly when the database has it |
| DbService.AddIn | src/services/db.service.ts:73-80 | the generic add: a rejected store lookup issues nothing; otherwise one add request, whose key or ConstraintError is the result (properties in `RequestsKeepValid`, `NullHandleRejectsEverything`) |
| DbService.PutIn | src/services/db.service.ts:91-98 | the generic update: one put request, resolving to the record as passed (properties in `RequestsKeepValid`) |
| DbService.DeleteIn | src/services/db.service.ts:100-107 | the generic delete: one delete request, which always succeeds on a found store (properties in `RequestsKeepValid`) |
| DbService.CountIn | src/services/db.service.ts:109-116 | the generic count: the number of records of a found store (properties in `NullHandleRejectsEverything`) |
| DbService.GetAllIn | src/services/db.service.ts:82-89 | the generic getAll: a found store's records in key order |
| DbService.CategoriesOf | src/services/db.service.ts:119-121 | the categories are exactly the category records getAll returned, and there are no more of them than records |
| DbService.ItemsOf | src/services/db.service.ts:142-144 | the items are exactly the item records getAll returned, and there are no more of them than records |
| DbService.CategoriesOfAppend | src/services/db.service.ts:119-121 | unwrapping two runs of records is unwrapping each and concatenating, so the categories keep getAll's order |
| DbService.CategoriesOfAllCategories | src/services/db.service.ts:119-121 | over a store holding only categories, the result has one category per record, the i-th being the i-th record's |
| DbService.ItemsOfAppend | src/services/db.service.ts:142-144 | unwrapping two runs of records is unwrapping each and concatenating, so the items keep getAll's order |
| DbService.ItemsOfAllItems | src/services/db.service.ts:142-144 | over a store holding only items, the result has one item per record, the i-th being the i-th record's |
| DbService.GetItemsIn | src/services/db.service.ts:133-141 | getItems: the `categoryId` index queried at the key, NotFoundError without the index (properties in `GetItemsIsCategoryFilter`) |
| DbService.NullHandleRejectsEverything | src/services/db.service.ts:64-67 | with a null handle every request is rejected with NotInitialized, issues nothing and changes nothing |
| DbService.RequestsKeepValid | src/services/db.service.ts:72-116 | every request keeps an opened database valid and never sets or clears the handle |
| DbService.GetItemsIsCategoryFilter | src/services/db.service.ts:133-141 | getItems(k) returns exactly the stored items whose categoryId is k, and the empty sequence when there are none |
| DbService.AddItems | src/services/db.service.ts:162-163 | adds the named items under category key k with the placeholder picture and an empty sound, in order, stopping at the first rejection |
| DbService.SeedGroup | src/services/db.service.ts:161-163 | adds one category, then its items under the key that add returned, stopping at the first rejection (properties in `SeedGroupAddsGroupData`, `SeedGroupUnfold`) |
| DbService.Seed | src/services/db.service.ts:155-168 | seedData: the Animals group, then the Vehicles group unless the first was rejected (properties in `SeedAddsDemoData`) |
| DbService.DemoData | src/services/db.service.ts:155-168 | the database seeding leaves: the Animals group, then the Vehicles group (properties in `DemoDataRecords`, `DemoDataCounts`, `DemoDataLinksItems`) |
| DbService.GroupData | src/services/db.service.ts:161-163 | one seeding group moves the categories generator by one and the items generator by two |
| DbService.SeedGroupAddsGroupData | src/services/db.service.ts:161-163 | with room in both generators, one seeding group succeeds, leaves `GroupData` and keeps the database valid |
| DbService.GroupDataShape | src/services/db.service.ts:161-163 | one group adds exactly one category under the next key and two items, each of that category and with an empty sound, and keeps every existing key |
| DbService.SeedAddsDemoData | src/services/db.service.ts:155-168 | with room in both generators, seeding succeeds and leaves exactly the demo data: Animals with Dog and Cat, then Vehicles with Car and Airplane |
| DbService.DemoDataValid | src/services/db.service.ts:155-168 | the seeded database is valid |
| DbService.DemoDataCounts | src/services/db.service.ts:155-168 | seeding adds exactly 2 categories and 4 items |
| DbService.DemoDataRecords | src/services/db.service.ts:161-167 | record by record: Animals under the categories generator's next key a and Vehicles under a+1, both keys new; Dog and Cat with categoryId a, then Car and Airplane with categoryId a+1, under the items generator's next four keys, each with the placeholder picture and an empty sound |
| DbService.DemoDataLinksItems | src/services/db.service.ts:161-167 | every item seeding adds has an empty sound and carries the key of a category seeding added, never that of a category present before |
| DbService.SeedOnEmptyCategories | src/services/db.service.ts:28-31 | seeding an empty categories store succeeds, the category count becomes 2, the items store gains exactly 4 records, and each new item has an empty sound and a category that seeding stored |
| DbService.ReopenDoesNotSeed | src/services/db.service.ts:27-31 | once seeded, a database opens unchanged and its non-zero category count means a second start does not seed again |
| DbService.SeedGroupUnfold | src/services/db.service.ts:161-163 | one seeding group is the category add, then its two items' adds under the returned key, stopping at the first rejection |
| DbService.DbService.constructor | src/services/db.service.ts:15-20 | the service starts with a null handle, not ready, and nothing issued |
| DbService.DbService.InitDb | src/services/db.service.ts:22-37 | a failed open leaves the handle as it was and not ready; a successful one sets the handle and ready, then counts the categories and seeds only when there are none; a failed count or seeding sets ready back to false while the handle stays set |
| DbService.DbService.Store | src/services/db.service.ts:64-67 | a null handle is rejected with NotInitialized; a found store is the opened database's own |
| DbService.DbService.Add | src/services/db.service.ts:73-80 | the handle, log and result are those of the add request; readiness is untouched |
| DbService.DbService.GetAll | src/services/db.service.ts:82-89 | a missing handle or store is rejected, otherwise the store's records in key order |
| DbService.DbService.Update | src/services/db.service.ts:91-98 | the handle, log and result are those of the put request, resolving to the record as passed |
| DbService.DbService.Delete | src/services/db.service.ts:100-107 | the handle, log and result are those of the delete request |
| DbService.DbService.Count | src/services/db.service.ts:109-116 | succeeds exactly when the store is reachable, with the number of records it holds |
| DbService.DbService.GetCategories | src/services/db.service.ts:119-121 | the categories store's records in key order, or its rejection |
| DbService.DbService.AddCategory | src/services/db.service.ts:122-124 | add on the categories store |
| DbService.DbService.UpdateCategory | src/services/db.service.ts:125-127 | put on the categories store, resolving to the category as passed |
| DbService.DbService.DeleteCategory | src/services/db.service.ts:128-130 | delete on the categories store |
| DbService.DbService.GetItems | src/services/db.service.ts:133-141 | the index query at categoryId; on success exactly the stored items of that category |
| DbService.DbService.GetAllItems | src/services/db.service.ts:142-144 | the items store's records in key order, or its rejection |
| DbService.DbService.AddItem | src/services/db.service.ts:145-147 | add on the items store |
| DbService.DbService.UpdateItem | src/services/db.service.ts:148-150 | put on the items store, resolving to the item as passed |
| DbService.DbService.DeleteItem | src/services/db.service.ts:151-153 | delete on the items store |
| DbService.DbService.SeedData | src/services/db.service.ts:155-168 | the handle, log and outcome are those of the seeding sequence |
| DbService.DbService.SeedGroupOf | src/services/db.service.ts:161-163 | the handle, log and outcome are those of one seeding group |
| AdminPanel.FirstWithId | src/components/admin-panel/admin-panel.component.ts:47-49 | the position found is the first whose id matches, or the length when none does |
| AdminPanel.Message | src/components/admin-panel/admin-panel.component.ts:68 | the text of each alert: line 68 for a category, lines 135 and 139 for an item, line 202 for the microphone |
| AdminPanel.CategoryAlert | src/components/admin-panel/admin-panel.component.ts:67 | saveCategory's guard: alert when there is no record, or its name or picture is empty; otherwise none |
| AdminPanel.ItemAlert | src/components/admin-panel/admin-panel.component.ts:134-141 | saveItem's guards in order: missing record, name or picture, or categoryId 0 alerts for the fields; otherwise an empty sound alerts for the sound; otherwise none |
| AdminPanel.InCategoryOf | src/components/admin-panel/admin-panel.component.ts:90 | the snapshot items kept are exactly those of the category, and there are no more of them than in the snapshot |
| AdminPanel.InCategoryOfAppend | src/components/admin-panel/admin-panel.component.ts:90 | filtering two runs of items is filtering each and concatenating, so the snapshot's order is kept |
| AdminPanel.TruthyIds | src/components/admin-panel/admin-panel.component.ts:91-92 | the ids of the listed items that pass `if (item.id)`, in list order (properties in `TruthyIdsAreTruthy`) |
| AdminPanel.CascadeIds | src/components/admin-panel/admin-panel.component.ts:90-92 | the ids the cascade deletes: the truthy ids of the snapshot's items of the category (properties in `CascadeTargetsCategoryItems`) |
| AdminPanel.DeleteEach | src/components/admin-panel/admin-panel.component.ts:91-93 | one delete request per id in order, each awaited, stopping at the first rejection (properties in `DeleteEachStopsAtFailure`, `DeleteEachRemovesKeys`, `DeleteEachIssuesDeletes`) |
| AdminPanel.Reload | src/components/admin-panel/admin-panel.component.ts:42-45 | loadData: the categories snapshot is replaced by getCategories, then the items snapshot by getAllItems; a rejected call keeps the snapshot it would have replaced and skips what follows |
| AdminPanel.TruthyIdsAreTruthy | src/components/admin-panel/admin-panel.component.ts:91-93 | the ids the loop deletes are exactly the ids of the listed items that are present and non-zero |
| AdminPanel.DeleteEachStopsAtFailure | src/components/admin-panel/admin-panel.component.ts:91-93 | after the first rejected delete no further request is issued and the state is that of the rejection |
| AdminPanel.DeleteEachRemovesKeys | src/components/admin-panel/admin-panel.component.ts:91-93 | on an opened store the deletes all succeed, remove exactly the listed keys and keep the generator |
| AdminPanel.DeleteEachIssuesDeletes | src/components/admin-panel/admin-panel.component.ts:91-93 | on an opened store exactly one delete request is issued per id, in the order of the ids |
| AdminPanel.DeleteEachFailureIsFinal | src/components/admin-panel/admin-panel.component.ts:91-93 | a rejection while deleting the first items of the list is the outcome of the whole loop |
| AdminPanel.DeleteEachNext | src/components/admin-panel/admin-panel.component.ts:91-93 | each loop step issues a delete exactly when the item's id is truthy and no earlier delete was rejected |
| AdminPanel.CascadeTargetsCategoryItems | src/components/admin-panel/admin-panel.component.ts:90-93 | over a fresh snapshot of the items store, the cascade deletes exactly the keys of that category's items except key 0; items of other categories stay |
| AdminPanel.AdminPanel.constructor | src/components/admin-panel/admin-panel.component.ts:17-36 | empty snapshots, both forms hidden in add mode with no record, not recording, no recording and no recorder |
| AdminPanel.AdminPanel.LoadData | src/components/admin-panel/admin-panel.component.ts:42-45 | the categories are replaced first and the items only if that worked, as `Reload` says; forms and recording are unchanged |
| AdminPanel.AdminPanel.GetCategoryName | src/components/admin-panel/admin-panel.component.ts:47-49 | the name of the first loaded category with the id, and "Unknown" when there is none |
| AdminPanel.AdminPanel.ShowAddCategoryForm | src/components/admin-panel/admin-panel.component.ts:53-57 | a blank category, add mode, form shown; nothing else changes |
| AdminPanel.AdminPanel.ShowEditCategoryForm | src/components/admin-panel/admin-panel.component.ts:59-63 | the category as the editable record, edit mode, form shown |
| AdminPanel.AdminPanel.SaveCategory | src/components/admin-panel/admin-panel.component.ts:65-80 | a missing record, empty name or empty picture alerts and changes nothing; add mode issues an add of only name and picture, edit mode a put of the whole record; a rejection leaves the form open, a success closes it and reloads |
| AdminPanel.AdminPanel.CancelCategoryForm | src/components/admin-panel/admin-panel.component.ts:82-85 | the category form is hidden with no record; nothing else changes |
| AdminPanel.AdminPanel.DeleteCategory | src/components/admin-panel/admin-panel.component.ts:87-98 | a falsy id or declined confirmation changes nothing; otherwise the truthy-id items of that category in the snapshot are deleted in order, then the category, stopping at the first rejection, then the snapshots reload |
| AdminPanel.AdminPanel.DeleteEachItem | src/components/admin-panel/admin-panel.component.ts:91-93 | the loop issues exactly the deletes of `DeleteEach` over the truthy ids |
| AdminPanel.AdminPanel.ShowAddItemForm | src/components/admin-panel/admin-panel.component.ts:118-123 | a blank item with categoryId 0, add mode, no recording, form shown |
| AdminPanel.AdminPanel.ShowEditItemForm | src/components/admin-panel/admin-panel.component.ts:125-130 | the item as the editable record, edit mode, its sound as the recording, form shown |
| AdminPanel.AdminPanel.SaveItem | src/components/admin-panel/admin-panel.component.ts:132-151 | a missing record, empty name or picture, or categoryId 0 alerts for the fields, then an empty sound alerts for the sound, with no store call; add mode adds the item as it is, edit mode puts it; success closes the form, stops recording and reloads |
| AdminPanel.AdminPanel.CancelItemForm | src/components/admin-panel/admin-panel.component.ts:153-157 | the item form is hidden with no record and recording is stopped |
| AdminPanel.AdminPanel.DeleteItem | src/components/admin-panel/admin-panel.component.ts:159-164 | a falsy id or declined confirmation changes nothing; otherwise one delete, then a reload unless it was rejected |
| AdminPanel.AdminPanel.PictureEncoded | src/components/admin-panel/admin-panel.component.ts:104-110 | the encoded picture replaces the picture of the open form's record it was picked for, if there is one |
| AdminPanel.AdminPanel.ToggleRecording | src/components/admin-panel/admin-panel.component.ts:167-204 | recording stops when on; otherwise it starts when the microphone is granted and alerts without changing anything when it is not |
| AdminPanel.AdminPanel.StopRecording | src/components/admin-panel/admin-panel.component.ts:206-211 | recording is off afterwards, and nothing changes when it was off |
| AdminPanel.AdminPanel.AudioEncoded | src/components/admin-panel/admin-panel.component.ts:187-192 | the encoded recording becomes the recorded audio and the editable item's sound |
| App.Toggled | src/app.component.ts:33 | learn becomes edit and edit becomes learn |
| App.ToggleTwiceRestores | src/app.component.ts:33 | toggling twice restores the mode |
| App.AppComponent.constructor | src/app.component.ts:19-20 | starts in learn mode with no category selected |
| App.AppComponent.IsDbReady | src/app.component.ts:22 | the component's readiness is the service's `dbReady` flag, read through |
| App.AppComponent.SelectCategory | src/app.component.ts:24-26 | the selection is the category; the mode is unchanged |
| App.AppComponent.GoBackToCategories | src/app.component.ts:28-30 | the selection is cleared; the mode is unchanged |
| App.AppComponent.ToggleViewMode | src/app.component.ts:32-35 | the mode is toggled and the selection always cleared |

## Left out

- Promises, request callbacks and transactions are not modelled. Each request completes
  synchronously with its result or its error, so interleavings of concurrent requests are
  not modelled.
- The engine is a parameter of `InitDb`: the database it holds and whether it lets it
  open. Faults beyond NotInitialized, NotFoundError, ConstraintError, VersionError and a
  refused open are not modelled, for example quota errors mid-transaction and the
  `onblocked` event.
- Only numeric keys are modelled. JavaScript numbers above 2^53 lose precision; the model
  uses unbounded integers, with the generator's 2^53 limit written out.
- The generic `add`/`update` accept any `Record` for either store. The TypeScript call
  sites always pair a store with its record type. `CategoriesOf`/`ItemsOf` filter by kind
  where the source casts unchecked.
- File reading and base64 encoding (`handlePictureInput`, the recorder's `onstop` reader)
  are left out. Only the arrival of the encoded string is modelled (`PictureEncoded`,
  `AudioEncoded`), and the string is opaque.
- `getUserMedia` becomes the `microphoneGranted` input. The recorder's chunks, blob and
  track stopping are not modelled.
- `alert` becomes a returned `Outcome`, and `confirm` a boolean input. Console output is
  not modelled.
- Angular signals, `effect`, dependency injection and templates are not modelled; a signal
  is a plain field. `isDbReady` is modelled only as `IsDbReady`, which reads the service's
  flag.
- The source's constructor starts `initDb` itself (src/services/db.service.ts:18-20), without
  awaiting it. The model's constructor only sets the initial state; `InitDb` is a separate
  method the caller runs, because the open happens asynchronously in the source.
- The generic `add`/`getAll`/`update`/`delete`/`count` take any store name
  (src/services/db.service.ts:73-116), and the engine rejects an unknown name with
  NotFoundError. The model's `StoreName` has only the two stores the app uses, so that path
  is not modelled.
- `ngOnInit` only calls `loadData`, which `LoadData` models.
- `src/components/category-list/category-list.component.ts` and
  `src/components/item-list/item-list.component.ts` forward to the service and set a
  signal. They are not part of this model; audio playback is not modelled either.
- `app.js` duplicates the same logic against the DOM and is not part of this model.
