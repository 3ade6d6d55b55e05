# HexenApp item cache and sync layer, in Dafny

HexenApp is an Android inventory app. Each signed-in Firebase account owns a
list of items. The items live on a REST backend and are cached in a local
Room (SQLite) table, which every screen reads. This project models that cache
and sync core and proves properties of the model:

- the `items` table and its DAO (REPLACE insert, `@Update`, the scoped and
  unscoped deletes, the three queries);
- the repository that writes through to the server and refreshes the cache;
- the two view models (items, authentication) as state machines;
- the pure decisions of the add/edit, reset-password and register screens;
- the navigation routes and guards.

Modules, one per source file of the core (plus three shared ones):

| module | models |
|---|---|
| `Wrappers` | `Option`, `Exception` (a possibly null message), `ResultWrapper` (Success / Error / Loading) |
| `Text` | The Kotlin string primitives used: `isBlank`, `ifBlank`, the digit filter, `toIntOrNull` and `Int.toString` with 32-bit bounds, `startsWith`, SQLite `LIKE`, and the BINARY collation. |
| `ItemEntityModel` | `ItemEntity` and its default arguments |
| `ItemStore` | The `items` table as a value (`Table`). It has one pure function per SQL statement and one predicate per query. |
| `ItemDaoModel` | class `ItemDao`. It updates the table in place, and each method is proved equal to its `ItemStore` function. |
| `ItemRepositoryModel` | class `ItemRepository` and one pure step function per operation. The identity provider, the API and the clock are inputs. |
| `ItemViewModelModel` | class `ItemViewModel` (`currentUserId`, `operationStatus`, `isLoading`, `selectedItem`) |
| `AuthRepositoryModel` | The Firebase wrappers (task outcome → `ResultWrapper`) |
| `AuthViewModelModel` | class `AuthViewModel`: four result channels, `isLoading`, `currentUser` and a ghost event log |
| `AddEditItemScreenModel` | The form's remembered fields (a class), its effects, and the submit / status decisions |
| `ResetPasswordConfirmScreenModel` | The validation, mismatch flag, button, panel selection and result effects |
| `SubmitPathModel` | The two ways the auth forms are submitted (Done key, button) and when each can be used |
| `RegisterScreenModel` | The input guard and the auth-result effect |
| `AppNavigationModel` | The routes, `addEditItemRoute`, the template, the splash decision and the guards |

Inputs rather than behaviour:

- The Firebase user is `Option<FirebaseUser>`: a uid plus the outcome of fetching its ID token.
- An API call is an `ApiOutcome`: a successful response with a possibly null body, an HTTP error with its code and message, or an exception.
- A Firebase task is a `TaskOutcome`: it completes or it throws.
- The clock is a parameter `now`.

Ghost logs record what cannot be read from the final state:

- the requests the repository sent (`calls`);
- every value `ItemViewModel` gave `isLoading` (`loadingTrace`);
- every assignment and Firebase call of `AuthViewModel` (`events`).

Behaviours of the code that the model makes explicit, each proved:

- **Ids are global, not per user.** The table's key is `id` alone, while the deletes and reads are scoped by `(id, userId)`. A REPLACE insert, an `@Update` or a refresh can therefore overwrite another user's row with the same id, and a user-scoped delete cannot remove it (`UpsertCrossesPartitions`, `UpdateCrossesPartitions`, `ReplaceVersusScopedDelete`, `RefreshCanTakeOverForeignRow`).
- **Refresh drops local-only rows.** It deletes all the user's rows and then inserts the server's list, in two separate DAO calls. Local-only rows of that user do not survive (`RefreshOutsideServerIds`). Refresh never reports failure.
- **Owner on writes versus refresh.** insertItem and updateItem store the server reply under the local uid. Refresh keeps the server's `user_id`.
- **updateItem re-stamps `createdAt`.** The entity it builds gets `now` for `createdAt` from the constructor default, so the local creation time is lost (`UpdateItemOutcome`).
- **The mismatch flag tests emptiness.** On the reset-password screen the inline mismatch flag tests emptiness, while submitting tests blankness (`MismatchFlagVersusSubmit`).
- **The auth buttons hide while loading, the Done keys do not.** On the register and reset-password screens a spinner replaces the button while loading, but the keyboard's Done action still submits (`SubmitPathsAgree`, `ResetSubmitPathsAgree`).
- **Search is SQLite `LIKE`.** It ignores ASCII case and treats `%` and `_` in the query as wildcards, so it is not a plain substring test (`SearchIsCaseInsensitiveSubstring`, `LikeQueryWildcards`).
- **`refreshItems` never sets `operationStatus`.** The repository catches everything itself, so the view model's `catch` never runs.

## Model

| member | source | states |
|---|---|---|
| Wrappers.MessageText | app/src/main/java/com/example/hexenapp/ui/screens/auth/ResetPasswordConfirmScreen.kt:79 | A string template shows an exception's message, or "null" when it has none. |
| Wrappers.Fail | app/src/main/java/com/example/hexenapp/data/repository/ItemRepository.kt:118 | `Exception(msg)` carries exactly that message. |
| Text.BlankToNull | app/src/main/java/com/example/hexenapp/ui/screens/items/AddEditItemScreen.kt:171 | `ifBlank { null }` gives null exactly for a blank text and the text itself otherwise. |
| Text.FilterDigits | app/src/main/java/com/example/hexenapp/ui/screens/items/AddEditItemScreen.kt:151 | The filtered text holds only digits and is no longer than the input. |
| Text.FilterDigitsKeepsDigits | app/src/main/java/com/example/hexenapp/ui/screens/items/AddEditItemScreen.kt:151 | Every digit of the input is kept as often as it occurs, and no other character is kept. |
| Text.FilterDigitsAppend | app/src/main/java/com/example/hexenapp/ui/screens/items/AddEditItemScreen.kt:151 | The digits are kept in the order typed: filtering a concatenation concatenates the filtered parts. |
| Text.FilterDigitsOfDigits | app/src/main/java/com/example/hexenapp/ui/screens/items/AddEditItemScreen.kt:151 | Text that is all digits passes the filter unchanged. |
| Text.FilterDigitsIdempotent | app/src/main/java/com/example/hexenapp/ui/screens/items/AddEditItemScreen.kt:151 | Filtering twice gives the same text as filtering once. |
| Text.DigitValue | app/src/main/java/com/example/hexenapp/ui/screens/items/AddEditItemScreen.kt:164 | A decimal digit has a value below 10. |
| Text.DigitChar | app/src/main/java/com/example/hexenapp/ui/screens/items/AddEditItemScreen.kt:73 | The digit character for d < 10 is a digit whose value is d. |
| Text.NatToString | app/src/main/java/com/example/hexenapp/ui/screens/items/AddEditItemScreen.kt:73 | The decimal text of a natural number is non-empty, all digits, and has no leading zero. |
| Text.IntToString | app/src/main/java/com/example/hexenapp/ui/screens/items/AddEditItemScreen.kt:73 | `Int.toString()` is non-empty and starts with '-' exactly for negative numbers. |
| Text.NatToStringValue | app/src/main/java/com/example/hexenapp/ui/screens/items/AddEditItemScreen.kt:73 | The digits of a natural number's decimal text read back as that number. |
| Text.ToIntOrNull | app/src/main/java/com/example/hexenapp/ui/screens/items/AddEditItemScreen.kt:164 | `toIntOrNull` gives null for the empty text. A result is always a 32-bit Int, read from an optional sign followed by digits only. |
| Text.IntToStringRoundTrip | app/src/main/java/com/example/hexenapp/ui/screens/items/AddEditItemScreen.kt:73-164 | `n.toString().toIntOrNull() == n` for every 32-bit Int. |
| Text.DigitsParse | app/src/main/java/com/example/hexenapp/ui/screens/items/AddEditItemScreen.kt:164 | An all-digit text parses exactly when it is non-empty and fits in Int, and then to its decimal value. |
| Text.LikeAnything | app/src/main/java/com/example/hexenapp/data/local/dao/ItemDao.kt:44 | The pattern `%` matches every text. |
| Text.LikePrefix | app/src/main/java/com/example/hexenapp/data/local/dao/ItemDao.kt:44 | For a wildcard-free q, `q%` matches exactly the texts that start with q, ignoring ASCII case. |
| Text.LikeLeadingAny | app/src/main/java/com/example/hexenapp/data/local/dao/ItemDao.kt:44 | `%r` matches a text exactly when r matches one of its suffixes. |
| Text.LikeContainsSpec | app/src/main/java/com/example/hexenapp/data/local/dao/ItemDao.kt:44 | For a wildcard-free query, `name LIKE '%' \|\| q \|\| '%'` holds exactly when q occurs in the name, ignoring ASCII case. |
| Text.LikeQueryWildcards | app/src/main/java/com/example/hexenapp/data/local/dao/ItemDao.kt:44 | The query's `_` is a wildcard and letters match across case: "a_c" finds "xABCy". |
| Text.LexLeTotal | app/src/main/java/com/example/hexenapp/data/local/dao/ItemDao.kt:44 | The BINARY name order is total. |
| Text.LexLeTransitive | app/src/main/java/com/example/hexenapp/data/local/dao/ItemDao.kt:44 | The BINARY name order is transitive. |
| Text.LexLeAntisymmetric | app/src/main/java/com/example/hexenapp/data/local/dao/ItemDao.kt:44 | The BINARY name order is antisymmetric. |
| ItemEntityModel.NewItemEntityDefaults | app/src/main/java/com/example/hexenapp/data/local/model/ItemEntity.kt:13-24 | The defaults give id 0 (to be assigned by the table), quantity 0, and both timestamps equal to the construction time. |
| ItemStore.AssignedId | app/src/main/java/com/example/hexenapp/data/local/model/ItemEntity.kt:14-15 | A REPLACE insert writes under the item's own id, or under last id + 1 when the id is 0. |
| ItemStore.Upsert | app/src/main/java/com/example/hexenapp/data/local/dao/ItemDao.kt:15-16 | REPLACE keeps the table valid. Exactly the assigned key is added or overwritten, with the argument, whoever owned it, and every other row is unchanged. A generated key is new. |
| ItemStore.UpsertAll | app/src/main/java/com/example/hexenapp/data/local/dao/ItemDao.kt:18-19 | The bulk insert keeps the table valid and never lowers the counter. |
| ItemStore.LastWithId | app/src/main/java/com/example/hexenapp/data/local/dao/ItemDao.kt:18-19 | Gives the last list element with a given id, later than any other one with that id, or none when the id is absent. |
| ItemStore.UpsertAllAt | app/src/main/java/com/example/hexenapp/data/local/dao/ItemDao.kt:18-19 | After insertItems, a non-zero key holds the last listed element with that key. A key no element names keeps its row. |
| ItemStore.UpsertAllAbsent | app/src/main/java/com/example/hexenapp/data/local/dao/ItemDao.kt:18-19 | insertItems never brings back an absent key that no element names. |
| ItemStore.Update | app/src/main/java/com/example/hexenapp/data/local/dao/ItemDao.kt:21-22 | `@Update` overwrites the row with the item's key, owner included, and never inserts. The other rows and the key set are unchanged. |
| ItemStore.UpdateCount | app/src/main/java/com/example/hexenapp/data/local/dao/ItemDao.kt:21-22 | The count is 1 exactly when a row had the key, and 0 otherwise. |
| ItemStore.DeleteByKey | app/src/main/java/com/example/hexenapp/data/local/dao/ItemDao.kt:24-25 | `@Delete` removes exactly the key, whoever owns the row. |
| ItemStore.DeleteById | app/src/main/java/com/example/hexenapp/data/local/dao/ItemDao.kt:28-29 | The row is removed only when both id and owner match. Otherwise the table is unchanged. |
| ItemStore.DeleteByIdCount | app/src/main/java/com/example/hexenapp/data/local/dao/ItemDao.kt:28-29 | The count is 1 exactly when id and owner match, and 0 otherwise. |
| ItemStore.DeleteAllForUser | app/src/main/java/com/example/hexenapp/data/local/dao/ItemDao.kt:32-33 | Removes exactly the user's rows. The other rows are unchanged. |
| ItemStore.GetItemById | app/src/main/java/com/example/hexenapp/data/local/dao/ItemDao.kt:40-41 | Gives the row with the key exactly when the user owns it, and null otherwise. |
| ItemStore.CreatedAtDescIsTotalPreorder | app/src/main/java/com/example/hexenapp/data/local/dao/ItemDao.kt:36 | `ORDER BY createdAt DESC` is a total preorder. |
| ItemStore.NameAscIsTotalPreorder | app/src/main/java/com/example/hexenapp/data/local/dao/ItemDao.kt:44 | `ORDER BY name ASC` is a total preorder. |
| ItemStore.InsertPos | app/src/main/java/com/example/hexenapp/data/local/dao/ItemDao.kt:36-45 | The insertion point lies after every element that x must follow and before the first one it may precede. |
| ItemStore.Splice | app/src/main/java/com/example/hexenapp/data/local/dao/ItemDao.kt:36-45 | Inserting at that point keeps the elements before it, puts x there, and shifts the rest by one. |
| ItemStore.InsertKeepsSorted | app/src/main/java/com/example/hexenapp/data/local/dao/ItemDao.kt:36-45 | Splicing into a sorted result keeps it sorted. |
| ItemStore.SpliceMembers | app/src/main/java/com/example/hexenapp/data/local/dao/ItemDao.kt:36-45 | A splice holds exactly the old elements and x. |
| ItemStore.SpliceDistinct | app/src/main/java/com/example/hexenapp/data/local/dao/ItemDao.kt:36-45 | Splicing in a row with a new id keeps the ids distinct. |
| ItemStore.VisitKey | app/src/main/java/com/example/hexenapp/data/local/dao/ItemDao.kt:36-45 | Visiting one more key keeps a partial query result a partial result. |
| ItemStore.PartialResultComplete | app/src/main/java/com/example/hexenapp/data/local/dao/ItemDao.kt:36-45 | A partial result over all keys is a full query result. |
| ItemStore.QueryResultsAgree | app/src/main/java/com/example/hexenapp/data/local/dao/ItemDao.kt:36-45 | Two results of one query hold the same rows. Only the order of tied rows is open. |
| ItemStore.ReadsAreIsolated | app/src/main/java/com/example/hexenapp/data/local/dao/ItemDao.kt:36-45 | Reads never yield another user's row. Search yields only matching names, all among the user's rows. |
| ItemStore.SearchIsCaseInsensitiveSubstring | app/src/main/java/com/example/hexenapp/data/local/dao/ItemDao.kt:44-45 | For a wildcard-free query, the search returns exactly the user's rows whose name contains the query, ignoring ASCII case. |
| ItemStore.DeleteByIdIsolation | app/src/main/java/com/example/hexenapp/data/local/dao/ItemDao.kt:28-29 | A scoped delete leaves other users' partitions as they were and removes at most the one key from the user's own. |
| ItemStore.DeleteByIdSpares | app/src/main/java/com/example/hexenapp/data/local/dao/ItemDao.kt:28-29 | A delete aimed at another user's row returns 0, and the row stays readable by its owner. |
| ItemStore.DeleteAllIsolation | app/src/main/java/com/example/hexenapp/data/local/dao/ItemDao.kt:32-33 | Empties the user's partition and leaves the others as they were. |
| ItemStore.UpsertCrossesPartitions | app/src/main/java/com/example/hexenapp/data/local/dao/ItemDao.kt:15-16 | REPLACE takes the key away from any other user's partition and puts it in the inserting user's. |
| ItemStore.UpdateCrossesPartitions | app/src/main/java/com/example/hexenapp/data/local/dao/ItemDao.kt:21-22 | `@Update` on another user's key moves that row to the item's owner. |
| ItemStore.ReplaceVersusScopedDelete | app/src/main/java/com/example/hexenapp/data/local/dao/ItemDao.kt:15-29 | Concrete case: user A's REPLACE can take over B's row, which A's scoped delete could not remove. |
| ItemStore.OneRowPerId | app/src/main/java/com/example/hexenapp/data/local/model/ItemEntity.kt:14-15 | The table never holds two rows with one id. |
| ItemDaoModel.ItemDao.constructor | app/src/main/java/com/example/hexenapp/data/local/dao/ItemDao.kt:13 | A new database has an empty, valid table. |
| ItemDaoModel.ItemDao.InsertItem | app/src/main/java/com/example/hexenapp/data/local/dao/ItemDao.kt:15-16 | Leaves exactly `Upsert(old table, item)` and returns the key written. |
| ItemDaoModel.ItemDao.InsertItems | app/src/main/java/com/example/hexenapp/data/local/dao/ItemDao.kt:18-19 | Leaves exactly `UpsertAll(old table, items)`; the elements are applied in list order. |
| ItemDaoModel.ItemDao.UpdateItem | app/src/main/java/com/example/hexenapp/data/local/dao/ItemDao.kt:21-22 | Leaves exactly `Update(old table, item)` and returns its count. |
| ItemDaoModel.ItemDao.DeleteItem | app/src/main/java/com/example/hexenapp/data/local/dao/ItemDao.kt:24-25 | Leaves exactly `DeleteByKey` and returns 1 or 0. |
| ItemDaoModel.ItemDao.DeleteItemById | app/src/main/java/com/example/hexenapp/data/local/dao/ItemDao.kt:28-29 | Leaves exactly `DeleteById` and returns its count. |
| ItemDaoModel.ItemDao.DeleteAllItemsForUser | app/src/main/java/com/example/hexenapp/data/local/dao/ItemDao.kt:32-33 | Leaves exactly `DeleteAllForUser`. |
| ItemDaoModel.ItemDao.GetAllItems | app/src/main/java/com/example/hexenapp/data/local/dao/ItemDao.kt:36-37 | Returns the user's rows, each exactly once, newest first. |
| ItemDaoModel.ItemDao.GetItemById | app/src/main/java/com/example/hexenapp/data/local/dao/ItemDao.kt:40-41 | Returns the owned row with that id, or null. |
| ItemDaoModel.ItemDao.SearchItemsByName | app/src/main/java/com/example/hexenapp/data/local/dao/ItemDao.kt:44-45 | Returns the user's rows whose name matches the LIKE pattern, each exactly once, by name. |
| ItemDaoModel.ItemDao.Select | app/src/main/java/com/example/hexenapp/data/local/dao/ItemDao.kt:36-45 | A `SELECT … WHERE sel ORDER BY le` returns every selected row once, nothing else, and in order. |
| ItemRepositoryModel.CurrentUserIdToken | app/src/main/java/com/example/hexenapp/data/repository/ItemRepository.kt:34-41 | Gives a token exactly when a user is signed in and the fetch yielded one. No user, a null token and a failed fetch all give null. |
| ItemRepositoryModel.FormatToken | app/src/main/java/com/example/hexenapp/data/repository/ItemRepository.kt:43-45 | The header is "Bearer " followed by exactly the token, and null for a null token. |
| ItemRepositoryModel.ResolveSessionSpec | app/src/main/java/com/example/hexenapp/data/repository/ItemRepository.kt:113-119 | There is a session exactly with a user and a token. The session holds the Bearer header and the user's uid. |
| ItemRepositoryModel.ServerFailureCarriesCode | app/src/main/java/com/example/hexenapp/data/repository/ItemRepository.kt:145 | A failure message starts with its prefix, and the status code, a Kotlin Int, follows it in decimal and parses back to exactly that code. |
| ItemRepositoryModel.FromServer | app/src/main/java/com/example/hexenapp/data/repository/ItemRepository.kt:74-87 | Refresh maps the server id, `user_id` and fields as they are, with both timestamps set to now. |
| ItemRepositoryModel.FromServerAll | app/src/main/java/com/example/hexenapp/data/repository/ItemRepository.kt:74-87 | Maps element by element, preserving length and order. |
| ItemRepositoryModel.FromReply | app/src/main/java/com/example/hexenapp/data/repository/ItemRepository.kt:127-136 | A reply is stored under the local uid, not the reply's `user_id`, with both timestamps set to now. |
| ItemRepositoryModel.Sent | app/src/main/java/com/example/hexenapp/data/repository/ItemRepository.kt:117-122 | An operation sends exactly one request when it has a session, and none otherwise. |
| ItemRepositoryModel.ItemRepository.constructor | app/src/main/java/com/example/hexenapp/data/repository/ItemRepository.kt:28-31 | Wraps the DAO, with no request sent yet. |
| ItemRepositoryModel.ItemRepository.RefreshItemsFromServer | app/src/main/java/com/example/hexenapp/data/repository/ItemRepository.kt:61-103 | Leaves exactly `RefreshTable` and sends `GET items` exactly when there is a session. |
| ItemRepositoryModel.ItemRepository.InsertItem | app/src/main/java/com/example/hexenapp/data/repository/ItemRepository.kt:111-152 | Returns and leaves exactly `InsertItemStep`, and sends the `POST` exactly when there is a session. |
| ItemRepositoryModel.ItemRepository.UpdateItem | app/src/main/java/com/example/hexenapp/data/repository/ItemRepository.kt:154-192 | Returns and leaves exactly `UpdateItemStep`, and sends the `PUT` exactly when there is a session. |
| ItemRepositoryModel.ItemRepository.DeleteItem | app/src/main/java/com/example/hexenapp/data/repository/ItemRepository.kt:194-219 | Returns and leaves exactly `DeleteItemStep`, and sends the `DELETE` exactly when there is a session. |
| ItemRepositoryModel.ItemRepository.GetAllItems | app/src/main/java/com/example/hexenapp/data/repository/ItemRepository.kt:51-55 | Returns the DAO query's result: the user's rows, newest first. |
| ItemRepositoryModel.ItemRepository.GetItemById | app/src/main/java/com/example/hexenapp/data/repository/ItemRepository.kt:106-109 | Returns the owned row with that id, or null. |
| ItemRepositoryModel.ItemRepository.SearchItemsByName | app/src/main/java/com/example/hexenapp/data/repository/ItemRepository.kt:233-237 | Returns the search result for the user. |
| ItemRepositoryModel.ItemRepository.DeleteAllItemsForUser | app/src/main/java/com/example/hexenapp/data/repository/ItemRepository.kt:225-231 | A local delete of the user's rows, with no request sent. |
| ItemRepositoryModel.UnauthenticatedWritesAreRejected | app/src/main/java/com/example/hexenapp/data/repository/ItemRepository.kt:117-119 | Without a session each write returns its own "not authenticated" message and leaves the table unchanged. |
| ItemRepositoryModel.InsertItemOutcome | app/src/main/java/com/example/hexenapp/data/repository/ItemRepository.kt:121-150 | Succeeds exactly on a 2xx response with a body. It then returns the reply under the local uid, stores it under the server id, and leaves other rows unchanged. Otherwise the table is unchanged. |
| ItemRepositoryModel.UpdateItemOutcome | app/src/main/java/com/example/hexenapp/data/repository/ItemRepository.kt:164-190 | Succeeds exactly on a 2xx response with a body. It then overwrites the row with the server id, whoever owns it, with `createdAt` set to now. A missing row is not inserted, though Success is still returned. |
| ItemRepositoryModel.DeleteItemOutcome | app/src/main/java/com/example/hexenapp/data/repository/ItemRepository.kt:204-217 | Succeeds exactly on a 2xx response, and then deletes only the uid's own row. Another user's row stays. |
| ItemRepositoryModel.ServerFailuresNameTheCode | app/src/main/java/com/example/hexenapp/data/repository/ItemRepository.kt:145-212 | Every non-2xx response is reported with its operation's prefix and status code. |
| ItemRepositoryModel.RefreshFailureKeepsTable | app/src/main/java/com/example/hexenapp/data/repository/ItemRepository.kt:67-102 | Without a session, on a non-2xx response, on a null body or on an exception, refresh changes nothing. |
| ItemRepositoryModel.RefreshInstallsServerItems | app/src/main/java/com/example/hexenapp/data/repository/ItemRepository.kt:89-90 | After a refresh each listed id holds the last server item with that id. |
| ItemRepositoryModel.RefreshOutsideServerIds | app/src/main/java/com/example/hexenapp/data/repository/ItemRepository.kt:89-90 | For ids the server did not list, other users' rows are kept and the uid's rows are dropped. |
| ItemRepositoryModel.RefreshSparesOthers | app/src/main/java/com/example/hexenapp/data/repository/ItemRepository.kt:61-103 | Another user's row survives any refresh unless the server listed its id. |
| ItemRepositoryModel.RefreshCanTakeOverForeignRow | app/src/main/java/com/example/hexenapp/data/repository/ItemRepository.kt:89-90 | Concrete case: a server item whose id equals another user's row replaces that row. |
| ItemViewModelModel.ItemStatus | app/src/main/java/com/example/hexenapp/ui/viewmodel/ItemViewModel.kt:110 | The status keeps the repository result's variant, payload and exception. |
| ItemViewModelModel.UnitStatus | app/src/main/java/com/example/hexenapp/ui/viewmodel/ItemViewModel.kt:145 | The same for the Unit result of delete. |
| ItemViewModelModel.UpdateRequestFor | app/src/main/java/com/example/hexenapp/ui/viewmodel/ItemViewModel.kt:123-128 | The update request carries the entity's name, description and quantity. |
| ItemViewModelModel.ItemViewModel.constructor | app/src/main/java/com/example/hexenapp/ui/viewmodel/ItemViewModel.kt:44-62 | Starts with the current uid and null status and selection. It refreshes (loading true, then false) exactly when a user is signed in. |
| ItemViewModelModel.ItemViewModel.OnAuthStateChanged | app/src/main/java/com/example/hexenapp/ui/viewmodel/ItemViewModel.kt:46-55 | Acts only when the uid changed. It then stores the new uid and refreshes only for a signed-in user. Sign-out leaves the table alone. |
| ItemViewModelModel.ItemViewModel.RefreshItems | app/src/main/java/com/example/hexenapp/ui/viewmodel/ItemViewModel.kt:85-98 | Sets loading true, then false; leaves the table as `RefreshTable`; never writes the status. |
| ItemViewModelModel.ItemViewModel.SetLoading | app/src/main/java/com/example/hexenapp/ui/viewmodel/ItemViewModel.kt:87 | Writes only the loading flag and logs the value. |
| ItemViewModelModel.ItemViewModel.InsertItem | app/src/main/java/com/example/hexenapp/ui/viewmodel/ItemViewModel.kt:100-113 | With no user: the error "Pengguna tidak login.", with no request and no loading. Otherwise it sets loading true then false, sends the create request, stores the repository result as the status, and leaves the table as `InsertItemStep`. |
| ItemViewModelModel.ItemViewModel.UpdateItem | app/src/main/java/com/example/hexenapp/ui/viewmodel/ItemViewModel.kt:115-133 | For a non-owner: the error "Operasi tidak diizinkan." and nothing else. For the owner: loading, the full PUT, and the result and table of `UpdateItemStep`. |
| ItemViewModelModel.ItemViewModel.DeleteItem | app/src/main/java/com/example/hexenapp/ui/viewmodel/ItemViewModel.kt:136-148 | The same guard, then the result and table of `DeleteItemStep`. |
| ItemViewModelModel.ItemViewModel.DeleteAllItemsForCurrentUser | app/src/main/java/com/example/hexenapp/ui/viewmodel/ItemViewModel.kt:151-164 | With no user: "Pengguna tidak login.". Otherwise the user's rows are deleted and Success(Unit) is reported. |
| ItemViewModelModel.ItemViewModel.LoadItemById | app/src/main/java/com/example/hexenapp/ui/viewmodel/ItemViewModel.kt:166-185 | The selection becomes the current user's row with that id, or null, and nothing else changes. |
| ItemViewModelModel.ItemViewModel.ClearSelectedItem | app/src/main/java/com/example/hexenapp/ui/viewmodel/ItemViewModel.kt:187-189 | Sets only the selection to null. |
| ItemViewModelModel.ItemViewModel.ClearOperationStatus | app/src/main/java/com/example/hexenapp/ui/viewmodel/ItemViewModel.kt:191-193 | Sets only the status to null. |
| ItemViewModelModel.ItemViewModel.AllItems | app/src/main/java/com/example/hexenapp/ui/viewmodel/ItemViewModel.kt:64-77 | Empty with no user. Otherwise the user's rows, newest first. |
| ItemViewModelModel.ItemViewModel.SearchItems | app/src/main/java/com/example/hexenapp/ui/viewmodel/ItemViewModel.kt:195-210 | Empty with no user. For a blank query, the same result as allItems. Otherwise the name search. |
| ItemViewModelModel.StatusIsVerbatim | app/src/main/java/com/example/hexenapp/ui/viewmodel/ItemViewModel.kt:110-145 | The insert, update and delete results, and the statuses made from them, are never Loading. An error status keeps the exception of the result it was made from. |
| AuthRepositoryModel.Wrap | app/src/main/java/com/example/hexenapp/data/repository/AuthRepository.kt:25-35 | Success exactly when the task completes, with its value; otherwise Error with its exception. Never Loading. |
| AuthRepositoryModel.VerifyResult | app/src/main/java/com/example/hexenapp/data/repository/AuthRepository.kt:62-73 | Success exactly for a completed task with an email. A missing email gives the "email tidak ditemukan" error. Never Loading. |
| AuthViewModelModel.ResetSettings | app/src/main/java/com/example/hexenapp/ui/viewmodel/AuthViewModel.kt:99-114 | The link settings: the continue URL, handled in the app, the app's package, install if missing, minimum version "1". |
| AuthViewModelModel.AuthViewModel.constructor | app/src/main/java/com/example/hexenapp/ui/viewmodel/AuthViewModel.kt:39-40 | Starts with the repository's current user, every channel null and not loading. |
| AuthViewModelModel.AuthViewModel.OnUserEmitted | app/src/main/java/com/example/hexenapp/ui/viewmodel/AuthViewModel.kt:44 | Each emitted user becomes the current user. |
| AuthViewModelModel.AuthViewModel.OnUserFlowFailed | app/src/main/java/com/example/hexenapp/ui/viewmodel/AuthViewModel.kt:43 | A failed flow sets the current user to null. |
| AuthViewModelModel.AuthViewModel.SetLoading | app/src/main/java/com/example/hexenapp/ui/viewmodel/AuthViewModel.kt:50 | Writes only the loading flag. |
| AuthViewModelModel.AuthViewModel.SetAuth | app/src/main/java/com/example/hexenapp/ui/viewmodel/AuthViewModel.kt:51 | Writes only the auth channel. |
| AuthViewModelModel.AuthViewModel.Call | app/src/main/java/com/example/hexenapp/ui/viewmodel/AuthViewModel.kt:52 | A Firebase request changes no state; it is only logged. |
| AuthViewModelModel.AuthViewModel.RunAuth | app/src/main/java/com/example/hexenapp/ui/viewmodel/AuthViewModel.kt:48-76 | The sequence is: loading on, auth channel Loading, the call, the result, loading off. Only that channel and the flag change, and no channel is left Loading. |
| AuthViewModelModel.AuthViewModel.RegisterUser | app/src/main/java/com/example/hexenapp/ui/viewmodel/AuthViewModel.kt:48-56 | That protocol, with createUser. |
| AuthViewModelModel.AuthViewModel.LoginUser | app/src/main/java/com/example/hexenapp/ui/viewmodel/AuthViewModel.kt:58-66 | That protocol, with signIn. |
| AuthViewModelModel.AuthViewModel.SignInWithGoogle | app/src/main/java/com/example/hexenapp/ui/viewmodel/AuthViewModel.kt:68-76 | That protocol, with signInWithCredential. |
| AuthViewModelModel.AuthViewModel.LogoutUser | app/src/main/java/com/example/hexenapp/ui/viewmodel/AuthViewModel.kt:78-91 | Whether the Google sign-out completes or throws, Firebase signs out, authResult ends null and loading ends false. |
| AuthViewModelModel.AuthViewModel.SendPasswordResetEmail | app/src/main/java/com/example/hexenapp/ui/viewmodel/AuthViewModel.kt:94-120 | The same protocol on the reset channel only, sending the reset settings. |
| AuthViewModelModel.AuthViewModel.VerifyPasswordResetCode | app/src/main/java/com/example/hexenapp/ui/viewmodel/AuthViewModel.kt:128-136 | The same protocol on the verify channel only. |
| AuthViewModelModel.AuthViewModel.ConfirmPasswordReset | app/src/main/java/com/example/hexenapp/ui/viewmodel/AuthViewModel.kt:138-146 | The same protocol on the confirm channel only. |
| AuthViewModelModel.AuthViewModel.ClearAuthResult | app/src/main/java/com/example/hexenapp/ui/viewmodel/AuthViewModel.kt:148 | Sets only authResult to null. |
| AuthViewModelModel.AuthViewModel.ClearResetPasswordResult | app/src/main/java/com/example/hexenapp/ui/viewmodel/AuthViewModel.kt:149 | Sets only resetPasswordResult to null. |
| AuthViewModelModel.AuthViewModel.ClearVerifyCodeResult | app/src/main/java/com/example/hexenapp/ui/viewmodel/AuthViewModel.kt:150 | Sets only verifyCodeResult to null. |
| AuthViewModelModel.AuthViewModel.ClearConfirmResetResult | app/src/main/java/com/example/hexenapp/ui/viewmodel/AuthViewModel.kt:151 | Sets only confirmResetResult to null. |
| AuthViewModelModel.AuthProtocolShape | app/src/main/java/com/example/hexenapp/ui/viewmodel/AuthViewModel.kt:50-54 | Replaying the operation's events from any state gives the state the operation leaves, and from a settled state no intermediate state has loading off while a channel holds Loading. |
| AddEditItemScreenModel.QuantityOf | app/src/main/java/com/example/hexenapp/ui/screens/items/AddEditItemScreen.kt:164 | `toIntOrNull() ?: 0`: the parsed value, or 0 when the text does not parse. |
| AddEditItemScreenModel.SubmitDecisionSpec | app/src/main/java/com/example/hexenapp/ui/screens/items/AddEditItemScreen.kt:162-186 | A blank name dispatches nothing. A loaded item in edit mode is updated with only name, description and quantity replaced. Every other case inserts the typed name and quantity. In both, a blank description is sent as null and any other one as typed. |
| AddEditItemScreenModel.TypedQuantityIsNonNegative | app/src/main/java/com/example/hexenapp/ui/screens/items/AddEditItemScreen.kt:151-164 | A typed quantity is never negative. It is its decimal value when that fits in Int, and 0 when the field is empty or the value is too large. |
| AddEditItemScreenModel.LoadSubmitRoundTrip | app/src/main/java/com/example/hexenapp/ui/screens/items/AddEditItemScreen.kt:68-174 | Loading an item and submitting it unchanged updates it to itself, except that a blank description becomes null. |
| AddEditItemScreenModel.StatusReactionSpec | app/src/main/java/com/example/hexenapp/ui/screens/items/AddEditItemScreen.kt:83-102 | Success clears the status and leaves the screen. Error shows "Error: " + message and clears. Loading and null do nothing. |
| AddEditItemScreenModel.AddEditItemForm.constructor | app/src/main/java/com/example/hexenapp/ui/screens/items/AddEditItemScreen.kt:40-46 | Empty fields, in add mode. |
| AddEditItemScreenModel.AddEditItemForm.OnItemIdChanged | app/src/main/java/com/example/hexenapp/ui/screens/items/AddEditItemScreen.kt:52-64 | An id switches to edit mode and loads the current user's row with that id. No id resets the form and clears the selection. A malformed id, on which `toInt` throws, is reported as `parsed` false and loads nothing. |
| AddEditItemScreenModel.AddEditItemForm.OnSelectedItemChanged | app/src/main/java/com/example/hexenapp/ui/screens/items/AddEditItemScreen.kt:68-80 | In edit mode it fills the form from the selected item. In add mode with no id it resets the form. Otherwise nothing changes. |
| AddEditItemScreenModel.AddEditItemForm.OnNameChange | app/src/main/java/com/example/hexenapp/ui/screens/items/AddEditItemScreen.kt:133 | Writes only the name. |
| AddEditItemScreenModel.AddEditItemForm.OnDescriptionChange | app/src/main/java/com/example/hexenapp/ui/screens/items/AddEditItemScreen.kt:142 | Writes only the description. |
| AddEditItemScreenModel.AddEditItemForm.OnQuantityChange | app/src/main/java/com/example/hexenapp/ui/screens/items/AddEditItemScreen.kt:151 | The field becomes the typed text's digits, and it always holds only digits. |
| AddEditItemScreenModel.AddEditItemForm.Submit | app/src/main/java/com/example/hexenapp/ui/screens/items/AddEditItemScreen.kt:162-188 | Dispatches what `SubmitDecision` says; the button is disabled while loading. A rejection changes nothing. An insert with no user, or an update by a non-owner, only sets the view model's refusal error. Otherwise loading goes true then false, the POST carries the typed fields (the PUT the whole edited entity), and the status and table are those of the repository step. |
| AddEditItemScreenModel.AddEditItemForm.HandleOperationStatus | app/src/main/java/com/example/hexenapp/ui/screens/items/AddEditItemScreen.kt:83-102 | Reacts as `StatusReaction` and clears the status exactly when it is terminal. |
| ResetPasswordConfirmScreenModel.ResetDecisionSpec | app/src/main/java/com/example/hexenapp/ui/screens/auth/ResetPasswordConfirmScreen.kt:209-252 | The reset is confirmed exactly when both fields are non-blank and equal, with the new password. A blank field gives "Password tidak boleh kosong"; unequal fields give "Password baru tidak cocok!". |
| ResetPasswordConfirmScreenModel.MismatchFlagVersusSubmit | app/src/main/java/com/example/hexenapp/ui/screens/auth/ResetPasswordConfirmScreen.kt:228-232 | The flag raises for " " against "  ", which submitting calls empty. On non-blank fields, the flag and the mismatch message agree. |
| ResetPasswordConfirmScreenModel.PanelSpec | app/src/main/java/com/example/hexenapp/ui/screens/auth/ResetPasswordConfirmScreen.kt:142-262 | Each panel's exact condition, and the error panel's text (the stored error or the default one). On the form the button is always enabled. |
| ResetPasswordConfirmScreenModel.ConfirmReactionSpec | app/src/main/java/com/example/hexenapp/ui/screens/auth/ResetPasswordConfirmScreen.kt:90-107 | Success goes to login and clears. Error reports "Gagal mereset password: " + message and clears. Loading and null do nothing. |
| ResetPasswordConfirmScreenModel.ResetPasswordForm.constructor | app/src/main/java/com/example/hexenapp/ui/screens/auth/ResetPasswordConfirmScreen.kt:45-51 | Empty fields, not verified, no error, no email. |
| ResetPasswordConfirmScreenModel.ResetPasswordForm.OnOobCode | app/src/main/java/com/example/hexenapp/ui/screens/auth/ResetPasswordConfirmScreen.kt:59-66 | A present code is verified through the view model. A missing one stores "Kode reset password tidak valid atau hilang." and calls nothing. |
| ResetPasswordConfirmScreenModel.ResetPasswordForm.OnVerifyCodeResult | app/src/main/java/com/example/hexenapp/ui/screens/auth/ResetPasswordConfirmScreen.kt:69-87 | Success marks the code verified, keeps the email, clears the error and shows a toast. Error stores "Gagal memverifikasi kode: " + message and marks it unverified. Both clear the channel. |
| ResetPasswordConfirmScreenModel.ResetPasswordForm.OnConfirmResetResult | app/src/main/java/com/example/hexenapp/ui/screens/auth/ResetPasswordConfirmScreen.kt:90-108 | Reacts as `ConfirmReactionFor` and clears the confirm channel exactly when it is terminal. |
| ResetPasswordConfirmScreenModel.ResetPasswordForm.OnNewPasswordChange | app/src/main/java/com/example/hexenapp/ui/screens/auth/ResetPasswordConfirmScreen.kt:176 | Writes only the new-password field. |
| ResetPasswordConfirmScreenModel.ResetPasswordForm.OnConfirmPasswordChange | app/src/main/java/com/example/hexenapp/ui/screens/auth/ResetPasswordConfirmScreen.kt:200 | Writes only the confirmation field. |
| ResetPasswordConfirmScreenModel.ResetSubmitPathsAgree | app/src/main/java/com/example/hexenapp/ui/screens/auth/ResetPasswordConfirmScreen.kt:209-252 | The Done key and the button apply the same rule. Only the button is unavailable while loading. |
| ResetPasswordConfirmScreenModel.ResetPasswordForm.Submit | app/src/main/java/com/example/hexenapp/ui/screens/auth/ResetPasswordConfirmScreen.kt:209-252 | Through a usable path, calls `confirmPasswordReset(code, newPassword)` exactly when `ResetDecision` says so, with the view model's protocol on the confirm channel. Anything else changes nothing. |
| RegisterScreenModel.RegisterDecisionSpec | app/src/main/java/com/example/hexenapp/ui/screens/auth/RegisterScreen.kt:166-203 | registerUser runs exactly when all three fields are non-blank and the passwords are equal. Unequal passwords give "Password tidak cocok!"; any blank field gives "Semua field harus diisi". |
| RegisterScreenModel.SubmitPathsAgree | app/src/main/java/com/example/hexenapp/ui/screens/auth/RegisterScreen.kt:166-203 | The Done key and the button apply the same rule. Only the button is unavailable while loading. |
| RegisterScreenModel.RegisterReactionSpec | app/src/main/java/com/example/hexenapp/ui/screens/auth/RegisterScreen.kt:58-75 | Success goes to the item list and clears. Error reports "Registrasi gagal: " + message and clears. Loading and null do nothing. |
| RegisterScreenModel.HandleAuthResult | app/src/main/java/com/example/hexenapp/ui/screens/auth/RegisterScreen.kt:58-75 | Reacts as `RegisterReactionFor` and clears authResult exactly when it is terminal. |
| RegisterScreenModel.SubmitRegistration | app/src/main/java/com/example/hexenapp/ui/screens/auth/RegisterScreen.kt:166-203 | A registration runs the view model's auth protocol with createUser on the typed email and password. Anything else changes nothing. |
| AppNavigationModel.ReplaceAllSkips | app/src/main/java/com/example/hexenapp/ui/navigation/AppNavigation.kt:34 | A prefix without the pattern's first character passes `replace` unchanged. |
| AppNavigationModel.RouteIsTemplateInstance | app/src/main/java/com/example/hexenapp/ui/navigation/AppNavigation.kt:34-39 | The template with "{itemId}" replaced by the id is the built route. |
| AppNavigationModel.AddEditItemRouteSpec | app/src/main/java/com/example/hexenapp/ui/navigation/AppNavigation.kt:36-42 | Null gives exactly "add_edit_item" and an id gives "add_edit_item?itemId=" + id. Every route starts with the base, and the id argument read back from the route is the one it was built from. |
| AppNavigationModel.AddEditItemRouteInjective | app/src/main/java/com/example/hexenapp/ui/navigation/AppNavigation.kt:36-42 | Distinct ids, or an id and null, give distinct routes. |
| AppNavigationModel.SplashDecisionSpec | app/src/main/java/com/example/hexenapp/ui/navigation/AppNavigation.kt:62-81 | A signed-in user goes to the item list. Otherwise login is shown exactly for a non-null route outside the reset flow, and a null route causes no navigation. |
| AppNavigationModel.SplashKeepsResetDeepLink | app/src/main/java/com/example/hexenapp/ui/navigation/AppNavigation.kt:72-73 | A signed-out user on a reset-password route stays there, while one on the splash route goes to login. |
| AppNavigationModel.GuardsSpec | app/src/main/java/com/example/hexenapp/ui/navigation/AppNavigation.kt:113-149 | Both item destinations render exactly with a signed-in user and otherwise go to login. A signed-in user reaches the form with the id its route was built with; a signed-out one never reaches it. |

## Left out

- Coroutines and reactive plumbing are not modelled. `withContext`, `viewModelScope.launch`, `flatMapLatest`, `stateIn`, `collectAsState`, `LaunchedEffect` and `callbackFlow` are concurrency. Each launch is one sequential step, and each Flow is a snapshot query.
- ItemRepositoryModel.ItemRepository.RefreshItemsFromServer: refresh is not atomic. The delete and the insert are two DAO calls with no transaction, and the model does not claim more.
- Firebase Auth, Google Identity, Retrofit, OkHttp and Gson are foreign calls. Their outcomes are parameters (`FirebaseUser`, `TaskOutcome`, `ApiOutcome`).
- The identity provider's current user is read twice by each repository operation (token and uid). The model takes one snapshot for both reads.
- `System.currentTimeMillis()` is the parameter `now`, and one `now` stands for every clock read of one operation. The two reads of one entity's default arguments get the same value, and a refresh stamps every server item with the same `createdAt` and `updatedAt`, where the code may stamp later items of the list later. The order of `createdAt` ties is left open by the query results, so no order among refreshed rows is claimed.
- Exceptions thrown by Room itself (disk, constraint) are not modelled. The `catch` in `ItemViewModel.refreshItems` can then never fire, because the repository catches everything itself.
- Kotlin's `isDigit` and `toIntOrNull` accept every Unicode decimal digit. The model accepts ASCII digits only.
- Entity ids are unbounded integers. A generated key above the 32-bit Int range, which the Kotlin `Long` row id would expose, is not modelled.
- ItemDaoModel.ItemDao.InsertItem: with a server id of 0, Room generates a key. The entity the repository returns keeps id 0, and the model shows that too.
- AddEditItemScreenModel.AddEditItemForm.OnItemIdChanged: on a malformed id, `itemId.toInt()` throws NumberFormatException out of the effect and the app crashes. The model does not crash; it reports the throw as `parsed` false and loads nothing. The app itself builds this route only from `item.id.toString()` (ItemListScreen.kt:176-179), so its own navigation never produces a malformed id.
- The add/edit form's text fields are disabled while loading. The model's field handlers accept an edit at any time.
- `ApiService.getItemById` is never called by the repository and is not part of this model.
- `Log.*` calls are not modelled.
- Toasts, snackbars and panels are modelled as the messages and decisions they show, not as rendering. The password-visibility toggles, titles and theming are not modelled.
- The reset screen's "Kembali ke Login" buttons are plain navigation and are not modelled.
- `LoginScreen.kt`, `ForgotPasswordScreen.kt`, `ItemListScreen.kt`, `SplashScreen.kt` and `MainActivity.kt` (deep links) are not part of this model.
- `popUpTo` and `launchSingleTop` are recorded only as the pop target of the guard redirects. The back stack itself is not modelled.
- AppNavigationModel.ItemIdArgument: Navigation's URL encoding and decoding of the argument is not modelled. The read-back id is the plain text after `itemId=`.
- Text.LexLe and Text.Like cover well-formed text only. A Dafny `char` is a Unicode scalar value, and code-point order is UTF-8 byte order, so on such text `LexLe` is the BINARY order and `Like` matches character by character as SQLite does. A Kotlin `String` is UTF-16 and may hold unpaired surrogates, which no Dafny `char` represents; names holding them are not modelled.
