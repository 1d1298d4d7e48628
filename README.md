# Coin catalog: a verified model of the collection, catalog and configuration core

This project models the core of a coin-catalog mobile and web application in Dafny. Users browse a
catalog of Russian coins (countries, periods, rulers, coins) and keep a personal collection with
a wishlist. The collection is offline first: records live in memory on the device, are flagged
`needsSync` when they change, and are pushed to and pulled from one Firestore document per user.
The model covers these parts:

- **The user's collection.** `UserCoin` records (`user_coin.dfy`) and the in-memory
  `UserCollectionService` (`collection_service.dfy`). The service holds its records as a list of
  mutable objects and changes them in place. Each of its methods is tied to a pure function over
  record values:
  - `store_ops.dfy` holds the local add, update, move, remove and list operations.
  - `remote_merge.dfy` holds how one record or a batch is merged into the server document.
  - `pull.dfy` holds how the server document is pulled back into the local list.
- **The catalog reader.** `FirestoreCatalog` (`catalog_service.dfy`) has per-query caches, the
  denomination classifier and the denomination groups. The catalog entities are `Coin`,
  `Country`, `Period` and `Ruler` (`coin.dfy`, `country.dfy`, `period.dfy`, `ruler.dfy`).
- **The Numista importer.** `NumistaClient` (`numista.dfy`) has a request budget of 2000, the
  paged harvest of coins within a reign, and the conversion of Numista types into catalog coins.
- **Configuration.** The coercions both configuration files share (`js_values.dfy`) and the build-time
  `extra` block (`app_config.dfy`). The runtime settings derived from it (`runtime_config.dfy`)
  include address normalisation, private-host detection and the unsafe-production-address flag.
- **The HTTP helper.** `network.dfy` covers how a response becomes a parsed body or an error,
  and the text shown to the user.
- **The registration form.** `register.dfy` covers the arithmetic captcha and the field checks
  run before an account is created.

The model has no I/O of its own; everything outside is passed in as a parameter:

- The clock is a `now: int` timestamp.
- Random identifiers and captcha numbers are passed as arguments.
- Firestore reads and writes are a `RemoteStore` object whose calls may fail.
- The result of `fetch` is a `Transport` value.
- `JSON.parse` is a function argument.
- The `_canSync()` connectivity test is a boolean.

Shared pieces:

- `wrappers.dfy` holds `Option`, `Result` and JavaScript truthiness on optional fields.
- `text.dfy` holds `trim`, `toLowerCase`, substring search, decimal printing and `parseInt`.

## Model

| member | source | states |
|---|---|---|
| UserCoins.NewRecord | models/UserCoin.js:5-30 | The constructor keeps the identity, the catalog reference and the three flags, and defaults `createdAt` to the clock. It maps falsy optional fields to `null`, so the record is normalised. Truthy notes and prices are kept. |
| UserCoins.CopyIsIdentity | models/UserCoin.js:5-30 | Constructing a record from the fields of a normalised record gives that record back. |
| UserCoins.Copied | services/UserCollectionService.js:363-366 | A copy through the constructor keeps the identity, the flags and the times. Its notes, price, condition and grade go through `|| null`, so '' and 0 become `null`. The copy is normalised, and a normalised record is its own copy. |
| UserCoins.ApplyPatch | models/UserCoin.js:212-221 | An update never touches identity, owner, catalog reference, wishlist flag, creation time, deletion flag, timestamps, sync flag or the attached catalog coin. |
| UserCoins.PatchSetsDefinedFields | models/UserCoin.js:212-221 | Each of the nine editable fields takes the patch's value when the patch defines it, and keeps the old value when it is `undefined`. |
| UserCoins.PatchIdempotent | models/UserCoin.js:212-221 | Applying the same patch twice gives the same record as applying it once. |
| UserCoins.Updated | models/UserCoin.js:212-225 | After `update`, the record needs sync and is stamped with the time. Its identity, catalog reference, creation time, wishlist and deletion flags are unchanged. |
| UserCoins.EmptyUpdateOnlyMarks | models/UserCoin.js:187-190 | An update with no defined field is exactly `markForSync`. |
| UserCoins.MarkedForSync | models/UserCoin.js:187-190 | `markForSync` sets `needsSync` and `updatedAt` and changes nothing else. |
| UserCoins.MarkedSynced | models/UserCoin.js:195-198 | `markAsSynced` clears `needsSync` and sets `syncedAt`, nothing else. |
| UserCoins.MarkedDeleted | models/UserCoin.js:203-207 | `markAsDeleted` sets the deletion flag, needs sync and stamps `updatedAt`; it changes nothing else. |
| UserCoins.SyncedAfterMarking | models/UserCoin.js:187-207 | Syncing after an update or a deletion clears the sync flag. It keeps the update's time and the deletion flag. |
| UserCoins.Validate | models/UserCoin.js:230-238 | A record is valid exactly when it has an id, a catalog id and no negative truthy price. A missing id gives the first error message, and the price error implies a negative price. |
| UserCoins.Flag | models/UserCoin.js:42-63 | A boolean is stored as 1 exactly when it is true, else 0. |
| UserCoins.ToDatabase | models/UserCoin.js:42-63 | The database row stores the wishlist, sync and deletion flags as 0/1. |
| UserCoins.DatabaseRoundTrip | models/UserCoin.js:35-63 | Reading back a written row gives a normalised record unchanged, except that the attached catalog coin is not stored. |
| UserCoins.GetCurrentValue | models/UserCoin.js:156-162 | There is a current value exactly when the catalog coin has both estimate bounds. It is then the coin's estimated value. |
| UserCoins.GetProfitLoss | models/UserCoin.js:167-172 | There is a profit exactly when both the price and the current value are truthy. Price plus profit is the current value. |
| UserCoins.UserCoin.constructor | models/UserCoin.js:5-30 | The new object's state is the constructed record. |
| UserCoins.UserCoin.MarkForSync | models/UserCoin.js:187-190 | The object's new state is the marked record. |
| UserCoins.UserCoin.MarkAsSynced | models/UserCoin.js:195-198 | The object's new state is the synced record. |
| UserCoins.UserCoin.MarkAsDeleted | models/UserCoin.js:203-207 | The object's new state is the deleted record. |
| UserCoins.UserCoin.SetEditable | models/UserCoin.js:213-221 | The nine editable fields of the object are overwritten from the given record, in place. Nothing else changes. |
| UserCoins.UserCoin.Update | models/UserCoin.js:212-225 | The object's new state is the updated record. |
| Store.NewCoinRecord | services/UserCollectionService.js:159-177 | A new coin has the generated id, the catalog id, the wishlist flag and the creation time. It needs sync and is not deleted. It is valid exactly when the id and catalog id are non-empty and the price is not negative. |
| Store.DropWishlistTwins | services/UserCollectionService.js:181-185 | The records kept are exactly those that are not wishlist entries for the same catalog coin. The result is the order-keeping filter `Sequences.Select` with that test, so order and multiplicity are kept. |
| Store.AddRecord | services/UserCollectionService.js:181-187 | The new record is last. |
| Store.AddOwnedPurgesWishlist | services/UserCollectionService.js:181-187 | Adding an owned coin removes every wishlist twin of it and keeps every other record. Nothing else enters the list. |
| Store.AddWishlistAppends | services/UserCollectionService.js:181-187 | Adding a wishlist coin only appends it. |
| Store.OwnedCountDrop | services/UserCollectionService.js:181-185 | Dropping wishlist twins does not change how many owned copies of the coin there are. |
| Store.OwnedCountAppend | services/UserCollectionService.js:187 | Appending a record adds one owned copy exactly when it is an owned copy of that coin. |
| Store.AddOwnedCountsUp | services/UserCollectionService.js:181-187 | Adding an owned coin raises its owned count by exactly one, so duplicates are allowed. |
| Store.FindById | services/UserCollectionService.js:233 | The first record with the id, or none exactly when no record has it. |
| Store.FindByCatalog | services/UserCollectionService.js:285 | The first record with the catalog id, or none exactly when no record has it. |
| Store.UpdateById | services/UserCollectionService.js:229-242 | It fails with "UserCoin not found" exactly when no record has the id. Otherwise it replaces the first record with that id by its updated form and keeps the length. |
| Store.UpdateTouchesOne | services/UserCollectionService.js:229-242 | A successful update marks the first record with the id for sync, keeps its wishlist flag and catalog id, and leaves every other record equal. |
| Store.MoveById | services/UserCollectionService.js:469-481 | Moving keeps the length. An unknown id changes nothing, and records with other ids are unchanged. |
| Store.MoveMakesOwned | services/UserCollectionService.js:473-476 | The first record with the id becomes owned, needs sync and is stamped with the time; it changes nothing else. |
| Store.DeleteByCatalog | services/UserCollectionService.js:287-289 | The records kept are exactly those with a different catalog id, as the order-keeping filter `Sequences.Select`. An absent catalog id changes nothing. |
| Store.Dirty | services/UserCollectionService.js:664 | The batch to sync is exactly the records that need sync, in store order: it equals the order-keeping filter `Sequences.Select` on `needsSync`. |
| Store.MarkAllSynced | services/UserCollectionService.js:725 | Every record is replaced by its synced form, and the length is kept. |
| Store.MarkAllSyncedCleans | services/UserCollectionService.js:725 | After marking, nothing needs sync. Only the sync flag and sync time changed, and clean records are untouched. |
| Store.NothingDirty | services/UserCollectionService.js:664 | With every record clean, the batch is empty. |
| Store.CleanListHasNoBatch | services/UserCollectionService.js:672-675 | With every record clean, there is no batch and marking changes nothing. |
| Store.VisibleRecords | services/UserCollectionService.js:355-357 | The listed records are exactly those in the list that are not deleted and are on the requested side (owned or wishlist). The result is the order-keeping filter `Sequences.Select` with that test. |
| Store.InsertByCreated | services/UserCollectionService.js:370 | Insertion adds exactly the one record. |
| Store.InsertBelow | services/UserCollectionService.js:370 | Insertion keeps every record at or before a time bound. |
| Store.InsertKeepsOrder | services/UserCollectionService.js:370 | Insertion into a newest-first list keeps it newest first. |
| Store.SortNewestFirst | services/UserCollectionService.js:370 | The sort is a permutation and is ordered newest first. |
| Store.SortKeepsTies | services/UserCollectionService.js:370 | The sort is stable: records with the same creation time keep their relative order. |
| Store.ListingIsExact | services/UserCollectionService.js:350-370 | The listing is newest first and a permutation of the copies of the visible records. A record is listed exactly when it is the copy of a visible record, and every listed record is visible and normalised. |
| Store.ListingKeepsTies | services/UserCollectionService.js:350-370 | Listed copies with the same creation time are in the order of the stored list. |
| Store.ListingOfNormalized | services/UserCollectionService.js:350-370 | When every stored record is normalised, the listing is a permutation of the visible records themselves. |
| Store.HasVisible | services/UserCollectionService.js:436-440 | True exactly when a visible record on that side has the catalog id. |
| Store.InCollectionMatchesListing | services/UserCollectionService.js:431-442 | The "owned" and "wishlisted" answers agree with the two listings. |
| Store.AddedCoinIsOwned | services/UserCollectionService.js:181-187 | After an owned coin is added, the coin counts as owned and not wishlisted. |
| Store.RemovedCoinIsAbsent | services/UserCollectionService.js:287-289 | After removal the coin is neither owned nor wishlisted. |
| RemoteMerge.ToRemote | services/UserCollectionService.js:606-623 | The server entry carries the record's ids, wishlist flag, purchase date and creation time, and is stamped with the push time. Notes become '' when falsy. Condition, grade, price, both images, weight and diameter are each the record's field through `|| null`. |
| RemoteMerge.FindMatch | services/UserCollectionService.js:626-628 | The first server entry matching the record's id or catalog id, or none exactly when no entry matches. |
| RemoteMerge.DropMatches | services/UserCollectionService.js:601-603 | The entries kept are exactly those that do not match the record, in order: it equals the order-keeping filter `Sequences.Select`. |
| RemoteMerge.MergeRecord | services/UserCollectionService.js:599-634 | A deleted record removes every matching entry and nothing else. A live record replaces the first matching entry (no earlier entry matches) and keeps the length, or is appended when nothing matches. Its server form is always present afterwards. |
| RemoteMerge.MergeKeepsUnrelated | services/UserCollectionService.js:599-634 | An entry that does not match the record survives the merge. |
| RemoteMerge.DropMatchesIdempotent | services/UserCollectionService.js:601-603 | Dropping matches twice is the same as dropping them once. |
| RemoteMerge.MergeIdempotent | services/UserCollectionService.js:599-634 | Merging the same record twice at the same time gives the same document as merging once. |
| RemoteMerge.FindMatchFirst | services/UserCollectionService.js:626-628 | The found index is the first matching position. |
| RemoteMerge.BatchMerge | services/UserCollectionService.js:689-723 | The batch merge adds at most one entry per record. |
| RemoteMerge.BatchOfOne | services/UserCollectionService.js:689-723 | A batch of one record merges exactly as the single-record sync does (lines 599-634). |
| RemoteMerge.BatchAppend | services/UserCollectionService.js:689-723 | The batch merges its records one after another, in list order. |
| RemoteMerge.BatchContainsLastLive | services/UserCollectionService.js:689-723 | The last live record of a batch is present in the resulting document. |
| RemoteMerge.BatchOfDeletions | services/UserCollectionService.js:689-723 | A batch of deletions leaves no entry matching any of them, and adds nothing. |
| Pull.ServerKey | services/UserCollectionService.js:793 | A server entry is keyed by its catalog id, or by its `coinId` when the catalog id is falsy. |
| Pull.ServerData | services/UserCollectionService.js:796-807 | The pulled data keeps the server's wishlist flag and purchase date. Notes are the server's when truthy and '' otherwise. Condition, grade, price, both images, weight and diameter are each the server's field through `|| null`. |
| Pull.UpdateLocal | services/UserCollectionService.js:852-859 | The first record with the id becomes `MarkedSynced(Updated(record, patch, now), now)`: it gets the patch's fields and is marked synced at the time, keeping its wishlist flag and catalog id. Every other record is unchanged, and an unknown id changes nothing. |
| Pull.FailureIsFinal | services/UserCollectionService.js:792-824 | Once one server entry fails to add, no later entry is applied. |
| Pull.PullAddsNext | services/UserCollectionService.js:792-824 | The pull processes server entries one at a time, in order, and stops at the first failure. |
| Pull.EmptyServerKeepsAll | services/UserCollectionService.js:829-839 | An empty server document changes nothing locally. |
| Pull.PullAddsMissing | services/UserCollectionService.js:809-812 | A server entry with no local twin is added as a synced local record with a fresh id, the server key and the server's wishlist flag. No unrelated record is lost. |
| Pull.PullStopsOnMissingKey | services/UserCollectionService.js:809-812 | An entry whose key is falsy fails validation and stops the pull. |
| Pull.PullUpdateRule | services/UserCollectionService.js:815-822 | An entry with a local twin changes nothing unless the update rule holds. When the rule holds, the twin becomes `MarkedSynced(Updated(twin, ServerPatch(entry), now), now)`: it takes the server's purchase date and notes, keeps its wishlist flag and becomes synced. |
| Pull.NewerServerOverwritesDirty | services/UserCollectionService.js:815-822 | A newer server entry overwrites a local record that still has unsynced changes: the record becomes `MarkedSynced(Updated(record, ServerPatch(entry), now), now)` and differs from what it was. |
| Pull.DeletesKeepListed | services/UserCollectionService.js:829-839 | The deletion pass removes records only, and never one whose catalog id is on the server. |
| Pull.DeletesUnlisted | services/UserCollectionService.js:829-839 | A clean local record whose catalog id is absent from the server loses every record with that catalog id. |
| Pull.DeletesOnlyClean | services/UserCollectionService.js:829-839 | Every removed record shares its catalog id with a clean local record that the server no longer lists. |
| Pull.PullIntoEmpty | services/UserCollectionService.js:792-847 | Pulling one remote entry with a usable key into an empty list gives exactly its new clean record and nothing else. |
| Pull.PushPullRoundTrip | services/UserCollectionService.js:581-847 | Pushing a live valid record to an empty document and pulling it into an empty device gives one synced record. It has the same catalog id, wishlist flag and editable fields. |
| CollectionService.DropTwinObjectsSnapshot | services/UserCollectionService.js:181-185 | Filtering the objects drops exactly the records `DropWishlistTwins` drops. |
| CollectionService.DeleteCatalogObjectsSnapshot | services/UserCollectionService.js:287-289 | Filtering the objects drops exactly the records `DeleteByCatalog` drops. |
| CollectionService.DropWishlistTwinObjects | services/UserCollectionService.js:181-185 | The kept objects come from the list, and no object appears twice. |
| CollectionService.DeleteCatalogObjects | services/UserCollectionService.js:287-289 | The kept objects come from the list, have another catalog id, and no object appears twice. |
| CollectionService.RemoteStore.Read | services/UserCollectionService.js:594-597 | A successful read returns the user's stored coins, or none for a missing document. |
| CollectionService.RemoteStore.Write | services/UserCollectionService.js:638-642 | A successful write replaces the user's document and nothing else. A failed write changes nothing. |
| CollectionService.UserCollectionService.constructor | services/UserCollectionService.js:14-25 | A new service has an empty list, the given user and is not loading. |
| CollectionService.UserCollectionService.SyncToServer | services/UserCollectionService.js:581-649 | Either nothing changes, or the merged document is written and the coin is marked synced. Without a user or connectivity nothing changes. |
| CollectionService.UserCollectionService.SyncAt | services/UserCollectionService.js:581-649 | The same, for the record at a position of the list. |
| CollectionService.UserCollectionService.PushCoin | services/UserCollectionService.js:181-187 | The list becomes `AddRecord` of the old list and the new coin, with the coin last. |
| CollectionService.UserCollectionService.AddValidated | services/UserCollectionService.js:181-221 | While loading from the server, the coin is stored already synced and nothing is written. Otherwise it is stored and either left dirty, or synced and merged into the server document. |
| CollectionService.UserCollectionService.AddCoin | services/UserCollectionService.js:156-224 | It fails with the validation message exactly when the new record is invalid, and then changes nothing. Otherwise the record is added as `AddValidated` states. |
| CollectionService.UserCollectionService.UpdateCoin | services/UserCollectionService.js:229-242 | It fails with "UserCoin not found" exactly when the id is absent. Otherwise the list becomes the `UpdateById` result, optionally synced and pushed. |
| CollectionService.UserCollectionService.DropCatalogCoin | services/UserCollectionService.js:285-289 | The list becomes `DeleteByCatalog`. It returns the first removed object, or null exactly when none matched. |
| CollectionService.UserCollectionService.RemoveCoin | services/UserCollectionService.js:280-300 | The list becomes `DeleteByCatalog`. The removed coin, marked deleted, is merged into the server document or nothing is written. |
| CollectionService.UserCollectionService.GetUserCoins | services/UserCollectionService.js:350-370 | The listing is newest first and a permutation of the constructor copies of the visible records on the requested side. Every listed record is visible and normalised. |
| CollectionService.UserCollectionService.IsInCollection | services/UserCollectionService.js:431-442 | Owned and wishlisted hold exactly when a visible record of that coin exists on that side. |
| CollectionService.UserCollectionService.MoveToCollection | services/UserCollectionService.js:469-481 | An unknown id changes nothing. Otherwise the list becomes `MoveById`, optionally synced and pushed. |
| CollectionService.UserCollectionService.ClearAll | services/UserCollectionService.js:508-532 | The list is empty. The server document is either unchanged or replaced by an empty one. |
| CollectionService.UserCollectionService.MarkSyncedAt | services/UserCollectionService.js:725 | Exactly one position becomes its synced form. |
| CollectionService.UserCollectionService.MergeAndMarkDirty | services/UserCollectionService.js:689-726 | The loop yields the batch merge of the dirty records and leaves every record marked synced. |
| CollectionService.UserCollectionService.PushDirty | services/UserCollectionService.js:680-731 | One read, one merge and one write: either nothing changes, or every record is synced and the document is left as it was (failed write) or becomes the batch merge of the dirty records into what was stored. |
| CollectionService.UserCollectionService.SyncAll | services/UserCollectionService.js:654-750 | Without connectivity or without dirty records nothing changes. Otherwise either nothing changes, or every record is synced and the document becomes the batch merge (or the write fails and is left as it was). |
| CollectionService.UserCollectionService.UpdateLocalCoin | services/UserCollectionService.js:852-859 | The list becomes `UpdateLocal` of the old list. |
| CollectionService.UserCollectionService.DeleteLocalCoin | services/UserCollectionService.js:891-896 | The list becomes `DeleteByCatalog` of the old list. |
| CollectionService.UserCollectionService.ApplyRemoteEntry | services/UserCollectionService.js:792-823 | It succeeds exactly when the pull step succeeds, and the list becomes its result. It never writes to the server. |
| CollectionService.UserCollectionService.ApplyRemoteEntries | services/UserCollectionService.js:792-824 | The loop's list and failure flag are those of `PullAdds`. |
| CollectionService.UserCollectionService.DropRemoteDeleted | services/UserCollectionService.js:829-839 | The list becomes `PullDeletes` of the old list. |
| CollectionService.UserCollectionService.PullFrom | services/UserCollectionService.js:775-839 | The list becomes the full pull of the server coins, and the server is not written. |
| CollectionService.UserCollectionService.SetLoading | services/UserCollectionService.js:769 | Only the loading flag changes. |
| CollectionService.UserCollectionService.LoadFromFirebase | services/UserCollectionService.js:758-847 | Without a user or connectivity nothing changes. Otherwise loading ends cleared, and the list is either unchanged (read failed) or the pull of the stored document. |
| CatalogService.TypeKeyInjective | services/FirestoreDatabaseService.js:206-225 | Distinct denomination classes have distinct keys. |
| CatalogService.ClassifyCases | services/FirestoreDatabaseService.js:206-225 | Commemoratives come first whatever the metal. Otherwise the class is gold for gold, and silver rouble or small silver split at 0.5 of the denomination. Copper is any other coin. |
| CatalogService.DenominationNames | services/FirestoreDatabaseService.js:343-353 | Every class has its own display name, different from its key. An unknown key is shown as itself. |
| Sequences.Select | services/FirestoreDatabaseService.js:277-283 | The filter keeps only elements satisfying the test. |
| Sequences.SelectMembers | services/FirestoreDatabaseService.js:277-283 | An element is kept exactly when it is present and passes. |
| Sequences.SelectIsSubsequence | services/FirestoreDatabaseService.js:277-283 | The filter keeps the original order. |
| Sequences.SelectCounts | services/FirestoreDatabaseService.js:277-283 | Each passing element keeps its multiplicity, and each failing one drops to zero. |
| Sequences.SelectSnoc | services/UserCollectionService.js:664 | Filtering a list with one more element at the end adds that element exactly when it passes. |
| CatalogService.ByDenomination | services/FirestoreDatabaseService.js:198-236 | The result is an order-preserving selection holding exactly the ruler's coins of the requested class. |
| CatalogService.ByDenominationPartition | services/FirestoreDatabaseService.js:198-236 | No coin is classed as a token. A coin is listed under a class exactly when it is classified so. |
| CatalogService.ByDenominationCount | services/FirestoreDatabaseService.js:198-236 | The number listed under a class equals how many coins are classified so. |
| CatalogService.Kinds | services/FirestoreDatabaseService.js:304-320 | The classes of the coins, position by position. |
| CatalogService.Rank | services/FirestoreDatabaseService.js:332 | Each class's place in the display order. |
| CatalogService.RankOfOrder | services/FirestoreDatabaseService.js:332 | Rank inverts the display order. |
| CatalogService.GroupsOver | services/FirestoreDatabaseService.js:322-333 | Every group is non-empty and counts exactly its class. An empty ruler has no groups. |
| CatalogService.GroupsOverNames | services/FirestoreDatabaseService.js:322-329 | Every group carries its class's display name. |
| CatalogService.GroupsOverSorted | services/FirestoreDatabaseService.js:332-333 | Groups come in display order. |
| CatalogService.GroupsOverComplete | services/FirestoreDatabaseService.js:322-333 | There is a group for a class exactly when some coin has it. |
| CatalogService.GroupsOverSum | services/FirestoreDatabaseService.js:322-333 | The group counts add up to the coins of the listed classes. |
| CatalogService.GroupsProperties | services/FirestoreDatabaseService.js:296-338 | Every group is named and non-empty, and the groups are in display order. Each present class has one group, and the counts add up to the number of coins. |
| CatalogService.GroupsNamed | services/FirestoreDatabaseService.js:296-338 | Every group counts at least one coin and carries its class's display name. |
| CatalogService.GroupsSorted | services/FirestoreDatabaseService.js:296-338 | The groups follow the fixed display order. |
| CatalogService.GroupsCountAll | services/FirestoreDatabaseService.js:296-338 | The group counts add up to the number of coins. |
| CatalogService.GroupsCoverKinds | services/FirestoreDatabaseService.js:296-338 | A class has a group exactly when some coin is of that class. |
| CatalogService.CountByKind | services/FirestoreDatabaseService.js:302-330 | The counting loop holds a key exactly for the classes present, each with its count. |
| CatalogService.OrderedGroups | services/FirestoreDatabaseService.js:332-333 | The sorted group list is exactly the groups in display order. |
| CatalogService.CoinsCacheKeyInjective | services/FirestoreDatabaseService.js:167 | Different rulers never share a coin cache entry. |
| CatalogService.NewCoins | services/FirestoreDatabaseService.js:180-182 | Each fetched document becomes a `Coin`, position by position. |
| CatalogService.SearchCoins | services/FirestoreDatabaseService.js:262-291 | At most 50 coins, all matching the query, in fetch order. The result is the first 50 matches or all of them, and empty on a fetch error. |
| CatalogService.SearchFindsEveryMatch | services/FirestoreDatabaseService.js:277-286 | When there are at most 50 matches, every matching coin is returned. |
| CatalogService.FirestoreCatalog.constructor | services/FirestoreDatabaseService.js:21-29 | All four caches start empty. |
| CatalogService.FirestoreCatalog.ClearCache | services/FirestoreDatabaseService.js:358-366 | All four caches are empty afterwards. |
| CatalogService.FirestoreCatalog.GetCountries | services/FirestoreDatabaseService.js:46-69 | A cached list is returned unchanged. Otherwise fetched documents become countries and are cached. An error gives an empty list and caches nothing. Other caches are untouched. |
| CatalogService.FirestoreCatalog.GetPeriodsByCountry | services/FirestoreDatabaseService.js:74-103 | The same cache discipline, keyed by country. |
| CatalogService.FirestoreCatalog.GetRulersByPeriod | services/FirestoreDatabaseService.js:108-137 | The same cache discipline, keyed by period. |
| CatalogService.FirestoreCatalog.GetCoinsByRuler | services/FirestoreDatabaseService.js:163-193 | The same cache discipline, keyed by the ruler's coin cache key. |
| CatalogService.FirestoreCatalog.GetCoinsByDenomination | services/FirestoreDatabaseService.js:198-236 | The ruler's coins, cached or fetched, filtered to the requested class. An error gives an empty list. |
| CatalogService.FirestoreCatalog.GetDenominationsByRuler | services/FirestoreDatabaseService.js:296-338 | The denomination groups of the ruler's coins, cached or fetched. A fetch stores the coins in the cache under the ruler's key; a cache hit or an error leaves the cache as it was, and an error gives an empty list. |
| Coins.NewCoinNormalizes | models/Coin.js:5-32 | A constructed coin is in normal form, and constructing it again changes nothing. |
| Coins.ConstructedIsFixed | models/Coin.js:5-32 | Constructing from a coin already in normal form gives it back. |
| Coins.DatabaseRoundTrip | models/Coin.js:37-69 | Writing a coin and reading it back loses only the joined ruler names. |
| Coins.GetEstimatedValue | models/Coin.js:74-77 | A value exists exactly when both bounds are truthy. It is their midpoint, so it lies between them. |
| Coins.GetEstimatedValueRange | models/Coin.js:82-85 | A range exists exactly when a value does, and it is the pair of bounds. |
| Coins.VeryRareIsRare | models/Coin.js:90-99 | Very rare implies rare. Rare but not very rare means a score of 7 or 8. |
| Coins.GetMetalType | models/Coin.js:104-112 | The names are tested in the order gold, silver, copper, platinum. Each type is given exactly when its name occurs and no earlier one does; no metal gives no type, and "other" is given exactly when none of the four names occur. |
| Coins.CommemorativeExamples | models/Coin.js:117-126 | Example: a coin without a name is not commemorative; "коронация" is. |
| Coins.CommemorativeIgnoresCase | models/Coin.js:117-126 | The test does not depend on the name's letter case. |
| Coins.Validate | models/Coin.js:138-146 | A coin is valid exactly when it has an id, a ruler and a name, and any truthy year lies in 1000 to the current year. A missing field gives "Coin must have id, rulerId and name"; otherwise a year out of range gives "Coin year is invalid". |
| Countries.NewCountry | models/Country.js:5-10 | The constructor keeps id and names. The description is kept when truthy and is `null` otherwise. |
| Countries.DatabaseRoundTrip | models/Country.js:15-29 | Writing and reading back a country gives it unchanged. |
| Countries.Validate | models/Country.js:34-39 | A country is valid exactly when it has an id and a name. Otherwise the error is "Country must have id and name". |
| Periods.NewPeriod | models/Period.js:5-14 | The constructor keeps the other fields. The description goes through `|| null`. A truthy sort order is kept, and the sort order is 0 exactly when it was falsy. |
| Periods.DatabaseRoundTrip | models/Period.js:19-37 | Writing and reading back a period gives it unchanged. |
| Periods.IncludesYearBounds | models/Period.js:42-51 | A year is included exactly when it lies within the duration from the start, up to the end. A well-ordered period includes both ends. |
| Periods.Validate | models/Period.js:56-64 | A period is valid exactly when it has an id, a country and a name, and two non-zero years are ordered. A missing field gives the id/countryId/name message first; otherwise reversed years give the startYear message. |
| Periods.ValidPeriodContainsStart | models/Period.js:42-64 | A valid period with both years set includes its start and has a non-negative duration. |
| Rulers.NewRuler | models/Ruler.js:5-20 | Id, name, English name and the reign years are kept. Period id, title, birth and death years, description, image, succession and coinage each go through `|| null`. A truthy sort order is kept, and it is 0 exactly when it was falsy. |
| Rulers.DatabaseRoundTrip | models/Ruler.js:25-49 | Writing and reading back a ruler gives it unchanged. |
| Rulers.GetAgeAtStart | models/Ruler.js:68-71 | An age exists exactly when the birth year is known; birth year plus age is the start year. |
| Rulers.GetAgeAtEnd | models/Ruler.js:76-79 | An age exists exactly when the birth year is known; birth year plus age is the end year. |
| Rulers.AgesSpanReign | models/Ruler.js:61-79 | The difference of the two ages is the reign's duration. |
| Rulers.GetLifespan | models/Ruler.js:84-87 | A lifespan exists exactly when both years are known, and birth plus lifespan is death. |
| Rulers.Validate | models/Ruler.js:92-100 | A ruler is valid exactly when it has an id, a period and a name, and two non-zero years are ordered. A missing field gives the id/periodId/name message first; otherwise reversed years give the startYear message. |
| Rulers.ValidReignIsNonNegative | models/Ruler.js:61-100 | A valid ruler with both years set has a non-negative reign. |
| JsValues.ToBoolean | config/runtime.js:8-16 | A boolean passes through. A string reading "true" or "false" after trimming and lower-casing gives that value. Anything else gives the default. |
| JsValues.ToBooleanIgnoresCase | config/runtime.js:11 | Example: "TRUE" reads as true. |
| JsValues.ToBooleanIgnoresCaseFalse | config/runtime.js:11 | Example: "False" reads as false. |
| JsValues.ToBooleanDefaults | config/runtime.js:15 | Example: other strings, `undefined` and `null` give the default. |
| JsValues.ToBooleanStable | app.config.js:6-14 | Reading an already-coerced boolean again gives the same value. |
| JsValues.DecimalValue | config/runtime.js:19 | Text is a number exactly when, after an optional sign, it is a non-empty string of digits. |
| JsValues.ToNumber | config/runtime.js:18-24 | The result is the parsed number when it is positive, else the default. It is positive whenever the default is. |
| JsValues.ToNumberOfDecimal | app.config.js:16-19 | A positive timeout written in decimal reads back as itself. |
| JsValues.ToNumberStable | app.config.js:16-19 | Reading an already-coerced timeout again gives the same value. |
| AppConfig.EnvironmentName | app.config.js:3 | The environment is a non-empty lower-case name. It is the first truthy of `APP_ENV` and `NODE_ENV`, else "development". |
| AppConfig.LowerDevelopment | app.config.js:3 | The default name is already lower case. |
| AppConfig.EnvironmentNameStable | config/runtime.js:40-42 | Deriving the environment again from a derived name gives the same name. |
| AppConfig.ExtraOf | app.config.js:57-72 | The build block has the derived environment. Verbose logging and offline auth are `parseBoolean` of their variables with "not production" as default. The timeout is `parseTimeout` of its variable, positive, and 15000 when unset. The address is '' when unset, and all nine keys are passed through. |
| RuntimeConfig.DropTrailingSlashes | config/runtime.js:28 | Strips exactly the trailing run of '/'. |
| RuntimeConfig.NormalizeBaseUrlAsWritten | config/runtime.js:26-29 | As written: a non-string gives ''. The result neither starts with a space nor ends with '/'. |
| RuntimeConfig.AsWrittenNotIdempotent | config/runtime.js:26-29 | As written, "a /" normalises to "a ", which normalises again to "a". |
| RuntimeConfig.DropTrailingSlashesAndSpaces | config/runtime.js:28 | Strips exactly the trailing run of '/' and spaces. |
| RuntimeConfig.NormalizeBaseUrl | config/runtime.js:26-29 | Corrected: the address is trimmed at both ends and does not end with '/'. |
| RuntimeConfig.NormalizeBaseUrlIdempotent | config/runtime.js:26-29 | The corrected normalisation is idempotent. |
| RuntimeConfig.NormalizeAgreesWithAsWritten | config/runtime.js:26-29 | The corrected version agrees with the code as written whenever the latter leaves no trailing space. |
| RuntimeConfig.Hostname | config/runtime.js:33 | A parsed host name is never empty. |
| RuntimeConfig.HostnameOfAddress | config/runtime.js:31-38 | For `scheme://host/...` the host name is the lower-cased host. The address is private exactly when that name has a private prefix. |
| RuntimeConfig.PrivatePrefixExamples | config/runtime.js:4 | Example: "localhost" and 172.20.x are private; 172.32.x is not. |
| RuntimeConfig.HasUnsafeProductionApiUrl | config/runtime.js:62-64 | Never outside production. In production an empty, plain-http or private-host address is unsafe, and any unsafe address is one of these. |
| RuntimeConfig.ProductionAddressSafety | config/runtime.js:62-64 | In production, an https address on a public host is safe and the same host over http is not. |
| RuntimeConfig.MissingAmong | config/runtime.js:57 | Lists exactly the keys whose value is empty; it is the order-keeping filter `Sequences.Select` with that test. |
| RuntimeConfig.FirebaseConfiguredIff | config/runtime.js:56-58 | Firebase is configured exactly when all four required keys are set. |
| RuntimeConfig.MissingKeysInOrder | config/runtime.js:56-57 | For every configuration, the missing keys are a subsequence of the required list, in its order, and each empty required key appears as often as it is required. |
| RuntimeConfig.RuntimeConfigOf | config/runtime.js:40-81 | The runtime settings have the derived environment, the address normalised as `normalizeBaseUrl` is written, and the timeout read by `toNumber` with its default. Logging and offline auth are `toBoolean` of their settings with "not production" as default. The unsafe flag is `HasUnsafeProductionApiUrl` of the environment and address. The Firebase and Numista settings are each `|| ''`. The missing keys are `MissingFirebaseKeys` of those settings, in the required order. |
| RuntimeConfig.BuildThenRuntimeEnvironment | config/runtime.js:40-42 | The runtime reads back the environment the build chose. |
| RuntimeConfig.BuildThenRuntimeSettings | config/runtime.js:43-61 | The runtime reads back the build's logging, offline-auth and timeout settings. The address is normalised as `normalizeBaseUrl` is written. |
| RuntimeConfig.RuntimeAddressAsIntended | config/runtime.js:26-29 | The address the runtime uses equals the intended normalisation whenever the written one leaves no trailing white space. |
| Network.ParsedBody | utils/network.js:11-20 | An empty body is `null`. A non-empty body is exactly what parsing gives, `null` when parsing fails. |
| Network.ErrorMessage | utils/network.js:22-26 | The message is never empty. It is the body's `error`, else its `message`, else "HTTP status text" trimmed. |
| Network.StatusOnlyMessage | utils/network.js:26 | Example: with no body and no status text, the message is "HTTP " and the status. |
| Network.FetchJsonWithTimeout | utils/network.js:1-43 | A timeout gives "Request timed out after N ms". A transport failure is passed through. An OK response gives its parsed body, and an error status gives the error with status and body. |
| Network.GetErrorMessage | utils/network.js:45-50 | The message of an error, or the fallback for a falsy error or an empty message. It is never empty when the fallback is not. |
| Network.HttpErrorsAreReported | utils/network.js:22-50 | The message built for an HTTP error is what `getErrorMessage` shows. |
| Registration.EmailPatternSound | app/auth/register.jsx:109 | An address matching the email pattern has no whitespace and exactly one '@'. |
| Registration.EmailPatternComplete | app/auth/register.jsx:109 | An address with no whitespace, a single '@' and a '.' after it with text around both matches the pattern. |
| Registration.EmailPatternIff | app/auth/register.jsx:109 | The email pattern matches exactly such addresses. |
| Registration.CheckFormOutcomes | app/auth/register.jsx:91-135 | The form is submitted exactly when nickname, email, password and captcha are all accepted. Each field's error is reported in source order. |
| Registration.SubmittedFormShape | app/auth/register.jsx:92-135 | A submitted form has a trimmed nickname of at least 3 UTF-16 units, a password of at least 6 units equal to its confirmation, and a well-formed email. |
| Registration.TypingTheSumVerifies | app/auth/register.jsx:49-66 | Typing the sum verifies the captcha. |
| Registration.HexSumVerifies | app/auth/register.jsx:49-66 | "0x" followed by the sum in hexadecimal also verifies the captcha. |
| Registration.TypingAnotherNumberFails | app/auth/register.jsx:49-66 | Typing any other number does not. |
| Registration.RegisterForm.constructor | app/auth/register.jsx:25-35 | Every field starts empty and nothing is verified or loading. |
| Registration.RegisterForm.GenerateCaptcha | app/auth/register.jsx:37-43 | The question has two numbers in 1 to 10 and their sum as the answer. The answer field is cleared and unverified, and other fields are unchanged. |
| Registration.RegisterForm.VerifyCaptcha | app/auth/register.jsx:49-56 | The right number verifies. A non-empty wrong answer unverifies, and an empty answer leaves the flag. |
| Registration.RegisterForm.HandleCaptchaChange | app/auth/register.jsx:58-66 | The answer field takes the text, and the captcha counts as verified exactly when the text is accepted. |
| Registration.RegisterForm.ValidateForm | app/auth/register.jsx:91-135 | The outcome is the field check of the current form. |
| Registration.RegisterForm.HandleRegister | app/auth/register.jsx:87-138 | The outcome is the field check. Loading starts exactly when the form is submitted, and no field changes. |
| Text.TrimIdempotent | config/runtime.js:11 | Trimming twice equals trimming once. |
| Text.LowerIdempotent | config/runtime.js:11 | Lower-casing twice equals lower-casing once. |
| Text.ParseInt | app/auth/register.jsx:50 | `parseInt` without a radix gives NaN exactly when no digit follows the white space and sign, reading hexadecimal digits after a "0x" prefix. A decimal result is negative only after a '-'. |
| Text.ParseIntOfNatToString | app/auth/register.jsx:50 | `parseInt` reads a printed number back. |
| Text.ParseIntOfHex | app/auth/register.jsx:50 | `parseInt` reads "0x" and hexadecimal digits as their value. |
| Text.Utf16Length | app/auth/register.jsx:98 | A string's JavaScript length lies between its number of characters and twice that. |
| Text.Utf16LengthOfBasicPlane | app/auth/register.jsx:98 | Without characters beyond U+FFFF the JavaScript length is the number of characters. |
| Numista.Attempt | services/NumistaService.js:22-58 | A missing key fails first and the exhausted budget next, neither counting. Otherwise the response is returned, and a success counts one request within the 2000 budget. |
| Numista.BuildSearchParams | services/NumistaService.js:69-80 | The page defaults to 1. A falsy count gives 50, a count up to 50 is kept and a larger one gives 50. Issuer, year and ruler are sent exactly when truthy. |
| Numista.InReignTypes | services/NumistaService.js:144-147 | The types kept are exactly those whose year lies in the reign, in page order: it equals the order-keeping filter `Sequences.Select`. |
| Numista.FetchPagesRequests | services/NumistaService.js:130-163 | The harvest makes at most one request per remaining page. |
| Numista.FetchPagesWithinBudget | services/NumistaService.js:27-29 | The harvest never pushes the request count past 2000. |
| Numista.FetchPagesInReign | services/NumistaService.js:123-167 | Every harvested coin lies in the reign, and a missing key harvests nothing. |
| Numista.MetalName | services/NumistaService.js:193-199 | No composition gives "Неизвестно". The stems are tested gold, silver, copper: each name is given exactly when its stem occurs and no earlier one does. |
| Numista.RarityLabels | services/NumistaService.js:202-211 | Only "Common"/3 and "R"/6 can result. "R" is chosen exactly when the text says rare but not common. |
| Numista.ConvertToFirestoreFormat | services/NumistaService.js:174-235 | The id is "numista-" plus the Numista id, and the name is the title or "Без названия". The year is the first truthy of min and max year, else 0, and the estimates are 0. The metal is `MetalName` of the composition, and rarity and score are those of `RarityOf`. The ruler id is the one given. Weight and diameter default to 0 and the mint to ''. The link is built from the Numista id, and the images go through `|| null`. |
| Numista.GoldNameRead | services/NumistaService.js:193-199 | Example: the catalog reads "Золото" as gold. |
| Numista.NoGoldInSilver | models/Coin.js:104-112 | Example: "серебро" is not read as gold. |
| Numista.SilverNameRead | services/NumistaService.js:193-199 | Example: the catalog reads "Серебро" as silver. |
| Numista.ImportedMetalRecognised | services/NumistaService.js:193-199 | An imported gold or silver coin is classed by the catalog as that metal. |
| Numista.ImportedCoinInCatalog | services/NumistaService.js:202-235 | An imported coin is never rare. It is valid exactly when it has a ruler and its year is 0 or in 1000 to now. |
| Numista.NumistaClient.constructor | services/NumistaService.js:12-17 | The key and user are the configured ones or ''. The count is 0. |
| Numista.NumistaClient.MakeRequest | services/NumistaService.js:22-58 | The result and new count are those of `Attempt`. |
| Numista.NumistaClient.SearchCoins | services/NumistaService.js:69-80 | The parameters are `BuildSearchParams` and the request behaves as `Attempt`. |
| Numista.NumistaClient.HarvestPage | services/NumistaService.js:132-155 | One page request behaves as `Attempt`, and its coins and "more pages" flag are as `ReadPage` gives. |
| Numista.NumistaClient.SearchRussianEmpireCoins | services/NumistaService.js:123-167 | The loop's coins and request count are those of `FetchPages` from page 1. |
| Numista.NumistaClient.Remaining | services/NumistaService.js:244 | Remaining plus used is 2000, and the remainder is never negative. |

## Left out

- **I/O is a parameter.** Firestore `getDoc`/`getDocs`/`setDoc`, `fetch` with
  `AbortController` and timers, `JSON.parse`, the clock, `Math.random` identifiers and
  `_canSync` are all passed in. Logging is left out.
- **The SQLite branch and persistence.** `UserCollectionService` on native platforms, `initialize`,
  `_saveWebStorage` and storage loading are left out. The service starts initialised with a user.
- **Aggregates and single lookups.** `getCollectionStats` and `getRulerById` are left out. The
  `getCoinById` catalog join in `getUserCoins` is left out too: the listed copies carry the stored
  `catalogCoin`, not a freshly read one. The copy through the constructor is modelled.
- **Numista detail calls.** `getCoinDetails`, `getCoinImages` and `getCoinPrice` are single requests
  with no logic beyond `makeRequest`.
- **Date arithmetic in UserCoin.** `toServerFormat`, `_parseDate` and the ISO string form are not
  modelled, because timestamps are integers here. The clock- and calendar-based getters are also
  left out: `getDaysInCollection`, `getMonthsInCollection`, `getPurchaseYear`,
  `getPurchaseMonth` and `wasPurchasedInYear`.
- **Floating-point helpers.** `getProfitLossPercent` in UserCoin and the usage percentage in
  `getUsageStats` are floating-point ratios.
- **Coin.getAge and Ruler.getReignYears.** The first reads the clock; the second only formats a string.
- Coins.GetEstimatedValueRange: the source returns the text "min-max"; the model returns the pair
  of numbers that text prints, because number-to-text formatting of reals is not modelled.
- Periods.IncludesYearBounds, Periods.Validate, Rulers.Validate: `startYear` and `endYear` are
  whole numbers, so a missing (`undefined` or `null`) year is not represented. In `validate`, 0
  stands for a falsy year, which is what the `startYear && endYear` guard skips. `includesYear` on
  a period with an `undefined` end (false for every year) or a `null` one (compared as 0) is not
  modelled.
- **Denomination values.** The parsing of `denominationValue` and the kopeck division by 100 in
  the importer are not modelled. Denomination values are given directly as reals.
- JsValues.NumberOf: only decimal integers with an optional sign are read. The hexadecimal,
  fractional and exponent forms of `Number()` are not modelled, and numbers are integers.
- RuntimeConfig.Hostname: only `scheme://host...` addresses are read. User info, IPv6 literals,
  IPv4 shorthand and IDNA are not modelled.
- Text.Lower: lower-casing covers ASCII and the basic Cyrillic capitals only, not full Unicode
  case mapping.
- Network.ErrorMessage: the `error` and `message` fields of a body are read as strings. Other
  JSON types are not modelled.
- Numista.InReign: a type with no year at all is never in the reign. In the source a `null` year
  compares as 0, so such a type would be kept only for a reign that spans year 0.
- **The register form's other handlers.** `pickImage` and what follows a successful submit
  (account creation, after line 140 of `app/auth/register.jsx`) are left out. They are a device
  picker and a remote call.
- UserCoins.NewRecord: `createdAt`, `purchaseDate`, `updatedAt` and `syncedAt` stand for dates,
  which are always truthy, so any given time is kept, 0 included. The source tests these fields
  with `?:`, so a raw falsy value such as the number 0 would become the clock or `null`. That case
  is not modelled. The same holds for `purchaseDate || null` in `ToRemote` and `ServerData`.
- **Sorting.** The comparator sort of the denomination groups is modelled as a walk over the
  fixed display order. The result is the same list.
- **Asynchrony.** Concurrency and the interleaving of asynchronous calls are not modelled. Each
  operation runs to completion.

## Findings

| source | as written | input that shows it | evidently intended | confidence | as-written member | corrected member |
|---|---|---|---|---|---|---|
| config/runtime.js:26-29 | trims, then strips trailing '/' | `"a /"` becomes `"a "`, which is neither trimmed nor stable: normalising again gives `"a"` | a trimmed address without a trailing '/', the same on a second pass | not executed | RuntimeConfig.AsWrittenNotIdempotent | RuntimeConfig.NormalizeBaseUrlIdempotent |
