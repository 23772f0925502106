# Card vaults: a verified model

This project models the stateful core of a card-vault client in Dafny and proves what that core is
for: a versioned blob store over sorted byte keys and its SQL twin, the record tables and the
catalog that writes both stores together, vault export and import, the compiler from content
filters to full-text queries, four concurrent protocols, and the repair of records and sheets.

`dafny verify dfyconfig.toml` checks everything.

## How the files fit together

| part | files |
|---|---|
| byte keys and versions | `Wrappers`, `Bytes`, `Keys`, `Versions` |
| blob store: meaning, what calls read and leave, Pebble backend, SQLite backend | `BlobSpec`, `BlobLaws`, `Kv`, `PebbleBlobStore`, `SqliteBlobStore`, `BlobStores` |
| records and the catalog | `Records` (tables on values), `RecordLaws` (what is read and written, field by field), `RecordStore` (in place), `CatalogSpec` (both stores, every run), `CatalogLaws` (what single calls leave), `CatalogRuns` (runs that go wrong), `Catalog` (in place) |
| vault export and import | `Decimal`, `VaultFiles`, `VaultTransfer`, `VaultRoundTrip` |
| filters | `Fts` (the FTS5 query language), `ContentFilters`, `RecordFilters` |
| concurrent protocols | `Calls`, `OperationRegistry`, `RegistryHistory` and `OpCache`, `ItemTracker`, `UnlockDiscipline` and `MuTracker`, `RequestProtocol` and `RequestBuffer`, `VaultLocks` |
| repair | `Integrity` (record and sheet), `RecordRepair` (a stored record), `RepairLaws` (its answers and what is stored) |

The blob stores, the record store, the catalog, the request buffer, the export workers, the registry, the tracker
and the repair are classes with loops and in-place updates, each method proved against a function
on values; the theorems are about those functions, over every input, tree of calls or run. The
concurrent protocols are also state machines in which every atomic access and every section under a
lock is one step of one thread, and their theorems quantify over all interleavings.

What the model takes as given:

* Pebble and SQLite are maps with ordered scans, unique indexes, references, and transactions that
  commit as a whole or not at all. SQLite's driver refuses unsigned integers of 2^63 and more.
* Pebble's range operations treat a range whose bounds are reversed as empty.
* Operation identifiers are fresh. Contexts are not cancelled while versions are pruned.
* `commits` says, call by call of a save, restore or deletion, whether the record transaction's own commit succeeds after the
  blob commit. The theorems state which commits they need.
* `sheet.Integrity()` is an arbitrary predicate that does not look at the modification date; FTS
  term matching is an arbitrary relation between a column and a phrase.

Where code and intent part:

* With one version configured, the Pebble store panics on a second version of a card
  (store/blob/pblob/store.go:324): outcome `Panicked`, `BlobSpec.PutOutcome` says exactly when.
* Its pruning starts at version 0 (store/blob/pblob/store.go:325), so negative versions are never
  pruned: `BlobSpec.PutVersions` states the exact condition and `BlobSpec.NegativeVersionStays` a case;
  `BlobSpec.PutStaysBounded` says exactly when a card then outgrows the configured number.
* The SQLite store drops a version at once that is older than a full set, and a record transaction
  that fails to commit leaves the images written or deleted: `CatalogSpec.CurrentVersionsReadable` says
  exactly which records any run leaves unreadable, `CatalogSpec.CommittingRunsLose` what remains of that
  when every commit succeeds, and `CatalogRuns.StaleSaveInARun` gives a run.
* A deletion whose record transaction fails to commit leaves a record without any card
  (`CatalogSpec.FailedCommitOrphansRecord`), a save whose transaction fails to commit a card without a
  record; `CatalogSpec.OrphansInEveryRun` and `CatalogSpec.StraysInEveryRun` say exactly which ones.
* `BasicIntegrity` compares numbers, not sets. By `CatalogSpec.IntegrityInEveryRun` it finds nothing wrong
  if and only if there are as many orphans as strays, the sets are equal if and only if there are none of
  either, and so it is right if and only if there are no orphans or not as many orphans as strays.
  `CatalogRuns.CountsCanMislead` is a run in which it is wrong.
* Unlocking an item one does not hold lets two threads in, whether it is held by another thread or free:
  `UnlockDiscipline.UnlockIsSafe` is the exact condition, `ItemTracker.SpuriousUnlock` a run.
* The backends prune alike only under `BlobSpec.SameVersionsKept`.
* Saving what was read keeps the creator if and only if record and creator have one source
  (`CatalogSpec.RepairTouchesLittle`); `CatalogRuns.SavingChangesCreator` is a run after which it does not.
* A record whose current image is gone is answered BROKEN by every repair (`RepairLaws.UnreadableStaysBroken`);
  `RepairLaws.StaleSaveIsNeverRepaired` is a run that leads to one.

## Model

| member | source | states |
|---|---|---|
| Bytes.LessConcat | store/blob/pblob/key.go:44-70 | byte strings with heads of equal length compare by the heads, then by the tails |
| Bytes.BigEndianOrder | store/blob/pblob/key.go:44-50 | big-endian bytes sort as the numbers do |
| Keys.SetRID | store/blob/pblob/key.go:44-50 | writes the eight RID bytes in place into the shared buffer and raises the length, nothing else changes |
| Keys.SetType | store/blob/pblob/key.go:52-58 | writes the type byte in place, nothing else changes |
| Keys.SetVersion | store/blob/pblob/key.go:60-66 | writes the sign-flipped version in place, nothing else changes |
| Keys.SettersCommute | store/blob/pblob/key.go:44-66 | the three setters commute pairwise on any shared buffer, and together overwrite all of it |
| Keys.KeyOrder | store/blob/pblob/key.go:44-82 | keys compare byte-wise exactly as (unsigned RID, type, signed version) do, bare prefixes first |
| Keys.GettersRecover | store/blob/pblob/key.go:72-82 | the getters give back every 64-bit RID, the type and every version, negative ones included |
| Keys.BuildPngKey | store/blob/pblob/key.go:36-70 | the built key is the encoding of RID, image type and version, whatever the buffer held |
| Kv.VersionRange | store/blob/pblob/store.go:247-253 | a range between two image keys of a card holds exactly that card's versions in the half-open interval, and no thumbnail |
| Kv.TypeRange | store/blob/pblob/store.go:162-180 | a range between two type prefixes holds exactly that card's keys of those types, up to the largest RID |
| Kv.DeleteVersionRange | store/blob/pblob/store.go:241-253 | the range delete on bytes is the deletion of those versions of that card |
| Kv.DeleteCardRange | store/blob/pblob/store.go:255-261 | the range delete of a card removes its versions and its thumbnail and nothing else |
| PebbleBlobStore.CollectRids | store/blob/pblob/store.go:68-92 | skipping repeated neighbours lists every RID that has a key, ascending and once |
| PebbleBlobStore.Store.KeyExists | store/blob/pblob/store.go:329-339 | the lower-bound seek is exact membership in the overlaid key space |
| PebbleBlobStore.Store.GetVersions | store/blob/pblob/store.go:162-180 | the scan yields exactly the card's versions in ascending order |
| PebbleBlobStore.Store.GetRIDs | store/blob/pblob/store.go:68-92 | lists exactly the cards that have a version or a thumbnail, ascending |
| PebbleBlobStore.Store.HasVersion | store/blob/pblob/store.go:182-184 | answers whether the card has the version |
| PebbleBlobStore.Store.InternalPut | store/blob/pblob/store.go:192-229 | leaves the state and outcome Put means: prunes only for a new version, thumbnail before image, errors where the code has them |
| PebbleBlobStore.Store.DeleteOldVersions | store/blob/pblob/store.go:314-327 | keeps the newest max - 1 versions and any negative one, and panics with one version configured |
| PebbleBlobStore.Store.EndTx | store/blob/pblob/store.go:269-282 | only whoever opened the batch ends it; success commits the whole overlay, failure drops it |
| PebbleBlobStore.Store.Execute | store/blob/pblob/store.go:68-282 | any tree of calls on byte keys gives the states, answers and errors of the map from cards to versions |
| SqliteBlobStore.SelectOrdered | store/blob/sqlblob/store.go:383-399 | an ordered distinct query lists the set ascending, each value once |
| SqliteBlobStore.Store.InternalPut | store/blob/sqlblob/store.go:220-261 | inserts first, then prunes to the newest max |
| SqliteBlobStore.Store.DeleteOldVersions | store/blob/sqlblob/store.go:363-374 | keeps exactly the newest max versions |
| SqliteBlobStore.Store.Execute | store/blob/sqlblob/store.go:104-322 | any tree of calls on the two tables gives the states, answers and errors of the map from cards to versions |
| BlobSpec.PutOutcome | store/blob/pblob/store.go:192-229 | exactly when Put succeeds, and exactly when it panics |
| BlobSpec.PutVersions | store/blob/pblob/store.go:314-327 | which versions a successful Put leaves: the backend's policy, for pblob if and only if the version was known or no negative version was due to go |
| BlobSpec.NegativeVersionStays | store/blob/pblob/store.go:325-325 | a full pblob card with a negative version keeps it and outgrows the configured number |
| BlobSpec.PutStaysBounded | store/blob/pblob/store.go:314-327 | a Put from a card within bounds leaves more versions than configured if and only if pblob adds to a full card that holds a negative one |
| BlobSpec.PutFrame | store/blob/pblob/store.go:192-229 | other cards survive a Put unchanged, the stored image and thumbnail are the ones given |
| BlobSpec.PutKeeps | store/blob/pblob/store.go:192-229 | the versions a successful Put leaves, for either backend and any versions held, and those of other cards untouched |
| BlobLaws.ReadsAnswer | store/blob/pblob/store.go:68-184 | what every reading call answers, in terms of the images and thumbnails held |
| BlobLaws.DeletesLeave | store/blob/pblob/store.go:241-261 | after a deletion exactly the named images are gone and everything else is the same |
| BlobLaws.RefusedDeletes | store/blob/sqlblob/store.go:274-294 | a deletion for a RID that the driver refuses fails and deletes nothing |
| BlobLaws.PutThenRead | store/blob/pblob/store.go:192-229 | the image just put is read back, unless it was too old to be kept |
| Versions.NewestOfAscending | store/blob/sqlblob/store.go:363-374 | belonging to the newest n versions is a comparison with one element of the ordered list |
| Versions.SavedVersionSurvives | store/blob/sqlblob/store.go:363-374 | a version just saved is kept if and only if it was known, there was room, or it is newer than the oldest held |
| Versions.PoliciesAgree | store/blob/pblob/store.go:314-327 | prune-then-add and add-then-prune agree if and only if the version was known, there was room, or it is newer than the oldest held |
| BlobSpec.BackendsAgree | store/blob/sqlblob/store.go:220-261 | from the same at most max versions, negative ones included, the two backends leave the same versions if and only if the version was known, or there was room, or it is newer than the oldest and none is negative; with one version configured, if and only if it is older |
| BlobSpec.BackendsDiffer | store/blob/sqlblob/store.go:363-374 | a concrete save after which they hold different versions |
| BlobSpec.TraceRuns | store/blob/pblob/store.go:269-282 | inside a transaction a tree of nested calls leaves the state and gives the answers of its leaf calls run in order |
| BlobSpec.NestedTransactions | store/blob/sqlblob/store.go:303-322 | a tree of transactions commits all its leaf calls in order, or nothing if the outermost function fails, and every call inside answers on what earlier calls of the tree wrote |
| BlobStores.BlobStore.Put | store/catalog/catalog.go:130-130 | either backend behind the interface stores atomically what Put means for it |
| Records.CreatorIdInjective | store/record/erecord/store.go:270-272 | source:platformID determines source and platform identifier, as no source has a colon |
| Records.InsertTagsMeaning | store/record/erecord/store.go:274-288 | every tag is known afterwards and known tags keep their names |
| Records.FirstNameWins | store/record/erecord/store.go:274-288 | a new tag gets the first name it is given |
| Records.UpsertUnique | store/record/erecord/schema/record.go:103-115 | an upsert keeps the three unique indexes |
| Records.WriteOutcome | store/record/erecord/store.go:312-384 | a save or restore succeeds if and only if source and status are valid, no record with another URL clashes, and an identifier is left |
| Records.SaveKeepsIdentity | store/record/erecord/store.go:330-372 | saving a known URL keeps RID, import data, export data and favourite flag; a new URL gets a fresh RID; no other record changes |
| Records.SaveSound | store/record/erecord/store.go:312-384 | a save keeps indexes and references, and the record reads back with the creator and tags given |
| Records.RestoreOverwrites | store/record/erecord/store.go:386-447 | restoring over a known URL keeps RID and import data and overwrites the rest; a blank status becomes a success |
| Records.RestoreIsFaithful | store/record/erecord/store.go:386-447 | a record read from one database and restored into another that does not know it is the same row, creator and tags under the next RID |
| Records.CleanCreatorsSound | store/record/erecord/store.go:517-524 | exactly the creators that some record refers to remain, and every reference stays valid |
| RecordLaws.FoundRecord | store/record/erecord/store.go:192-211 | a record is found if and only if it is in the table, with its row's fields, its creator, and its tags in strictly ascending slug order, each once with the table's name |
| RecordLaws.SyncDataWritten | store/record/erecord/store.go:470-478 | writing sync data succeeds if and only if the record exists and the status is valid, and changes that column of that row only |
| RecordLaws.ExportDataWritten | store/record/erecord/store.go:480-488 | writing export data succeeds if and only if the record exists, and changes that column of that row only |
| RecordLaws.FavoritesWritten | store/record/erecord/store.go:490-498 | sets the flag of exactly the given records and leaves every other column and row alone |
| RecordLaws.RecordsDeleted | store/record/erecord/store.go:511-515 | exactly the given rows are gone; every other row, the creators, the tags and the last RID are the same |
| RecordLaws.CreatorsCleaned | store/record/erecord/store.go:517-524 | every record row and tag is the same, and so is every creator that stays |
| RecordStore.JoinTags | store/record/erecord/store.go:192-211 | the join lists what the table function stands for; RecordLaws.FoundRecord says which tags these are and in which order |
| RecordStore.Enumerate | store/record/erecord/store.go:153-160 | the unfiltered query lists every record once |
| RecordStore.Store.UpsertTags | store/record/erecord/store.go:274-288 | the loop is the bulk insert that skips known tags |
| RecordStore.Store.UpsertRow | store/record/erecord/store.go:330-372 | the row is inserted or merged where the URL says, or rejected with the tables unchanged; indexes and references hold |
| RecordStore.Store.SaveRecord | store/record/erecord/store.go:312-384 | does to the open transaction what a save means |
| RecordStore.Store.RestoreRecord | store/record/erecord/store.go:386-447 | does to the open transaction what a restore means |
| RecordStore.Store.Delete | store/record/erecord/store.go:511-515 | removes exactly the given records, counts those that existed, refuses identifiers of 2^63 and more; RecordLaws.RecordsDeleted frames every other row |
| RecordStore.Store.CleanupCreators | store/record/erecord/store.go:517-524 | removes exactly the creators without records and counts them |
| RecordStore.Store.EndTx | store/record/erecord/store.go:532-551 | only whoever opened the transaction ends it; success commits, anything else rolls back |
| CatalogSpec.Run | store/catalog/catalog.go:113-278 | every run, failures included, keeps the unique indexes, the references and the creators' identifiers |
| CatalogSpec.CreatorsInEveryRun | store/record/erecord/store.go:290-310 | in every run a creator identifier finds the one creator of that source and platform identifier |
| CatalogSpec.PutReadable | store/catalog/catalog.go:113-148 | a stored version is readable if and only if it was not too old, and no other card changes |
| CatalogSpec.CurrentVersionsReadable | store/catalog/catalog.go:113-148 | in every run, whatever commits fail, a record's current version is readable if and only if the run has not lost it, by tests made before each call |
| CatalogSpec.CommittingRunsLose | store/catalog/catalog.go:113-148 | if every commit succeeds, pblob loses nothing and sqlblob exactly the records whose latest save was too old |
| CatalogSpec.VersionsInEveryRun | store/blob/sqlblob/store.go:363-374 | in every run sqlblob holds at most max versions of a card, and so does pblob as long as no negative version is saved |
| CatalogRuns.StaleSaveInARun | store/blob/sqlblob/store.go:363-374 | a run of two saves whose record cannot be read under sqlblob |
| CatalogSpec.StaleSaveIsLost | store/catalog/catalog.go:113-148 | a save under sqlblob whose record cannot be read |
| CatalogSpec.SavedCardReadsBack | store/catalog/catalog.go:113-148 | what was saved reads back: the image given, tagged with the record's tag names, and its thumbnail |
| CatalogSpec.WriteRids | store/catalog/catalog.go:113-148 | a save that succeeds adds the same RID to both stores; one that fails leaves the records alone |
| CatalogLaws.DeletionLeavesTheRest | store/catalog/catalog.go:250-274 | a committed deletion leaves no record and no image of the given RIDs; every other row is the very same, every other card has the same images and thumbnail, creators, tags and last RID are untouched; a RID of 2^63 or more deletes nothing |
| CatalogLaws.FailedDeletionTakesImages | store/catalog/catalog.go:250-274 | a deletion whose record transaction fails removes the images of exactly those cards and no row |
| CatalogLaws.ReturnedRid | store/catalog/catalog.go:113-148 | after a save or restore that succeeds the RID returned is that of the one record with the card's URL; without a record it is 0 |
| CatalogLaws.SaveLeavesTheRest | store/catalog/catalog.go:113-148 | a save or restore touches no other record, no other creator, no known tag's name and no image of another card |
| CatalogLaws.SavedNamesInOrder | store/catalog/catalog.go:113-132 | the names embedded in a saved image are those of the record's tags, one for one, in ascending slug order |
| CatalogLaws.RestoredNames | store/catalog/catalog.go:134-148 | the names embedded by a restore are those of the given record, in its order |
| CatalogLaws.OtherCalls | store/catalog/catalog.go:150-160 | the other calls leave every image alone and change one column of the named rows |
| CatalogSpec.FailureChangesNothing | store/catalog/catalog.go:113-148 | any call that fails, a failing blob step included, leaves both stores unchanged as long as commits work |
| CatalogSpec.OrphansInEveryRun | store/catalog/catalog.go:250-274 | in every run, whatever commits fail, the records without a card are exactly those of deletions that did not commit and were not saved or deleted since |
| CatalogSpec.StraysInEveryRun | store/catalog/catalog.go:113-148 | in every run, whatever commits fail, the cards without a record are exactly those of writes that did not commit and were not written or deleted since |
| CatalogSpec.RecordsHaveCards | store/catalog/catalog.go:250-274 | every record has a card if and only if there are no orphans, every card a record if and only if there are no strays; so if deletions commit, and if everything does |
| CatalogSpec.FailedCommitOrphansRecord | store/catalog/catalog.go:253-270 | a deletion whose last commit fails leaves a record without any card |
| CatalogSpec.IntegrityInEveryRun | store/catalog/catalog.go:197-218 | in every run the numbers of RIDs agree if and only if there are as many orphans as strays, the sets if and only if there are none, and the comparison is right if and only if there are no orphans or not as many as strays |
| CatalogRuns.CountsCanMislead | store/catalog/catalog.go:197-218 | a run with two failed commits after which the numbers agree and the sets do not |
| CatalogSpec.RepairTouchesLittle | store/catalog/catalog.go:238-240 | saving a repaired record changes only the repaired fields and the sync mark, prunes no version, and keeps the creator if and only if the sources agree |
| CatalogRuns.SavingChangesCreator | store/catalog/catalog.go:238-240 | a run of one restore after which saving the record as it was read files it under another creator |
| Catalog.Catalog.SaveCard | store/catalog/catalog.go:113-132 | both stores, the RID, the outcome and the caller's card after a save: the image is stored inside the record transaction, the card's tags are overwritten and the RID returned even if that fails |
| Catalog.Catalog.RestoreCard | store/catalog/catalog.go:134-148 | both stores, the RID, the outcome and the caller's card after a restore |
| Catalog.Catalog.Delete | store/catalog/catalog.go:250-274 | both stores, the outcome and the number of deleted records; CatalogLaws.DeletionLeavesTheRest says what is gone and that all else is the same |
| Catalog.Catalog.BasicIntegrity | store/catalog/catalog.go:197-218 | lists all records if and only if both stores hold equally many RIDs |
| Decimal.PrintParses | library/fslibrary/fslibrary.go:264-268 | a printed RID is read back if and only if it is below 2^63 |
| VaultFiles.FileNamesDistinct | facade/export_vault.go:98-98 | cards never share a file name, whatever their titles |
| VaultFiles.ExportedNameIsFound | library/fslibrary/fslibrary.go:255-270 | an exported file is found under its card's RID if and only if that is below 2^63 |
| VaultFiles.BuildCardFileMap | library/fslibrary/fslibrary.go:246-274 | the loop keeps the last file of each RID and skips directories, other extensions and unparsable names |
| VaultFiles.CardFilesExact | library/fslibrary/fslibrary.go:246-274 | if no RID has two files, the map holds exactly the card files |
| VaultTransfer.VaultExport.ExportVaultCard | facade/export_vault.go:91-121 | adds file and index entry if and only if the card's current version can be read, and counts it |
| VaultTransfer.RunExport | facade/export_vault.go:46-121 | exporting the records one after the other leaves the folder that stands for them; the report counts as successes exactly the records that could be read, and the others as failures with their titles in order |
| VaultTransfer.SuccessesAreEntries | facade/export_vault.go:91-121 | an export of distinct records reports as many successes as the index has entries |
| VaultTransfer.ReportAddsUp | facade/export_vault.go:111-121 | progress is successes plus failures |
| VaultTransfer.ImportItems | library/fslibrary/fslibrary.go:219-224 | one item for each RID that has both an index entry and a file |
| VaultTransfer.RunImport | library/fslibrary/fslibrary.go:226-287 | the new vault is the result of restoring the items one after the other; the report counts as successes exactly the items restored, and the others as failures with their titles in order |
| VaultRoundTrip.ImportIsFaithful | library/fslibrary/fslibrary.go:226-307 | restoring distinct records in any order gives exactly those records, creators, tags and current images, numbered from 1 |
| VaultRoundTrip.ExportLeaves | facade/export_vault.go:46-109 | the folder holds exactly the readable records, each with its own file |
| VaultRoundTrip.CardFilesMatch | library/fslibrary/fslibrary.go:246-274 | the import finds the very file of each exported record |
| VaultRoundTrip.NoneFails | library/fslibrary/fslibrary.go:276-287 | importing what an export has left reports every item as a success, no failure and no title |
| VaultRoundTrip.RoundTrip | facade/export_vault.go:46-109 | export then import, in any order on either side, gives back exactly the readable records, creators, tags and images |
| VaultRoundTrip.ImportedRecord | library/fslibrary/fslibrary.go:289-307 | each imported record reads as the original with a new RID, import, sync, export and favourite data included, and its current version is readable |
| VaultRoundTrip.EveryVaultComesBack | library/fslibrary/fslibrary.go:196-244 | every vault that a run has led to, with either backend and whatever commits failed, comes back but for the records the run has lost |
| VaultRoundTrip.PebbleVaultComesBackWhole | library/fslibrary/fslibrary.go:196-244 | with pblob and committing transactions it comes back whole |
| ContentFilters.ApplyContentFilter | store/record/erecord/filter.go:135-183 | builds the MATCH string, or none for an empty filter |
| ContentFilters.QuotingRoundTrip | store/record/erecord/filter.go:135-183 | doubling quotes and reading an FTS5 string undo each other, for any value |
| ContentFilters.MatchExpressionParses | store/record/erecord/filter.go:135-183 | the MATCH string parses to the intended query tree |
| ContentFilters.ContentFilterCompiles | store/record/erecord/filter.go:135-183 | the MATCH string parses and means all or any fields matching all or any values, whatever the values contain |
| RecordFilters.ApplyTagFilter | store/record/erecord/filter.go:117-133 | compiles a tag filter, or nothing when it names none |
| RecordFilters.ApplyFilter | store/record/erecord/filter.go:185-223 | compiles all parts of a filter in order |
| RecordFilters.FilterCompiles | store/record/erecord/filter.go:185-223 | the conjunction of the compiled predicates selects exactly the records the filter asks for |
| OperationRegistry.NoticeStep | operation/opcache/opcache.go:78-81 | one step never loses a change notice |
| OperationRegistry.TerminalStep | operation/opcache/opcache.go:148-185 | one step never shows a terminated operation twice |
| OperationRegistry.ConservedStep | facade/sync_update.go:273-286 | one step keeps the failure titles in the returned reports, followed by the pending ones, equal to those appended, and progress the sum of its parts |
| OperationRegistry.CounterStep | operation/opcache/opcache.go:56-120 | one step keeps the active counter equal to ongoing operations plus calls in between |
| OperationRegistry.EveryRun | operation/opcache/opcache.go:56-185 | under any interleaving no change notice is lost, each operation is shown terminated once and last, failure titles are conserved, and the counter is exact |
| OperationRegistry.TitlesConserved | operation/opcache/opcache.go:131-172 | under any interleaving the AuxData of all reports returned so far, then the pending one, is exactly the appended sequence, one title for each failure |
| OperationRegistry.QuietRegistry | operation/opcache/opcache.go:187-193 | between calls a false dirty flag means everything was shown, and the counter is the number of ongoing operations |
| OperationRegistry.ShownForever | operation/opcache/opcache.go:148-185 | an operation shown terminated never appears again in any continuation |
| RegistryHistory.ReportsTally | facade/sync_update.go:273-286 | under any interleaving a report's successes, unchanged cards and failures are the numbers of such results among the changes that took effect, its titles those of the failures in order, its total the one set last |
| RegistryHistory.TerminalStatus | operation/opcache/opcache.go:96-120 | under any interleaving a terminated operation is cancelled if and only if it had been cancelled when the call that terminated it looked: completed if nobody ever cancelled it, cancelled only if somebody did |
| RegistryHistory.ListedAsPublished | operation/opcache/opcache.go:56-88 | under any interleaving the operations listed stand in the order of their publication, none twice |
| OpCache.Registry.NewOperation | operation/opcache/opcache.go:56-88 | one undisturbed call is counting, publishing and flagging |
| OpCache.Registry.MarkTerminated | operation/opcache/opcache.go:96-120 | terminates exactly an ongoing operation, by the steps of the protocol |
| OpCache.Registry.MutateReport | operation/opcache/opcache.go:131-146 | changes a listed operation's report, by the steps of the protocol; RegistryHistory.ReportsTally says what the reports then count |
| OpCache.Registry.ListReports | operation/opcache/opcache.go:148-185 | the loop is one visit for each operation in order; it returns exactly the operations that are not disposable, each with its report as it was before its AuxData was cleared |
| ItemTracker.NeverFatal | tracker/mutracker/muresource.go:20-30 | under any interleaving, spurious unlocks included, no mutex is unlocked while free |
| ItemTracker.OneMutexForever | tracker/mutracker/mutracker.go:23-51 | a card gets one mutex, of its own, forever, despite the double check |
| ItemTracker.MutualExclusion | tracker/mutracker/mutracker.go:23-63 | if callers unlock only what they hold, at most one thread is inside a card |
| ItemTracker.SpuriousUnlock | tracker/mutracker/mutracker.go:54-63 | otherwise two threads can be inside, by a concrete run |
| UnlockDiscipline.UnsafeUnlock | tracker/mutracker/mutracker.go:54-63 | after any call of UnlockItem for a card the caller does not hold, held or free, a continuation without further unlocks has two threads inside |
| UnlockDiscipline.UnlockIsSafe | tracker/mutracker/mutracker.go:54-63 | in a run disciplined so far, a call of UnlockItem keeps the cards exclusive for good if and only if the caller holds the card or it never had a mutex |
| MuTracker.Tracker.LockItem | tracker/mutracker/mutracker.go:23-51 | an undisturbed call on a free card is finding or making its mutex, acquiring it and flagging it; on a locked card it stands waiting at the mutex with nothing else changed |
| MuTracker.Tracker.UnlockItem | tracker/mutracker/mutracker.go:54-63 | releases a locked card by the steps of the protocol and leaves any other alone |
| MuTracker.Tracker.LockedItems | tracker/mutracker/mutracker.go:82-96 | lists exactly the locked cards, each once |
| RequestBuffer.CacheManager.Push | facade/cache.go:28-33 | appends one request to both slices, by one step of the protocol |
| RequestBuffer.CacheManager.Flush | facade/cache.go:41-99 | an undisturbed flush drains everything by the steps of the protocol and answers one payload for each request in order, whether or not the vault can be read |
| RequestBuffer.BuildMissingPayloads | facade/cache.go:101-118 | every request is answered as missing, in order |
| RequestProtocol.AnswerIsRight | facade/cache.go:66-94 | a request is answered with its own record if and only if the database returned it |
| RequestProtocol.BoxMeans | facade/cache.go:55-118 | payload by payload: its operation, its record if the database returned one, and otherwise the requested RID with status missing, the box's time and every other field blank |
| RequestProtocol.NothingLost | facade/cache.go:28-53 | under any interleaving of pushes and flushes the two slices stay paired, and the requests pushed are those of the drained batches followed by those waiting |
| RequestProtocol.EveryBatchAnswered | facade/cache.go:55-118 | under any interleaving a drained batch either has one payload for each of its requests, in order, or is with a thread that can answer it so |
| RequestProtocol.QuietBuffer | facade/cache.go:28-99 | with no flush in progress and nothing waiting, every request ever pushed is in a batch that has been answered |
| RequestProtocol.RacingFlush | facade/cache.go:42-53 | a run in which a flush finds the buffer already emptied by another and answers nothing |
| VaultLocks.JobsAreOrdered | facade/sync_update.go:74-134 | every worker takes item, record store and blob store locks in that order, uses a store only under its lock, writes it only under the write lock, and ends holding none |
| VaultLocks.VaultStep | facade/vault.go:24-86 | one step of any worker or loader keeps every worker on the current catalog, which alone is open, and what one thread holds for writing held by no other |
| VaultLocks.SomeoneCanStep | store/record/erecord/store.go:557-569 | if any thread is unfinished, some thread is not blocked, even when waiting writers turn readers away |
| VaultLocks.NoDeadlock | facade/vault.go:24-86 | in every run no store is misused, and some unfinished thread can take a step |
| VaultLocks.WhatJobsWrite | facade/sync_update.go:74-134 | a job writes the blob store if and only if it saves or deletes images, the record store if and only if it does that or changes records alone |
| VaultLocks.StoresAreSafe | facade/vault.go:74-86 | in every run whoever is about to use a store uses one of the current catalog, which is open and never was closed, and nobody else uses a store that one thread is about to write |
| VaultLocks.ReplacedAreClosed | facade/vault.go:24-72 | in every run, once no vault is being loaded or unloaded, every catalog ever loaded is closed except the current one, which is open |
| VaultLocks.CanFinish | facade/sync_update.go:74-134 | every run can go on until no operation and no load is unfinished |
| Integrity.Record.SyncSheetFields | store/resource/resource.go:98-156 | copies every synchronised field and reports a change if and only if there was one; Integrity.OneCallFields says which field comes from which |
| Integrity.Record.SyncRecordFields | store/resource/resource.go:159-182 | copies greetings count and book time and reports a change if and only if there was one |
| Integrity.FixIntegrity | store/resource/resource.go:54-75 | the record is looked at only when the sheet needed nothing; a missing side is broken and nothing is touched; the result is pinned field by field below |
| Integrity.BrokennessIsStable | store/resource/resource.go:78-95 | no number of repairs changes what the broken-check reads |
| Integrity.Converges | store/resource/resource.go:54-75 | repeated calls answer FIXED exactly as often as the measure says, at most three times, then OK forever; three times under an exact condition |
| Integrity.StaysBroken | store/resource/resource.go:54-75 | otherwise every call answers BROKEN |
| Integrity.ThreeRepairs | store/resource/resource.go:159-182 | three repairs do occur |
| Integrity.OneCallFields | store/resource/resource.go:98-182 | after a call that finds nothing broken each synchronised field of the sheet is the record's field of that name, notes, greetings and book are untouched, and the record changes its greetings count and book time at most, as the sheet demands |
| Integrity.FieldsAfterCalls | store/resource/resource.go:98-182 | after any number of calls the sheet's fields are the record's, and all else is as it was |
| Integrity.AgreeInTheEnd | store/resource/resource.go:98-182 | once the repairs are done the two agree: every field, the number of greetings, a book time if and only if there is a book |
| Integrity.WhatIsBroken | store/resource/resource.go:37-95 | a call answers BROKEN if and only if one of the listed fields is blank, a time impossible, the tagline missing from the notes, or the sheet with the record's fields fails its check |
| Integrity.WhatIsOk | store/resource/resource.go:54-75 | a call answers OK if and only if it does not answer BROKEN and record and sheet agree |
| RecordRepair.FixRecordIntegrity | store/catalog/catalog.go:220-248 | the vault, the caller's record and the answer after reading, repairing, saving and checking a record again; RepairLaws says what each answer means |
| RecordRepair.SavedIntact | store/catalog/catalog.go:238-247 | what a repair saves reads back as the repaired record and sheet with a usable thumbnail, and is answered FIXED |
| RecordRepair.StoredRepairsConverge | store/catalog/catalog.go:220-248 | repeated on what is stored, the whole repair answers FIXED exactly as often as the measure says, once more at first for an unusable thumbnail, then OK forever, changing nothing |
| RecordRepair.UnrepairableStays | store/catalog/catalog.go:220-248 | a record that cannot be repaired is answered BROKEN and the vault left alone, every time |
| RepairLaws.UnreadableIsBroken | store/catalog/catalog.go:221-224 | a card that is absent or cannot be decoded is answered BROKEN, and vault and record are unchanged |
| RepairLaws.WhatAnAnswerMeans | store/catalog/catalog.go:220-248 | OK means that the card is usable and nothing changed; FIXED that the save has committed, the record of that URL has the repaired metadata and a fresh sync mark, and the card can be read again with a usable thumbnail and a sheet that passes; so a save that fails or a re-check that fails answers BROKEN |
| RepairLaws.UnreadableStaysBroken | store/catalog/catalog.go:221-224 | a stored record without a readable card is answered BROKEN by any number of calls, none of which changes the vault |
| RepairLaws.StaleSaveIsNeverRepaired | store/catalog/catalog.go:221-224 | a run of two saves under sqlblob leaves a record that no repair mends |
| RepairLaws.OnlyRepairedAfter | store/catalog/catalog.go:220-248 | after any number of repairs the stored record differs in its book time, greetings count, sync mark and creator's source at most |
| RepairLaws.StoredFieldsAgree | store/catalog/catalog.go:220-248 | once the repairs are done the stored record and the sheet inside its stored image agree field by field |
| RepairLaws.WhatStaysBroken | store/catalog/catalog.go:226-229 | a stored record whose card can be read is answered BROKEN by every call if and only if one of the listed fields is blank, a time impossible, the tagline missing from the notes, or the sheet with its fields fails its check |

## Left out

- Pebble's `DeleteVersion` with SingleDelete (store/blob/pblob/store.go:231-239), which is only defined for keys written once, and `WithReadTx`/`WithWriteTx` of both backends.
- The SQLite store's `WithReadTx` takes the read lock twice; the deadlock theorem is about the operations the catalog uses.
- Cancelled contexts, I/O failures of the databases inside a call, connection pools and write-ahead logs.
- After a panic in the Pebble store the record transaction stays open; the model leaves both stores unchanged and does not model the stuck lock.
- The closure passed to `WithTx` is the sequence of calls it makes; it does not choose them by what it reads.
- `AUTOINCREMENT` numbers that an upsert may consume without inserting; the model numbers new records consecutively.
- The FTS table: which rows `upsertFTS` leaves (store/record/erecord/store.go:449-468) rests on virtual-table conflict rules, so a content filter's meaning is stated for the matches of one record.
- FTS5 syntax the compiler never produces (NEAR, `*`, `^`, `+`, brace column lists, implicit AND), NUL characters, and the tokenizer.
- Text and regular-expression filters stay opaque predicates; sorting of results is not modelled.
- PNG decoding, thumbnails and encoding: a card is opaque bytes with tags, and an upload says whether it decodes and encodes.
- `ToggleFavorite` (store/record/erecord/store.go:500-509), which writes the column that `UpdateFavoriteData` writes.
- What the image library makes of a repaired sheet: `RecordRepair` assumes that a stored sheet is read back and that thumbnails it makes can be shown.
- `FixIntegrity` on a missing record with a missing sheet.
- File-system failures during export and import, path sanitising, and names of vault folders; the file name template is an arbitrary function whose results end in ".png".
- OpCache.Registry.ListReports: one undisturbed call; interleaved calls are the state machine's steps, on values, because a method body cannot be interrupted.
- MuTracker.Tracker.LockItem: a call on a locked card ends in the model where it waits; that it goes on later is a step of the state machine.
- OperationRegistry.ConservedStep: report changes are those of update operations; import, export and integrity operations change their reports in the same way.
- OperationRegistry.EveryRun: the order of shown reports is the order in which entries are visited, not the order in which concurrent listings return.
- VaultLocks.NoDeadlock: the goroutine that waits for its card handlers is not a step of its own, and the request buffer's and the registry's own locks, under which none of these locks is taken, are not in the hierarchy.
- Fetchers, router, preferences, credentials, templating, image scaling, uploads and logging.
