# Room organizer: a verified model of the inventory store

Room organizer keeps a household inventory in the browser's IndexedDB.
Categories form a tree. Items belong to categories. Numbered migrations
bring the stored records up to date, and a backup document exports and
re-imports all four stores. This project models that core in Dafny and
proves what it promises:

- **The database** (`Store`): four keyed stores, categories, items,
  migrations and settings. They sit in one `Database` object that the
  repositories receive explicitly. A failed `add` is a `ConstraintError`
  and aborts its whole transaction.
- **The category repository** (`CategoryOperations`,
  `src/utils/db/categoryOperations.ts`):
  - create, update and delete;
  - the readers fill in missing defaults;
  - search, children, ancestor path, descendants and recent.
  - Lemmas show that create keeps the ancestor paths consistent with the
    parent links, and that update can leave them stale.
- **The older repository** (`Operations`, `src/utils/db/operations.ts`):
  - its category create copies the form verbatim;
  - its readers return raw records, so a record without a path fails;
  - its seeding of eight starter categories;
  - its export and import.
- **The item repository** (`ItemOperations`, `src/utils/db/itemOperations.ts`):
  - create, update and delete;
  - the per-category listing, with or without subcategories, and its
    page window;
  - the searches and the most recently updated items.
- **Migrations** (`Migrations`, `Migration000` … `Migration003`):
  - loading in version order;
  - the current version, i.e. the largest recorded key;
  - running the pending migrations in order, stopping at the first
    failure;
  - rolling back in descending order;
  - each migration's own effect on the stores.
  - On an empty database the current version is 0, so the initial
    setup migration (version 0) is never pending. Only versions 1 to 3
    run (`Migrations.FreshDatabaseRun`).
- **Backup** (`DbHelpers`, `src/utils/db/dbHelpers.ts`):
  - the export document, with its index lookups;
  - the version guard of import;
  - replace mode and merge mode;
  - the outcome of deleting the database.
  - Merging never overwrites an existing record.
  - With a `by-updated` index present, both import modes invert export
    on the bare records (`ExportReplaceRoundTrip`,
    `ExportMergeRoundTrip`). No code path that runs creates that index,
    so as written export fails as soon as a category or item is stored
    (`ExportAsWrittenFails`, under Findings).
- **Reports** (`Reports`, `src/hooks/useReports.ts`):
  - per-category counts and the visible category list;
  - the recursive subcategory collection and the totals over a subtree.
- **Look and feel** (`Backgrounds`, `Themes`, `src/config/*.ts`):
  - the background catalogue and its per-theme lookups;
  - the four colour themes and their fallbacks.

JavaScript built-ins are modelled in `Js`: ASCII `toLowerCase`,
`includes`, `trim` (over every white-space and line-terminator character
ECMAScript strips, the no-break space and the Unicode space separators
included), `filter`, `slice` and `localeCompare` as code-unit order. The ordering behind `getRecent` is in `Recency`.

## Model

| member | source | states |
|---|---|---|
| Inventory.ParseCategoryForm | src/types/inventory.ts:5-11 | a category form is accepted iff name and color are non-empty; an accepted form keeps its fields and has `isFolder` defaulted to false |
| Inventory.ParseItemForm | src/types/inventory.ts:22-31 | an item form is accepted iff name, category and purchase date are non-empty and quantity and price are not negative; an accepted form is returned unchanged |
| Js.Lower | src/utils/db/categoryOperations.ts:95 | lower-casing keeps the length and maps every code unit on its own |
| Js.LowerIdempotent | src/utils/db/categoryOperations.ts:95 | lower-casing twice is lower-casing once |
| Js.LexLessTransitive | src/utils/db/categoryOperations.ts:135 | the `localeCompare` tie-break order is transitive |
| Js.LexLessTotal | src/utils/db/categoryOperations.ts:135 | any two distinct ids are ordered one way or the other |
| Js.ClampIndex | src/utils/db/itemOperations.ts:73 | a `slice` bound lands in `[0, n]`, counting a negative bound from the end |
| Js.Slice | src/utils/db/itemOperations.ts:70-74 | a slice holds only elements of the array and is no longer than its window |
| Store.Database.constructor | src/utils/db/config.ts:41-71 | a freshly opened database has four empty, well-keyed stores |
| Store.ListKeys | src/utils/db/migrations.ts:21 | `getAllKeys` lists exactly the stored keys, each once |
| Store.ListRecords | src/utils/db/dbHelpers.ts:58-59 | `getAll` lists each stored record exactly once |
| Store.ListCategories | src/utils/db/categoryOperations.ts:81 | the by-name listing enumerates the categories store |
| Store.ListVersions | src/utils/db/migrations.ts:21 | the key listing of the migrations store holds every version once |
| Store.Recorded | src/utils/db/migrations/001_initial_schema.migration.ts:10-13 | putting a migration record files it under its version; other versions and the other stores are unchanged, and well-keyedness is kept |
| Store.Unrecorded | src/utils/db/migrations/001_initial_schema.migration.ts:17 | deleting a version removes only that record |
| Store.UnrecordUndoesRecord | src/utils/db/migrations/001_initial_schema.migration.ts:8-18 | deleting a version just put restores the state it was put into, and conversely |
| Store.MapOf | src/utils/db/dbHelpers.ts:136-147 | every record's key is in the store built from a batch, and with distinct keys each key holds its own record |
| Store.MapOfKeys | src/utils/db/dbHelpers.ts:136-147 | a store built from a batch holds no key that is not some record's key |
| Store.AddAll | src/utils/db/dbHelpers.ts:136-147 | a batch of `add`s that succeeds keeps every key already stored |
| Store.AddAllSucceeds | src/utils/db/dbHelpers.ts:136-147 | a batch of `add`s succeeds iff its keys are distinct and none is already stored, and then the store is the old one plus the batch |
| Store.AddAllKeeps | src/utils/db/dbHelpers.ts:136-147 | a successful batch leaves every stored record as it was |
| Store.AddAllKeyed | src/utils/db/dbHelpers.ts:136-147 | a successful batch keeps every record filed under its own key |
| Store.ListingRebuilds | src/utils/db/dbHelpers.ts:136-147 | adding a complete listing of a store to an empty store rebuilds exactly that store |
| Store.StageAdds | src/utils/db/dbHelpers.ts:136-147 | adding the records one at a time, stopping at the first failure, gives the batch outcome |
| Store.AddAllFailsOnward | src/utils/db/dbHelpers.ts:136-147 | once one `add` of a batch fails, the whole batch fails |
| Recency.BeforeAsymmetric | src/utils/db/categoryOperations.ts:133-136 | the getRecent comparator never puts two records each before the other |
| Recency.NotAfterTotal | src/utils/db/categoryOperations.ts:133-136 | any two records are comparable |
| Recency.NotAfterTransitive | src/utils/db/categoryOperations.ts:133-136 | the comparator's order is transitive |
| Recency.InsertSorted | src/utils/db/categoryOperations.ts:133-136 | inserting into a sorted list keeps it sorted and adds exactly that element |
| Recency.SortRecent | src/utils/db/categoryOperations.ts:128-136 | the sort is a permutation, newest first, ties by ascending id |
| Recency.Recent | src/utils/db/categoryOperations.ts:128-139 | `limit` (or all) records, sorted, taken from the input, none older than a record left out |
| Recency.SortedPrefix | src/utils/db/categoryOperations.ts:139 | a prefix of the sorted list is sorted, drawn from the input, and at least as recent as the rest |
| CategoryOperations.Normalize | src/utils/db/categoryOperations.ts:71-76 | a read record has `isFolder` (default false) and a path and level (default `[]`, 0); every other field is as stored |
| CategoryOperations.NormalizeIdempotent | src/utils/db/categoryOperations.ts:71-76 | filling in defaults twice changes nothing more, and never changes a present path |
| CategoryOperations.GetById | src/utils/db/categoryOperations.ts:66-77 | found iff the id is stored, and then the stored record with defaults |
| CategoryOperations.GetAll | src/utils/db/categoryOperations.ts:79-88 | every listed record with defaults, in listing order |
| CategoryOperations.Placement | src/utils/db/categoryOperations.ts:12-21 | under a stored parent the path is the parent's path plus the parent and the level one more; otherwise a root position |
| CategoryOperations.NewCategory | src/utils/db/categoryOperations.ts:23-34 | the record is stamped with its id and the creation time twice, a missing parent becomes null, `isFolder` defaults to false, and the record already reads as `getById` normalizes it |
| CategoryOperations.Create | src/utils/db/categoryOperations.ts:7-38 | a new id stores and returns the new record; a taken id fails with a constraint error and changes nothing |
| CategoryOperations.CreatePlacement | src/utils/db/categoryOperations.ts:7-38 | the created record copies the form, defaults `parentId` to null and `isFolder` to false, and places itself under its parent |
| CategoryOperations.CreateUnderMissingParent | src/utils/db/categoryOperations.ts:15-21 | with an unknown parent id the record keeps that `parentId` but is placed at the root |
| CategoryOperations.CreatePreservesPathLevel | src/utils/db/categoryOperations.ts:15-31 | create keeps every level equal to its path's length |
| CategoryOperations.CreatePreservesTree | src/utils/db/categoryOperations.ts:15-31 | create of a fresh id keeps the tree acyclic and every path matching its parent links |
| CategoryOperations.Merge | src/utils/db/categoryOperations.ts:45-55 | an update overrides exactly the given fields, keeps id, creation time, path and level, and stamps the update time |
| CategoryOperations.Update | src/utils/db/categoryOperations.ts:40-59 | an unknown id fails with "Category not found" and changes nothing; otherwise the merged record replaces the old one |
| CategoryOperations.UpdatePreservesTreeFacts | src/utils/db/categoryOperations.ts:45-55 | update keeps levels matching paths and no category is its own ancestor |
| CategoryOperations.UpdateLeavesPathStale | src/utils/db/categoryOperations.ts:53-54 | moving a root under another category leaves its path out of step with its parent link |
| CategoryOperations.Delete | src/utils/db/categoryOperations.ts:61-64 | delete removes only that id from the categories store |
| CategoryOperations.DeleteOrphansChildren | src/utils/db/categoryOperations.ts:61-64 | a descendant of a deleted category keeps the deleted id in its path |
| CategoryOperations.DeletePreservesTree | src/utils/db/categoryOperations.ts:61-64 | delete keeps the tree facts |
| CategoryOperations.Search | src/utils/db/categoryOperations.ts:90-103 | the records in scope whose name or description contains the lower-cased query |
| CategoryOperations.SearchIgnoresCase | src/utils/db/categoryOperations.ts:95 | lower-casing the query first changes nothing |
| CategoryOperations.SearchBoxScenario | src/utils/db/categoryOperations.ts:90-103 | "box" finds "Storage Boxes" and not "Wardrobe" |
| CategoryOperations.GetChildren | src/utils/db/categoryOperations.ts:105-108 | exactly the records whose `parentId` is strictly equal to the argument |
| CategoryOperations.ResolvePath | src/utils/db/categoryOperations.ts:114-115 | one record per stored ancestor id, in path order, the unresolved ids dropped |
| CategoryOperations.ResolveAllStored | src/utils/db/categoryOperations.ts:114-115 | when every id of the path is stored, one record per id, in path order |
| CategoryOperations.GetPath | src/utils/db/categoryOperations.ts:110-116 | empty for an unknown id; otherwise the records of the stored path ids, in path order |
| CategoryOperations.GetPathAfterDelete | src/utils/db/categoryOperations.ts:110-116 | after deleting a category, another category's path is its earlier path without the deleted record, order kept |
| CategoryOperations.GetPathComplete | src/utils/db/categoryOperations.ts:110-116 | with every ancestor stored, the path has `level` entries, in path order |
| CategoryOperations.GetDescendants | src/utils/db/categoryOperations.ts:118-121 | exactly the records whose path contains the id |
| CategoryOperations.NotOwnDescendant | src/utils/db/categoryOperations.ts:118-121 | in an acyclic tree a category is not among its own descendants |
| CategoryOperations.ChildrenAreDescendants | src/utils/db/categoryOperations.ts:118-121 | with paths matching parent links, every child is a descendant |
| CategoryOperations.GetRecent | src/utils/db/categoryOperations.ts:123-140 | read through a `by-updated` index: the `limit` (default 5) most recently updated categories, newest first, ties by id |
| CategoryOperations.GetRecentAsWritten | src/utils/db/categoryOperations.ts:123-127 | as written, the read through the missing `by-updated` index fails with a NotFoundError for every store and limit |
| ItemOperations.NewItem | src/utils/db/itemOperations.ts:11-16 | the new item carries the form unchanged, the id and equal creation and update times |
| ItemOperations.Create | src/utils/db/itemOperations.ts:8-19 | a new id stores the new item; a taken id fails with a constraint error and changes nothing |
| ItemOperations.MergeItem | src/utils/db/itemOperations.ts:26-30 | an update overrides exactly the given fields, keeps id and creation time, and stamps the update time |
| ItemOperations.MergeItemProperties | src/utils/db/itemOperations.ts:26-30 | an empty patch only restamps, and the same patch twice equals it once |
| ItemOperations.Update | src/utils/db/itemOperations.ts:21-33 | an unknown id fails with "Item not found" and changes nothing; otherwise the merged item replaces the old one |
| ItemOperations.Delete | src/utils/db/itemOperations.ts:35-38 | delete removes only that id from the items store |
| ItemOperations.GetById | src/utils/db/itemOperations.ts:40-43 | found iff stored, and then the stored item |
| ItemOperations.CreateThenGet | src/utils/db/itemOperations.ts:8-43 | an item just created reads back; one just deleted does not |
| ItemOperations.InCategory | src/utils/db/itemOperations.ts:67 | exactly the items of that category |
| ItemOperations.Paginate | src/utils/db/itemOperations.ts:70-76 | page or limit 0 (falsy) returns everything; any page holds only listed items |
| ItemOperations.PageWindow | src/utils/db/itemOperations.ts:70-74 | page p of size l is the window starting at (p-1)·l, at most l long, empty past the end |
| ItemOperations.PagesTile | src/utils/db/itemOperations.ts:70-74 | two consecutive pages join into one contiguous window |
| ItemOperations.Gather | src/utils/db/itemOperations.ts:58-65 | exactly the items whose category is in the id list |
| ItemOperations.SubtreeIds | src/utils/db/itemOperations.ts:55 | the category id followed by its descendants' ids |
| ItemOperations.GetByCategory | src/utils/db/itemOperations.ts:45-77 | the page of the category's items; with subcategories, the page of the items of the category then each descendant, or the failure of the descendant lookup |
| ItemOperations.GatherSplit | src/utils/db/itemOperations.ts:58-65 | the gathering loop appends one category's items per step |
| ItemOperations.SubtreeIdsMembers | src/utils/db/itemOperations.ts:55 | an id is collected iff it is the category or a descendant |
| ItemOperations.SubtreeIdsExact | src/utils/db/itemOperations.ts:52-55 | the collected ids are exactly the subtree |
| ItemOperations.SubtreeItems | src/utils/db/itemOperations.ts:52-68 | with subcategories, exactly the subtree's items, the category's own first |
| ItemOperations.GetAll | src/utils/db/itemOperations.ts:79-90 | everything unless page and limit are set; a set page holds at most `limit` listed items |
| ItemOperations.Search | src/utils/db/itemOperations.ts:92-101 | exactly the items whose name or description contains the lower-cased query |
| ItemOperations.SearchIgnoresCase | src/utils/db/itemOperations.ts:95 | lower-casing the query first changes nothing |
| ItemOperations.SearchInCategory | src/utils/db/itemOperations.ts:103-126 | items of the category whose name, description or notes match; all of them when not paged |
| ItemOperations.SearchInCategoryCoversSearch | src/utils/db/itemOperations.ts:103-126 | an item of the category found by the global search is found by the category search |
| ItemOperations.GetRecent | src/utils/db/itemOperations.ts:128-144 | read through a `by-updated` index: the `limit` (default 5) most recently updated items, newest first, ties by id |
| ItemOperations.GetRecentAsWritten | src/utils/db/itemOperations.ts:128-130 | as written, the read through the missing `by-updated` index fails with a NotFoundError for every store and limit |
| Operations.LegacyPlacement | src/utils/db/operations.ts:16-26 | spreading a stored parent without a path throws a TypeError; otherwise the same placement as the newer create |
| Operations.LegacyCreateAgrees | src/utils/db/operations.ts:12-39 | where it does not throw, the legacy create builds the newer record without the `parentId`/`isFolder` defaults |
| Operations.CreateResult | src/utils/db/operations.ts:12-39 | TypeError first, then constraint error on a taken id, else the new record under that id |
| Operations.Create | src/utils/db/operations.ts:12-39 | the store gains the record exactly when the outcome is a success |
| Operations.GetById | src/utils/db/operations.ts:60-63 | the raw stored record, which the newer reader returns with defaults |
| Operations.Search | src/utils/db/operations.ts:70-80 | exactly the raw records whose name or description matches |
| Operations.SearchAgrees | src/utils/db/operations.ts:70-80 | with defaults filled in, the legacy search equals the newer unscoped search |
| Operations.GetChildren | src/utils/db/operations.ts:82-86 | exactly the raw records with that parent |
| Operations.GetChildrenAgrees | src/utils/db/operations.ts:82-86 | with defaults filled in, equal to the newer `getChildren` |
| Operations.ResolveRaw | src/utils/db/operations.ts:93-95 | with defaults filled in, equal to the newer path resolution |
| Operations.GetPath | src/utils/db/operations.ts:88-96 | throws a TypeError iff the record is stored without a path; otherwise the newer result, raw |
| Operations.GetDescendants | src/utils/db/operations.ts:98-103 | throws a TypeError iff some record has no path; otherwise exactly the records whose path has the id |
| Operations.Seeded | src/utils/db/operations.ts:236-291 | the eight starter records: two root folders, then six children under Storage and Furniture |
| Operations.SeedCategories | src/utils/db/operations.ts:236-291 | the seeding creates leave the store as the seeding function says |
| Operations.SeedFresh | src/utils/db/operations.ts:236-291 | with eight fresh ids the seeding succeeds and adds exactly the eight records |
| Operations.Seed | src/utils/db/operations.ts:236-291 | seeding never changes a record already stored; a seeding without failure returns eight records |
| Operations.ChildRunKeeps | src/utils/db/operations.ts:251-291 | the child creates only add records, the first failure is the one remembered, and a run without failure made one record per create |
| Operations.CreateChildren | src/utils/db/operations.ts:251-291 | the six child creates change only the categories store, as the run of `Operations.ChildRun` says |
| Operations.ChildRunFresh | src/utils/db/operations.ts:251-291 | each child create succeeds in turn and adds its record |
| Operations.Initialize | src/utils/db/operations.ts:230-293 | a non-empty store is left alone; an empty one is seeded |
| Operations.SeedEmptyStore | src/utils/db/operations.ts:230-293 | seeding an empty store yields eight records forming a consistent, acyclic tree |
| Operations.SeededTree | src/utils/db/operations.ts:236-291 | the starter records form a consistent, acyclic tree |
| Operations.ExportData | src/utils/db/operations.ts:295-299 | the export holds the category and item listings as read |
| Operations.Import | src/utils/db/operations.ts:301-311 | the corrected import adds every category and item, or fails with a constraint error; migrations and settings untouched |
| Operations.ImportAsWritten | src/utils/db/operations.ts:301-311 | `tx.store` on a two-store transaction throws a TypeError for any category; with none it is the corrected import |
| Operations.ImportOnlyAdds | src/utils/db/operations.ts:301-311 | a successful import keeps every existing record and adds only new ids |
| Operations.ExportImportRoundTrip | src/utils/db/operations.ts:295-311 | importing an export into an empty database restores its categories and items |
| Operations.ExportImportAsWrittenFails | src/utils/db/operations.ts:306 | as written, re-importing any non-empty export fails |
| Operations.ImportData | src/utils/db/operations.ts:301-311 | the database ends as the corrected import says, unchanged on failure |
| Operations.ImportDataAsWritten | src/utils/db/operations.ts:301-311 | the database ends as the import as written says, unchanged on failure |
| Migration000.Migrated | src/utils/db/migrations/000_initial_setup.migration.ts:9-79 | seeds the categories with the legacy create (children explicitly not folders) and records version 0 only when seeding succeeds |
| Migration000.RolledBack | src/utils/db/migrations/000_initial_setup.migration.ts:80-89 | every category deleted and version 0 removed |
| Migration000.Migrate | src/utils/db/migrations/000_initial_setup.migration.ts:9-79 | the database ends as `Migrated` says |
| Migration000.Rollback | src/utils/db/migrations/000_initial_setup.migration.ts:80-89 | the database ends as `RolledBack` says |
| Migration000.MigrateEmptyStore | src/utils/db/migrations/000_initial_setup.migration.ts:9-79 | on an empty store: success, version 0 recorded, eight categories, two root folders and six children one level down |
| Migration000.RollbackAfterMigrate | src/utils/db/migrations/000_initial_setup.migration.ts:9-89 | rollback after migrate leaves no categories and the migration records as before |
| Migration001.Migrate | src/utils/db/migrations/001_initial_schema.migration.ts:8-14 | records version 1 and nothing else |
| Migration001.Rollback | src/utils/db/migrations/001_initial_schema.migration.ts:15-18 | removes version 1 and nothing else |
| Migration002.Reset | src/utils/db/migrations/002_add_category_hierarchy.migration.ts:16-22 | a migrated record is a root folder with empty path, other fields kept |
| Migration002.Strip | src/utils/db/migrations/002_add_category_hierarchy.migration.ts:42 | a rolled-back record loses path, level, `isFolder` and `parentId` and keeps the rest |
| Migration002.ResetAll | src/utils/db/migrations/002_add_category_hierarchy.migration.ts:15-25 | every stored category reset, no key added or lost |
| Migration002.StripAll | src/utils/db/migrations/002_add_category_hierarchy.migration.ts:41-44 | every stored category stripped, no key added or lost |
| Migration002.Migrated | src/utils/db/migrations/002_add_category_hierarchy.migration.ts:8-33 | all categories reset and version 2 recorded |
| Migration002.RolledBack | src/utils/db/migrations/002_add_category_hierarchy.migration.ts:34-48 | all categories stripped and version 2 removed |
| Migration002.RewriteCategories | src/utils/db/migrations/002_add_category_hierarchy.migration.ts:13-25 | the put loop rewrites each category under its own key |
| Migration002.Migrate | src/utils/db/migrations/002_add_category_hierarchy.migration.ts:8-33 | the database ends as `Migrated` says |
| Migration002.Rollback | src/utils/db/migrations/002_add_category_hierarchy.migration.ts:34-48 | the database ends as `RolledBack` says |
| Migration002.MigrateIdempotent | src/utils/db/migrations/002_add_category_hierarchy.migration.ts:8-33 | migrating twice leaves the categories as migrating once |
| Migration002.MigratedAreRoots | src/utils/db/migrations/002_add_category_hierarchy.migration.ts:15-25 | after migrating, every category is an undefined-parent root folder and the tree facts hold |
| Migration002.MigratedRootsNotListedUnderNull | src/utils/db/migrations/002_add_category_hierarchy.migration.ts:21 | with `parentId` undefined, `getChildren(null)` lists none of the migrated roots |
| Migration002.RollbackForgetsHierarchy | src/utils/db/migrations/002_add_category_hierarchy.migration.ts:8-48 | rollback after migrate equals rollback alone on the categories, and restores the migration records |
| Migration003.Migrate | src/utils/db/migrations/003_add_updated_index.migration.ts:9-54 | records version 3 and nothing else |
| Migration003.Rollback | src/utils/db/migrations/003_add_updated_index.migration.ts:55-84 | removes version 3 and nothing else |
| Migrations.InsertSorted | src/utils/db/migrations.ts:14 | insertion keeps a version-sorted list sorted and adds the element |
| Migrations.Sort | src/utils/db/migrations.ts:14 | a permutation sorted by version (ascending or descending) |
| Migrations.LoadMigrations | src/utils/db/migrations.ts:5-15 | the four migration files, sorted by version |
| Migrations.LoadedInOrder | src/utils/db/migrations.ts:5-15 | the loaded order is 0, 1, 2, 3 |
| Migrations.CurrentVersion | src/utils/db/migrations.ts:23 | 0 for no keys, otherwise the largest key |
| Migrations.CurrentVersionOfStore | src/utils/db/migrations.ts:17-24 | computed from a key listing, it is the current version of the store |
| Migrations.CurrentVersionUnique | src/utils/db/migrations.ts:23 | a store has one current version |
| Migrations.GetCurrentVersion | src/utils/db/migrations.ts:17-24 | returns the current version of the migrations store |
| Migrations.Migrate | src/utils/db/migrations.ts:42 | only the initial setup can fail, and a success records the migration's version |
| Migrations.Rollback | src/utils/db/migrations.ts:71 | a rollback removes exactly its own version |
| Migrations.RunOne | src/utils/db/migrations.ts:39-48 | one migration leaves the database as `Migrate` says |
| Migrations.RollbackOne | src/utils/db/migrations.ts:66-77 | one rollback leaves the database as `Rollback` says |
| Migrations.Pending | src/utils/db/migrations.ts:30-32 | exactly the migrations newer than the current version, still sorted |
| Migrations.ToRollback | src/utils/db/migrations.ts:62-64 | exactly the versions above the target and up to the current one, newest first |
| Migrations.RunEach | src/utils/db/migrations.ts:39-48 | the loop runs the pending migrations in order and stops at the first failure |
| Migrations.RunMigrations | src/utils/db/migrations.ts:26-51 | reads the current version and runs what is pending after it |
| Migrations.RollbackEach | src/utils/db/migrations.ts:66-77 | the loop rolls back each chosen migration in order |
| Migrations.RollbackMigration | src/utils/db/migrations.ts:53-80 | nothing happens for a target at or above the current version; otherwise the newer migrations roll back, newest first |
| Migrations.InitialSetupNeverPending | src/utils/db/migrations.ts:27-32 | with non-negative versions, the initial setup (version 0) is never pending |
| Migrations.RunWritesOnlyMigrationRecords | src/utils/db/migrations.ts:39-48 | a run adds only the versions of the migrations it ran |
| Migrations.MigrateWritesOwnRecord | src/utils/db/migrations.ts:42 | one migration adds at most its own version |
| Migrations.RunRecordsEach | src/utils/db/migrations.ts:39-48 | a successful run records every migration it ran |
| Migrations.RunKeepsRecords | src/utils/db/migrations.ts:39-48 | a run never removes a recorded version |
| Migrations.PendingAtZero | src/utils/db/migrations.ts:30-32 | at version 0 the pending list is versions 1, 2, 3 |
| Migrations.RunSchemaMigrations | src/utils/db/migrations.ts:39-48 | running versions 1 to 3 records 1, resets the hierarchy and records 2, then records 3 |
| Migrations.FreshDatabaseRun | src/utils/db/migrations.ts:26-48 | on an empty database the run succeeds, seeds no category and records versions 1, 2 and 3 |
| DbHelpers.IndexGet | src/utils/db/dbHelpers.ts:65 | an index `get` is undefined iff nothing matches, and otherwise an indexed record that matches |
| DbHelpers.IndexGetFirst | src/utils/db/dbHelpers.ts:65 | the record found is the first match in index order |
| DbHelpers.ExportCategory | src/utils/db/dbHelpers.ts:63-69 | with a `by-updated` index present, an exported category carries the record itself |
| DbHelpers.ExportItem | src/utils/db/dbHelpers.ts:73-78 | with a `by-updated` index present, an exported item carries the record itself |
| DbHelpers.ExportDocument | src/utils/db/dbHelpers.ts:81-90 | with a `by-updated` index present, the document holds version, time, every category and item with its lookups, migrations and settings |
| DbHelpers.IndexGetFinds | src/utils/db/dbHelpers.ts:62-79 | a lookup for a stored record's own field always finds a stored record |
| DbHelpers.ExportCategoryResolves | src/utils/db/dbHelpers.ts:62-70 | with a `by-updated` index present, each category's lookups find records with its name and update time, and itself when its name is unique |
| DbHelpers.ExportItemResolves | src/utils/db/dbHelpers.ts:72-79 | with a `by-updated` index present, each item's lookups find records with its category, name and update time |
| DbHelpers.ExportData | src/utils/db/dbHelpers.ts:45-94 | with a `by-updated` index present, the document has the current version and lists each of the four stores completely |
| DbHelpers.ExportCategoryAsWritten | src/utils/db/dbHelpers.ts:62-70 | as written, a category's lookups fail at the `by-updated` index with a NotFoundError |
| DbHelpers.ExportItemAsWritten | src/utils/db/dbHelpers.ts:72-79 | as written, an item's lookups fail at the `by-updated` index with a NotFoundError |
| DbHelpers.ExportCategoriesAsWritten | src/utils/db/dbHelpers.ts:62-70 | `Promise.all` over the categories succeeds exactly when there are none, and otherwise fails with the NotFoundError |
| DbHelpers.ExportItemsAsWritten | src/utils/db/dbHelpers.ts:72-79 | `Promise.all` over the items succeeds exactly when there are none, and otherwise fails with the NotFoundError |
| DbHelpers.ExportAsWritten | src/utils/db/dbHelpers.ts:45-94 | as written, export yields a document iff both listings are empty, and then the same document as with the index |
| DbHelpers.ExportAsWrittenFails | src/utils/db/dbHelpers.ts:62-79 | as written, exporting a database that stores one category or item fails with a NotFoundError |
| DbHelpers.Replace | src/utils/db/dbHelpers.ts:123-147 | replace succeeds iff each store's batch adds into an empty store |
| DbHelpers.MergeSkip | src/utils/db/dbHelpers.ts:154-166 | the category/item merge keeps every existing record and ends with every document key present |
| DbHelpers.MergeSkipAdds | src/utils/db/dbHelpers.ts:154-166 | a newly added key holds the first document record with that key |
| DbHelpers.MergeSkipPresent | src/utils/db/dbHelpers.ts:154-166 | merging records whose keys are all present changes nothing |
| DbHelpers.AbsentOnly | src/utils/db/dbHelpers.ts:168-184 | the migrations and settings that get added are exactly those absent before the merge |
| DbHelpers.Merge | src/utils/db/dbHelpers.ts:148-187 | merge fails iff two absent migrations or settings share a key; categories and items skip present keys |
| DbHelpers.ImportResult | src/utils/db/dbHelpers.ts:96-190 | a document newer than the database is refused with a version conflict; any other failure is a constraint error |
| DbHelpers.ReplaceExact | src/utils/db/dbHelpers.ts:123-147 | replace succeeds iff each store's keys are distinct, and the stores then hold exactly the document |
| DbHelpers.MergeNeverOverwrites | src/utils/db/dbHelpers.ts:148-187 | a merge keeps every existing record and leaves every document key present |
| DbHelpers.MergeAddsAbsent | src/utils/db/dbHelpers.ts:168-184 | adding the absent migrations or settings keeps the old ones and covers every document key |
| DbHelpers.MergeTwice | src/utils/db/dbHelpers.ts:148-187 | merging the same document twice equals merging it once |
| DbHelpers.ExportReplaceRoundTrip | src/utils/db/dbHelpers.ts:45-147 | with a `by-updated` index present, replacing any database with an export restores the exported database |
| DbHelpers.ExportMergeRoundTrip | src/utils/db/dbHelpers.ts:45-190 | with a `by-updated` index present, merging a database's own export into it changes nothing |
| DbHelpers.MergePresent | src/utils/db/dbHelpers.ts:148-187 | a document whose keys are all present merges to the same state |
| DbHelpers.MergeImportPresent | src/utils/db/dbHelpers.ts:112-187 | importing such a document in merge mode succeeds and leaves the database as it was |
| DbHelpers.StageMerge | src/utils/db/dbHelpers.ts:154-166 | the get-then-add loop computes the category/item merge |
| DbHelpers.CollectAbsent | src/utils/db/dbHelpers.ts:168-184 | the existence checks pick out exactly the absent records |
| DbHelpers.ImportData | src/utils/db/dbHelpers.ts:96-190 | the database ends as `ImportResult` says for its current version, and is unchanged on any error |
| DbHelpers.DeleteDatabase | src/utils/db/dbHelpers.ts:11-43 | true only when the delete request succeeds |
| Reports.DirectItems | src/hooks/useReports.ts:182-184 | exactly the items filed directly under the category |
| Reports.Subcategories | src/hooks/useReports.ts:43-45 | exactly the categories whose parent is the category |
| Reports.Counts | src/hooks/useReports.ts:39-46 | one count per listed category: its direct items and its direct children |
| Reports.CurrentCategories | src/hooks/useReports.ts:96-112 | a non-blank search matches name or description; else the roots (no parent); else the selected category's children |
| Reports.Total | src/hooks/useReports.ts:162-166 | a sum of non-negative amounts is non-negative |
| Reports.TotalAppend | src/hooks/useReports.ts:191-201 | a total over two lists is the sum of their totals |
| Reports.TotalDisjointFilters | src/hooks/useReports.ts:191-201 | direct plus subcategory totals equal the total over their union when no item is in both |
| Reports.SubcategoryIds | src/hooks/useReports.ts:172-177 | a finished recursion lists at least one id per direct subcategory |
| Reports.ChildIds | src/hooks/useReports.ts:174-176 | a finished reduce lists at least one id per child; with the depth budget spent and a child left, the recursion overflows |
| Reports.ChildIdsMembers | src/hooks/useReports.ts:174-176 | the reduce collects each child and the child's own subcategory ids, nothing else |
| Reports.ChildIdsFails | src/hooks/useReports.ts:174-176 | if one child's recursion overflows, the whole collection does |
| Reports.SubcategoryIdsSound | src/hooks/useReports.ts:172-177 | every collected id is a category whose parent is the start or already collected |
| Reports.SubcategoryIdsComplete | src/hooks/useReports.ts:172-177 | every category whose parent is the start or collected is itself collected |
| Reports.SubcategoryIdsRanked | src/hooks/useReports.ts:172-177 | in a tree whose parent links descend by rank, the recursion finishes and collects only lower-ranked ids |
| Reports.ChildIdsRanked | src/hooks/useReports.ts:174-176 | the same for the reduce over a parent's children |
| Reports.SelfParentOverflows | src/hooks/useReports.ts:172-177 | a category that is its own parent makes the recursion overflow for every depth |
| Reports.ItemsUnder | src/hooks/useReports.ts:187-189 | exactly the items whose category is collected |
| Reports.CalculateTotals | src/hooks/useReports.ts:158-209 | at the root, totals of everything; with a selection, fails iff the recursion overflows, and otherwise lists the direct items and counts the collected categories |
| Reports.SubtreeTotals | src/hooks/useReports.ts:179-201 | in a well-founded tree, quantity and value totals are the totals over the items of the whole subtree |
| Backgrounds.CatalogueThemes | src/config/backgrounds.ts:38-168 | every catalogue entry names only the four themes, and none names "all" |
| Backgrounds.BackgroundsForTheme | src/config/backgrounds.ts:171-176 | exactly the entries offering the theme or "all" |
| Backgrounds.ForThemeExactly | src/config/backgrounds.ts:171-176 | exactly the entries that name the theme itself |
| Backgrounds.Ids | src/config/themes.ts:55-57 | the ids, one per entry, in order |
| Backgrounds.IdsOfFilter | src/config/themes.ts:55-57 | an id is listed iff an entry passing the filter has it |
| Backgrounds.DefaultAmong | src/config/backgrounds.ts:179-182 | the id of the first offering entry (or "sparkles" if it is empty), and "sparkles" when none offers |
| Backgrounds.FirstOffer | src/config/backgrounds.ts:180-181 | the head of the filtered list is the first entry offering the theme |
| Backgrounds.DefaultBackgroundForTheme | src/config/backgrounds.ts:179-182 | a known theme gets the first background it offers, an unknown one "sparkles"; for every theme the result is "sparkles" |
| Backgrounds.UnknownThemeDefault | src/config/backgrounds.ts:179-182 | an unknown theme gets no backgrounds and "sparkles" |
| Themes.Themes | src/config/themes.ts:30-146 | the record holds exactly the four themes of the background catalogue, each filed under its own id |
| Themes.AvailableBackgrounds | src/config/themes.ts:55-57 | a theme offers exactly the ids of the catalogue entries that list its id, no more ids than the catalogue has |
| Themes.AvailableMatchesCatalogue | src/config/themes.ts:55-57 | a theme's available backgrounds are exactly its catalogue entries' ids |
| Themes.DarkDefaultUnlisted | src/config/themes.ts:83 | as written, the dark default "stars" is no catalogue id and not offered by the dark theme |
| Themes.ListedHas | src/config/themes.ts:84-86 | an entry naming a theme is among that theme's backgrounds |
| Themes.DefaultsAvailable | src/config/themes.ts:30-146 | with the correction, every theme's default is one it offers |
| Themes.GetThemeConfig | src/config/themes.ts:149-151 | the theme filed under the id, else the light theme |
| Themes.GetDefaultUISettings | src/config/themes.ts:153-155 | the theme's UI tuning, else the light tuning |
| Themes.GetThemeColors | src/config/themes.ts:157-159 | the theme's colours, else the light colours |
| Themes.GetThemeBackground | src/config/themes.ts:161-163 | always a background the resolved theme offers; "sparkles" for an unknown id |

## Left out

- Opening and upgrading the browser database (`src/utils/db/config.ts`) are not modelled. The object stores are assumed to exist. `dbHelpers.initialize` only opens the database and is not modelled either.
- The settings helpers in `src/utils/db/settings.ts` are not part of this model. Settings appear only as a store of keyed records.
- `uuidv4()` and `new Date()` become `id` and `now` parameters. Dates are integer timestamps. Prices and quantities are integers, not floating point.
- Index reads (`getAllFromIndex` by name, by category, by update time) and `getAll` are listing parameters. The model states which records a listing holds, not its order. The "by-updated" index is never created by the upgrade code, so in the browser those reads fail: the members named below model them with the index present, and the as-written members under Findings model the failure.
- `toLowerCase` is modelled on ASCII letters only. `localeCompare` is modelled as code-unit order.
- A partial update with a key explicitly set to `undefined` is not modelled; a patch field is either given or absent. Under this reading the legacy and newer category `update` coincide.
- `Promise.all` over independent writes is modelled as the writes in sequence. Interleavings and concurrent transactions are not modelled.
- Import stores the extra lookup fields of an exported record (`byName`, `byUpdated`, `byCategory`) in the source. The model imports the bare records.
- The index creation inside the 003 migration sits behind a guard that never holds after opening, so only its migration record is modelled.
- The item operations in `src/utils/db/operations.ts:106-227` are the same code as `src/utils/db/itemOperations.ts` without `getRecent`. They are modelled once, in `ItemOperations`. The legacy category `update` and `delete` are likewise modelled in `CategoryOperations`.
- DbHelpers.DeleteDatabase: closing the connection, the 100 ms delay and the browser's delete request are reduced to the event the request reports.
- React state, navigation and loading flags in `src/hooks/useReports.ts` are not modelled. The reports take the category and item lists as parameters.
- Icons in the background catalogue are components and are not modelled. `getThemeConfig` on ids such as "constructor" (inherited object keys) is not modelled; those fall back to the light theme here.
- Reports.CalculateTotals: the JavaScript stack overflow of `getSubcategoryIds` is modelled by a depth bound of one more than the number of categories. The model does not prove that each id is collected only once.
- Reports.SubcategoryIds: termination is proved only for trees whose parent links descend along some rank bounded by the number of categories (`Reports.SubcategoryIdsRanked`).
- Themes.AvailableBackgrounds: each theme's `availableBackgrounds` array is modelled as a function of the theme's id (the catalogue filter the array literal evaluates once at load time), not as a stored field of the theme record.
- Themes.GetThemeConfig: the dark theme record it returns carries the corrected default background "star", where the source's record has "stars" (see Findings).
- Themes.Themes: the theme record it describes holds the corrected dark theme, with "star" as its default background.
- CategoryOperations.GetRecent: models the read through a `by-updated` index. The categories store has no such index, so the source always fails (`CategoryOperations.GetRecentAsWritten`, under Findings).
- ItemOperations.GetRecent: models the read through a `by-updated` index. The items store has no such index, so the source always fails (`ItemOperations.GetRecentAsWritten`, under Findings).
- DbHelpers.ExportCategory: models the lookups with a `by-updated` index present. As written that lookup fails (`DbHelpers.ExportCategoryAsWritten`).
- DbHelpers.ExportItem: models the lookups with a `by-updated` index present. As written that lookup fails (`DbHelpers.ExportItemAsWritten`).
- DbHelpers.ExportDocument: is the document built with a `by-updated` index present. As written it is produced only when no category or item is stored (`DbHelpers.ExportAsWritten`).
- DbHelpers.ExportCategoryResolves: its `byUpdated` half holds only with a `by-updated` index present; as written that lookup fails.
- DbHelpers.ExportItemResolves: its `byUpdated` half holds only with a `by-updated` index present; as written that lookup fails.
- DbHelpers.ExportData: models the export with a `by-updated` index present. As written the export fails with a NotFoundError once a category or item is stored (`DbHelpers.ExportAsWrittenFails`, under Findings).
- DbHelpers.ExportReplaceRoundTrip: holds for the export made with a `by-updated` index present, and for the bare records; the lookup fields the source also stores on import are not modelled.
- DbHelpers.ExportMergeRoundTrip: holds for the export made with a `by-updated` index present, and for the bare records; the lookup fields the source also stores on import are not modelled.
- Themes.GetThemeBackground: returns "star" for the dark theme, the corrected default, where the source returns "stars".
- The call of `runMigrations` from the upgrade callback (`src/utils/db/config.ts:66`) is not modelled. The runner is modelled as called on an open database. Each migration write is its own transaction, so a failing migration keeps the writes it made before failing.

## Findings

| source | as written | input that shows it | evidently intended | confidence | as-written member | corrected member |
|---|---|---|---|---|---|---|
| src/utils/db/operations.ts:306 | categories are added through `tx.store`, which a transaction over two stores does not have, so the first category add throws a TypeError | any import whose `categories` list is non-empty, e.g. re-importing the export of a database with one category | add the categories through `tx.objectStore("categories")`, as the items are | not executed | Operations.ExportImportAsWrittenFails | Operations.ExportImportRoundTrip |
| src/utils/db/dbHelpers.ts:66-68 | `exportData` looks up every category and item in a `by-updated` index, which the upgrade code (`src/utils/db/config.ts:44-55`) never creates, so `index("by-updated")` throws a NotFoundError | exporting any database that stores one category, e.g. one just seeded with the starter categories | a `by-updated` index on both stores, as the 003 migration tries to create, so that export succeeds and re-imports | not executed | DbHelpers.ExportAsWrittenFails | DbHelpers.ExportReplaceRoundTrip |
| src/utils/db/categoryOperations.ts:126 | `getRecent` reads the categories through the `by-updated` index, which the store does not have | any call, e.g. `getRecent()` on the seeded store, throws a NotFoundError | the five most recently updated categories, newest first | not executed | CategoryOperations.GetRecentAsWritten | CategoryOperations.GetRecent |
| src/utils/db/itemOperations.ts:130 | `getRecent` reads the items through the `by-updated` index, which the store does not have | any call, e.g. `getRecent(3)` on a store with items, throws a NotFoundError | the `limit` most recently updated items, newest first | not executed | ItemOperations.GetRecentAsWritten | ItemOperations.GetRecent |
| src/config/themes.ts:83 | the dark theme's default background is "stars", an id no catalogue entry has | `getThemeBackground("dark")` returns "stars", which is not among the dark theme's available backgrounds | "star", the id of the entry named "Stars" | not executed | Themes.DarkDefaultUnlisted | Themes.DefaultsAvailable |
