/** Migration 002 "add_category_hierarchy": every stored category becomes
    a root folder, then record 2 is written; rolling back strips the
    hierarchy fields again
    (src/utils/db/migrations/002_add_category_hierarchy.migration.ts). */
module Migration002 {
  import opened Inventory
  import opened Js
  import opened Store
  import CategoryOperations

  /** One category rewritten by `migrate`: empty path, level 0, a folder,
      `parentId` set to `undefined`; every other field kept. */
  function Reset(c: Category): (r: Category)
    ensures r.pos == Some(TreePos([], 0)) && r.isFolder == Some(true) && r.parentId == Undefined
    ensures r.id == c.id && r.name == c.name && r.description == c.description && r.color == c.color
    ensures r.createdAt == c.createdAt && r.updatedAt == c.updatedAt
  {
    c.(pos := Some(TreePos([], 0)), isFolder := Some(true), parentId := Undefined)
  }

  /** One category rewritten by `rollback`: `path`, `level`, `isFolder` and
      `parentId` removed (a removed `parentId` reads as `undefined`). */
  function Strip(c: Category): (r: Category)
    ensures r.pos == None && r.isFolder == None && r.parentId == Undefined
    ensures r.id == c.id && r.name == c.name && r.description == c.description && r.color == c.color
    ensures r.createdAt == c.createdAt && r.updatedAt == c.updatedAt
  {
    c.(pos := None, isFolder := None, parentId := Undefined)
  }

  /** The categories store after `migrate`'s loop: the same keys, each
      record reset. */
  function ResetAll(m: map<string, Category>): (r: map<string, Category>)
    ensures r.Keys == m.Keys
    ensures forall k | k in m :: r[k] == Reset(m[k])
  {
    map k | k in m :: Reset(m[k])
  }

  /** The categories store after `rollback`'s loop. */
  function StripAll(m: map<string, Category>): (r: map<string, Category>)
    ensures r.Keys == m.Keys
    ensures forall k | k in m :: r[k] == Strip(m[k])
  {
    map k | k in m :: Strip(m[k])
  }

  /** The database after `migrate`: categories reset, then record 2. */
  function Migrated(s: DbState, now: int): (r: DbState)
    ensures r.categories == ResetAll(s.categories) && r.items == s.items && r.settings == s.settings
    ensures r.migrations == s.migrations[2 := MigrationRecord(2, now)]
  {
    Recorded(s.(categories := ResetAll(s.categories)), 2, now)
  }

  /** The database after `rollback`: categories stripped, record 2 gone. */
  function RolledBack(s: DbState): (r: DbState)
    ensures r.categories == StripAll(s.categories) && r.items == s.items && r.settings == s.settings
    ensures r.migrations == s.migrations - {2}
  {
    Unrecorded(s.(categories := StripAll(s.categories)), 2)
  }

  /** The loop both directions share: `getAll` on the categories store,
      then a `put` of each listed record rewritten by `rewrite`. */
  method RewriteCategories(db: Database, rewrite: Category -> Category)
    requires db.Valid()
    requires forall c :: rewrite(c).id == c.id
    modifies db
    ensures db.Valid()
    ensures db.State() == old(db.State()).(categories := map k | k in old(db.categories) :: rewrite(old(db.categories)[k]))
  {
    var categories := ListCategories(db);
    ghost var before := db.categories;
    PutEach(db, categories, rewrite);
    forall k | k in before ensures db.categories[k] == rewrite(before[k]) {
      var j :| 0 <= j < |categories| && categories[j].id == k;
    }
  }

  /** The `put` of each listed record, rewritten, in listing order. */
  method PutEach(db: Database, categories: seq<Category>, rewrite: Category -> Category)
    requires forall j | 0 <= j < |categories| :: categories[j].id in db.categories
    requires forall j, l | 0 <= j < l < |categories| :: categories[j].id != categories[l].id
    requires forall c :: rewrite(c).id == c.id
    modifies db
    ensures db.items == old(db.items) && db.migrations == old(db.migrations) && db.settings == old(db.settings)
    ensures db.categories.Keys == old(db.categories).Keys
    ensures forall j | 0 <= j < |categories| :: db.categories[categories[j].id] == rewrite(categories[j])
  {
    var i := 0;
    while i < |categories|
      invariant 0 <= i <= |categories|
      invariant db.items == old(db.items) && db.migrations == old(db.migrations) && db.settings == old(db.settings)
      invariant db.categories.Keys == old(db.categories).Keys
      invariant forall j | 0 <= j < i :: db.categories[categories[j].id] == rewrite(categories[j])
    {
      db.categories := db.categories[categories[i].id := rewrite(categories[i])];
      i := i + 1;
    }
  }

  /** `migrate`: every category reset, then the `put` of record 2. */
  method Migrate(db: Database, now: int)
    requires db.Valid()
    modifies db
    ensures db.Valid()
    ensures db.State() == Migrated(old(db.State()), now)
  {
    RewriteCategories(db, Reset);
    db.migrations := db.migrations[2 := MigrationRecord(2, now)];
  }

  /** `rollback`: every category stripped, then the `delete` of record 2. */
  method Rollback(db: Database)
    requires db.Valid()
    modifies db
    ensures db.Valid()
    ensures db.State() == RolledBack(old(db.State()))
  {
    RewriteCategories(db, Strip);
    db.migrations := db.migrations - {2};
  }

  /** Migrating twice leaves the same categories as migrating once. */
  lemma MigrateIdempotent(s: DbState, now: int, later: int)
    ensures Migrated(Migrated(s, now), later).categories == Migrated(s, now).categories
  {
  }

  /** After `migrate` every category is a root with a consistent position
      (empty path, level 0), none has itself as an ancestor, and the
      hierarchy rebuilt from parent links is trivial. */
  lemma MigratedAreRoots(s: DbState, now: int)
    ensures var m := Migrated(s, now).categories;
      && CategoryOperations.PathLevelConsistent(m)
      && CategoryOperations.NoSelfAncestor(m)
      && CategoryOperations.PathsMatchParents(m)
      && forall k | k in m :: m[k].parentId == Undefined && m[k].isFolder == Some(true)
  {
  }

  /** The roots `migrate` leaves have `parentId` undefined, so the root
      query `getChildren(null)` finds none of them. */
  lemma MigratedRootsNotListedUnderNull(listing: seq<Category>, s: DbState, now: int)
    requires ListsCategories(listing, Migrated(s, now).categories)
    ensures CategoryOperations.GetChildren(listing, None) == []
  {
    var all := CategoryOperations.GetAll(listing);
    forall i | 0 <= i < |all| ensures all[i].parentId == Undefined {
      assert listing[i].id in Migrated(s, now).categories;
    }
    FilterNone(all, (c: Category) => c.parentId == CategoryOperations.ParentArg(None));
  }

  /** Rolling back after migrating gives the same categories as rolling
      back straight away: the hierarchy `migrate` wrote is lost, whatever
      it was before. */
  lemma RollbackForgetsHierarchy(s: DbState, now: int)
    ensures RolledBack(Migrated(s, now)).categories == RolledBack(s).categories
    ensures 2 !in s.migrations ==> RolledBack(Migrated(s, now)).migrations == s.migrations
  {
    assert RolledBack(Migrated(s, now)).categories == RolledBack(s).categories;
  }
}
