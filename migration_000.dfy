/** Migration 000 "initial_setup": seeds the two root folders and their six
    children through the legacy category create, then records itself;
    rolling back deletes every category and record 0
    (src/utils/db/migrations/000_initial_setup.migration.ts). */
module Migration000 {
  import opened Inventory
  import opened Store
  import CategoryOperations
  import Operations

  /** The children are created with `isFolder: false`. */
  const ChildFolder: Option<bool> := Some(false)

  /** The database after `migrate`, given the eight ids the creates draw:
      the seeding run, then record 0 unless a create failed (a failure is
      rethrown before the record is written). */
  function Migrated(s: DbState, ids: seq<string>, now: int): (r: Outcome)
    requires |ids| == 8
    ensures r.state.items == s.items && r.state.settings == s.settings
    ensures r.state.categories == Operations.Seed(s.categories, ids, now, ChildFolder).cats
    ensures r.status.Ok? <==> Operations.Seed(s.categories, ids, now, ChildFolder).result.Ok?
    ensures r.status.Ok? ==> r.state.migrations == s.migrations[0 := MigrationRecord(0, now)]
    ensures r.status.Err? ==> r.state.migrations == s.migrations
  {
    var seeded := Operations.Seed(s.categories, ids, now, ChildFolder);
    var s' := s.(categories := seeded.cats);
    if seeded.result.Err? then Outcome(Err(seeded.result.error), s')
    else Outcome(Ok(()), Recorded(s', 0, now))
  }

  /** The database after `rollback`: no category left, record 0 gone. */
  function RolledBack(s: DbState): (r: DbState)
    ensures r.categories == map[] && r.items == s.items && r.settings == s.settings
    ensures r.migrations == s.migrations - {0}
  {
    Unrecorded(s.(categories := map[]), 0)
  }

  /** `migrate`. */
  method Migrate(db: Database, ids: seq<string>, now: int) returns (r: Result<()>)
    requires db.Valid() && |ids| == 8
    modifies db
    ensures db.Valid()
    ensures r == Migrated(old(db.State()), ids, now).status
    ensures db.State() == Migrated(old(db.State()), ids, now).state
  {
    var seeded := Operations.SeedCategories(db, ids, now, ChildFolder);
    if seeded.Err? {
      return Err(seeded.error);
    }
    db.migrations := db.migrations[0 := MigrationRecord(0, now)];
    r := Ok(());
  }

  /** `rollback`: `getAll`, a `delete` for each listed category, then the
      `delete` of record 0. */
  method Rollback(db: Database)
    requires db.Valid()
    modifies db
    ensures db.Valid()
    ensures db.State() == RolledBack(old(db.State()))
  {
    var categories := ListCategories(db);
    DeleteListed(db, categories);
    db.migrations := db.migrations - {0};
  }

  /** The loop of `rollback`: one `delete` per listed category, which
      empties the categories store when the listing covers it. */
  method DeleteListed(db: Database, categories: seq<Category>)
    requires db.Valid() && ListsCategories(categories, db.categories)
    modifies db
    ensures db.Valid()
    ensures db.State() == old(db.State()).(categories := map[])
  {
    var i := 0;
    while i < |categories|
      invariant 0 <= i <= |categories|
      invariant db.Valid()
      invariant db.items == old(db.items) && db.migrations == old(db.migrations) && db.settings == old(db.settings)
      invariant db.categories.Keys <= old(db.categories).Keys
      invariant forall j | 0 <= j < i :: categories[j].id !in db.categories
    {
      CategoryOperations.Delete(db, categories[i].id);
      i := i + 1;
    }
    assert db.categories.Keys == {} by {
      forall k | k in old(db.categories) ensures k !in db.categories {
        var j :| 0 <= j < |categories| && categories[j].id == k;
      }
    }
  }

  /** On a store without categories and with eight distinct non-empty ids,
      `migrate` succeeds, records version 0 and leaves exactly the eight
      seeded categories: two root folders and six non-folder children one
      level below them, forming a consistent tree. */
  lemma MigrateEmptyStore(s: DbState, ids: seq<string>, now: int)
    requires s.categories == map[]
    requires |ids| == 8 && forall i | 0 <= i < 8 :: ids[i] != ""
    requires forall i, j | 0 <= i < j < 8 :: ids[i] != ids[j]
    ensures var r := Migrated(s, ids, now);
      && r.status == Ok(())
      && 0 in r.state.migrations
      && |r.state.categories| == 8
      && CategoryOperations.PathLevelConsistent(r.state.categories)
      && CategoryOperations.PathsMatchParents(r.state.categories)
      && CategoryOperations.NoSelfAncestor(r.state.categories)
      && (forall k | 0 <= k < 2 :: ids[k] in r.state.categories
            && r.state.categories[ids[k]].isFolder == Some(true)
            && r.state.categories[ids[k]].pos == Some(TreePos([], 0)))
      && (forall k | 2 <= k < 8 :: ids[k] in r.state.categories
            && r.state.categories[ids[k]].isFolder == Some(false)
            && r.state.categories[ids[k]].pos == Some(TreePos([Operations.ChildParent(ids, k - 2)], 1)))
  {
    var r := Migrated(s, ids, now);
    var out := Operations.Seed(map[], ids, now, ChildFolder);
    Operations.SeedEmptyStore(ids, now, ChildFolder);
    assert r.status == Ok(()) && r.state.categories == out.cats;
    SeededShape(out.cats, ids, now);
  }

  /** Where each of the eight ids lands after seeding an empty store. */
  lemma SeededShape(cats: map<string, Category>, ids: seq<string>, now: int)
    requires |ids| == 8 && forall i | 0 <= i < 8 :: ids[i] != ""
    requires forall i, j | 0 <= i < j < 8 :: ids[i] != ids[j]
    requires cats == Operations.Seed(map[], ids, now, ChildFolder).cats
    ensures forall k | 0 <= k < 2 :: ids[k] in cats
              && cats[ids[k]].isFolder == Some(true) && cats[ids[k]].pos == Some(TreePos([], 0))
    ensures forall k | 2 <= k < 8 :: ids[k] in cats
              && cats[ids[k]].isFolder == Some(false)
              && cats[ids[k]].pos == Some(TreePos([Operations.ChildParent(ids, k - 2)], 1))
  {
    var seeded := Operations.Seeded(ids, now, ChildFolder);
    Operations.SeedFresh(map[], ids, now, ChildFolder);
    assert cats == map[] + MapOf(seeded, CategoryKey);
    assert cats == MapOf(seeded, CategoryKey);
    Operations.SeededMap(ids, now, ChildFolder);
  }

  /** After `rollback` the category store is empty, whatever it held. */
  lemma RollbackAfterMigrate(s: DbState, ids: seq<string>, now: int)
    requires |ids| == 8
    requires 0 !in s.migrations
    ensures RolledBack(Migrated(s, ids, now).state).categories == map[]
    ensures RolledBack(Migrated(s, ids, now).state).migrations == s.migrations
  {
  }
}
