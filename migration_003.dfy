/** Migration 003 "add_updated_index": its index work sits behind a guard
    (`!db.version`) that an open database never meets, so all it does to
    the data is write and delete record 3
    (src/utils/db/migrations/003_add_updated_index.migration.ts). */
module Migration003 {
  import opened Store

  /** `migrate`: the `put` of record 3 that follows the guarded upgrade. */
  method Migrate(db: Database, now: int)
    requires db.Valid()
    modifies db
    ensures db.Valid()
    ensures db.State() == Recorded(old(db.State()), 3, now)
  {
    db.migrations := db.migrations[3 := MigrationRecord(3, now)];
  }

  /** `rollback`: the `delete` of record 3 that follows the guarded
      downgrade. */
  method Rollback(db: Database)
    requires db.Valid()
    modifies db
    ensures db.Valid()
    ensures db.State() == Unrecorded(old(db.State()), 3)
  {
    db.migrations := db.migrations - {3};
  }
}
