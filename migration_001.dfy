/** Migration 001 "initial_schema": it only records itself
    (src/utils/db/migrations/001_initial_schema.migration.ts). */
module Migration001 {
  import opened Store

  /** `migrate`: one `put` of record 1 on the migrations store. */
  method Migrate(db: Database, now: int)
    requires db.Valid()
    modifies db
    ensures db.Valid()
    ensures db.State() == Recorded(old(db.State()), 1, now)
  {
    db.migrations := db.migrations[1 := MigrationRecord(1, now)];
  }

  /** `rollback`: one `delete` of record 1. */
  method Rollback(db: Database)
    requires db.Valid()
    modifies db
    ensures db.Valid()
    ensures db.State() == Unrecorded(old(db.State()), 1)
  {
    db.migrations := db.migrations - {1};
  }
}
