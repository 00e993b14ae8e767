/** The migration runner (src/utils/db/migrations.ts): the current schema
    version read from the migrations store, the registered migrations in
    version order, and the forward and backward runs over them. */
module Migrations {
  import opened Inventory
  import opened Js
  import opened Store
  import Migration000
  import Migration001
  import Migration002
  import Migration003

  // ---------------------------------------------------------------------
  // The registered migrations

  /** The migration modules found under `migrations/`. */
  datatype Migration = InitialSetup | InitialSchema | AddCategoryHierarchy | AddUpdatedIndex

  function Version(m: Migration): int {
    match m
    case InitialSetup => 0
    case InitialSchema => 1
    case AddCategoryHierarchy => 2
    case AddUpdatedIndex => 3
  }

  function Name(m: Migration): string {
    match m
    case InitialSetup => "initial_setup"
    case InitialSchema => "initial_schema"
    case AddCategoryHierarchy => "add_category_hierarchy"
    case AddUpdatedIndex => "add_updated_index"
  }

  /** The modules in the order the file glob yields them (by file name). */
  const Found := [InitialSetup, InitialSchema, AddCategoryHierarchy, AddUpdatedIndex]

  /** What the migration bodies take from outside: the ids `uuidv4` draws
      while seeding, and the clock. */
  datatype Env = Env(ids: seq<string>, now: int)

  // ---------------------------------------------------------------------
  // Ordering

  /** The sort key: the version, negated for a descending sort. */
  function Key(m: Migration, descending: bool): int {
    if descending then -Version(m) else Version(m)
  }

  /** `a` may stand before `b` in the sort's order. */
  predicate Precedes(a: Migration, b: Migration, descending: bool) {
    Key(a, descending) <= Key(b, descending)
  }

  predicate SortedBy(ms: seq<Migration>, descending: bool) {
    forall i, j | 0 <= i < j < |ms| :: Precedes(ms[i], ms[j], descending)
  }

  function Insert(m: Migration, ms: seq<Migration>, descending: bool): seq<Migration> {
    if ms == [] || Precedes(m, ms[0], descending) then [m] + ms
    else [ms[0]] + Insert(m, ms[1..], descending)
  }

  lemma ConsSorted(x: Migration, t: seq<Migration>, descending: bool)
    requires SortedBy(t, descending)
    requires forall j | 0 <= j < |t| :: Precedes(x, t[j], descending)
    ensures SortedBy([x] + t, descending)
  {
    forall i, j | 0 <= i < j < |[x] + t|
      ensures Precedes(([x] + t)[i], ([x] + t)[j], descending)
    {
      if i > 0 { assert ([x] + t)[i] == t[i - 1]; }
      assert ([x] + t)[j] == t[j - 1];
    }
  }

  lemma {:induction false} InsertSorted(m: Migration, ms: seq<Migration>, descending: bool)
    requires SortedBy(ms, descending)
    ensures multiset(Insert(m, ms, descending)) == multiset(ms) + multiset{m}
    ensures SortedBy(Insert(m, ms, descending), descending)
  {
    if ms == [] {
    } else if Precedes(m, ms[0], descending) {
      ConsSorted(m, ms, descending);
    } else {
      InsertSorted(m, ms[1..], descending);
      var t := Insert(m, ms[1..], descending);
      assert ms == [ms[0]] + ms[1..];
      forall j | 0 <= j < |t|
        ensures Precedes(ms[0], t[j], descending)
      {
        assert t[j] in multiset(t);
        if t[j] != m {
          assert t[j] in multiset(ms[1..]);
          var k :| 0 <= k < |ms[1..]| && ms[1..][k] == t[j];
          assert ms[k + 1] == t[j];
        }
      }
      ConsSorted(ms[0], t, descending);
    }
  }

  /** `Array.prototype.sort` by version: a stable sort, here by insertion. */
  function Sort(ms: seq<Migration>, descending: bool): (r: seq<Migration>)
    ensures multiset(r) == multiset(ms)
    ensures SortedBy(r, descending)
  {
    if ms == [] then []
    else
      var rest := Sort(ms[1..], descending);
      InsertSorted(ms[0], rest, descending);
      assert ms == [ms[0]] + ms[1..];
      Insert(ms[0], rest, descending)
  }

  /** `loadMigrations`: the found modules sorted by ascending version. */
  function LoadMigrations(): (r: seq<Migration>)
    ensures multiset(r) == multiset(Found)
    ensures SortedBy(r, false)
  {
    Sort(Found, false)
  }

  /** Sorting a list already in order changes nothing (the sort is stable). */
  lemma {:induction false} SortOfSorted(ms: seq<Migration>, descending: bool)
    requires SortedBy(ms, descending)
    ensures Sort(ms, descending) == ms
  {
    if ms != [] {
      assert SortedBy(ms[1..], descending) by {
        forall i, j | 0 <= i < j < |ms[1..]|
          ensures Precedes(ms[1..][i], ms[1..][j], descending)
        {
          assert ms[1..][i] == ms[i + 1] && ms[1..][j] == ms[j + 1];
        }
      }
      SortOfSorted(ms[1..], descending);
      if |ms| > 1 {
        assert Precedes(ms[0], ms[1..][0], descending);
      }
      assert ms == [ms[0]] + ms[1..];
    }
  }

  /** The loaded order is 000, 001, 002, 003. */
  lemma LoadedInOrder()
    ensures LoadMigrations() == [InitialSetup, InitialSchema, AddCategoryHierarchy, AddUpdatedIndex]
  {
    assert SortedBy(Found, false) by {
      forall i, j | 0 <= i < j < |Found|
        ensures Precedes(Found[i], Found[j], false)
      {
        assert Version(Found[i]) == i && Version(Found[j]) == j;
      }
    }
    SortOfSorted(Found, false);
  }

  // ---------------------------------------------------------------------
  // The current version

  /** `getCurrentVersion`'s value for a store holding `versions`: the
      largest recorded version, or 0 when there is none. */
  predicate IsCurrentVersion(v: int, versions: set<int>) {
    if versions == {} then v == 0 else v in versions && forall w | w in versions :: w <= v
  }

  /** `Math.max(...versions)`, or 0 for an empty list. */
  function CurrentVersion(keys: seq<int>): (r: int)
    ensures keys == [] ==> r == 0
    ensures keys != [] ==> r in keys && forall k | k in keys :: k <= r
  {
    if keys == [] then 0
    else if |keys| == 1 then keys[0]
    else
      var rest := CurrentVersion(keys[1..]);
      assert forall k | k in keys :: k == keys[0] || k in keys[1..];
      if keys[0] >= rest then keys[0] else rest
  }

  /** Whatever order `getAllKeys` lists the versions in, the maximum is the
      store's current version. */
  lemma CurrentVersionOfStore<V>(keys: seq<int>, m: map<int, V>)
    requires ListsKeys(keys, m)
    ensures IsCurrentVersion(CurrentVersion(keys), m.Keys)
  {
    if m.Keys != {} {
      var v := PickKey(m);
      assert v in keys;
    }
  }

  lemma PickKey<V>(m: map<int, V>) returns (v: int)
    requires m.Keys != {}
    ensures v in m
  {
    var keys := m.Keys;
    v := PickFrom(keys);
  }

  lemma PickFrom<K>(s: set<K>) returns (k: K)
    requires s != {}
    ensures k in s
  {
    k :| k in s;
  }

  /** The current version of a store is one number. */
  lemma CurrentVersionUnique(v: int, w: int, versions: set<int>)
    requires IsCurrentVersion(v, versions) && IsCurrentVersion(w, versions)
    ensures v == w
  {
  }

  /** `getCurrentVersion`. */
  method GetCurrentVersion(db: Database) returns (v: int)
    ensures IsCurrentVersion(v, db.migrations.Keys)
  {
    var keys := ListVersions(db);
    v := CurrentVersion(keys);
    CurrentVersionOfStore(keys, db.migrations);
  }

  // ---------------------------------------------------------------------
  // One migration

  /** What running one migration's `migrate` does to the database. */
  function Migrate(m: Migration, s: DbState, env: Env): (r: Outcome)
    requires |env.ids| == 8
    ensures m != InitialSetup ==> r.status == Ok(())
    ensures r.status.Ok? ==> Version(m) in r.state.migrations
  {
    match m
    case InitialSetup => Migration000.Migrated(s, env.ids, env.now)
    case InitialSchema => Outcome(Ok(()), Recorded(s, 1, env.now))
    case AddCategoryHierarchy => Outcome(Ok(()), Migration002.Migrated(s, env.now))
    case AddUpdatedIndex => Outcome(Ok(()), Recorded(s, 3, env.now))
  }

  /** What running one migration's `rollback` does; no rollback throws. */
  function Rollback(m: Migration, s: DbState): (r: DbState)
    ensures Version(m) !in r.migrations
    ensures r.migrations.Keys == s.migrations.Keys - {Version(m)}
  {
    match m
    case InitialSetup => Migration000.RolledBack(s)
    case InitialSchema => Unrecorded(s, 1)
    case AddCategoryHierarchy => Migration002.RolledBack(s)
    case AddUpdatedIndex => Unrecorded(s, 3)
  }

  method RunOne(db: Database, m: Migration, env: Env) returns (r: Result<()>)
    requires db.Valid() && |env.ids| == 8
    modifies db
    ensures db.Valid()
    ensures r == Migrate(m, old(db.State()), env).status
    ensures db.State() == Migrate(m, old(db.State()), env).state
  {
    match m
    case InitialSetup =>
      r := Migration000.Migrate(db, env.ids, env.now);
    case InitialSchema =>
      Migration001.Migrate(db, env.now);
      r := Ok(());
    case AddCategoryHierarchy =>
      Migration002.Migrate(db, env.now);
      r := Ok(());
    case AddUpdatedIndex =>
      Migration003.Migrate(db, env.now);
      r := Ok(());
  }

  method RollbackOne(db: Database, m: Migration)
    requires db.Valid()
    modifies db
    ensures db.Valid()
    ensures db.State() == Rollback(m, old(db.State()))
  {
    match m
    case InitialSetup => Migration000.Rollback(db);
    case InitialSchema => Migration001.Rollback(db);
    case AddCategoryHierarchy => Migration002.Rollback(db);
    case AddUpdatedIndex => Migration003.Rollback(db);
  }

  // ---------------------------------------------------------------------
  // Runs

  /** The migrations `runMigrations` executes. */
  function Pending(ms: seq<Migration>, current: int): (r: seq<Migration>)
    ensures forall m :: m in r <==> m in ms && Version(m) > current
    ensures SortedBy(ms, false) ==> SortedBy(r, false)
  {
    var r := Filter(ms, Newer(current));
    if SortedBy(ms, false) then
      FilterSorted(ms, Newer(current), false);
      r
    else r
  }

  /** The filter of `runMigrations`: a version above the current one. */
  function Newer(current: int): Migration -> bool {
    (m: Migration) => Version(m) > current
  }

  /** The migrations `rollbackMigration` undoes, latest first. */
  function ToRollback(ms: seq<Migration>, current: int, target: int): (r: seq<Migration>)
    ensures forall m :: m in r <==> m in ms && target < Version(m) <= current
    ensures SortedBy(r, true)
  {
    var chosen := Filter(ms, (m: Migration) => Version(m) <= current && Version(m) > target);
    var r := Sort(chosen, true);
    assert forall m :: m in r <==> m in multiset(chosen);
    r
  }

  lemma {:induction false} FilterSorted(ms: seq<Migration>, p: Migration -> bool, descending: bool)
    requires SortedBy(ms, descending)
    ensures SortedBy(Filter(ms, p), descending)
  {
    if ms != [] {
      FilterSorted(ms[1..], p, descending);
      assert forall x | x in Filter(ms[1..], p) :: x in ms[1..];
    }
  }

  /** Running `pending` in order, stopping at the first migration that
      throws; what earlier migrations wrote stays written. */
  function RunAll(s: DbState, pending: seq<Migration>, env: Env): (r: Outcome)
    requires |env.ids| == 8
    decreases |pending|
  {
    if pending == [] then Outcome(Ok(()), s)
    else
      var first := Migrate(pending[0], s, env);
      if first.status.Err? then first else RunAll(first.state, pending[1..], env)
  }

  /** Rolling back `chosen` in order. */
  function RollAll(s: DbState, chosen: seq<Migration>): (r: DbState)
    decreases |chosen|
  {
    if chosen == [] then s else RollAll(Rollback(chosen[0], s), chosen[1..])
  }

  /** The loop of `runMigrations`: each migration in turn, rethrowing the
      first failure. */
  method RunEach(db: Database, pending: seq<Migration>, env: Env) returns (r: Result<()>)
    requires db.Valid() && |env.ids| == 8
    modifies db
    ensures db.Valid()
    ensures r == RunAll(old(db.State()), pending, env).status
    ensures db.State() == RunAll(old(db.State()), pending, env).state
  {
    var i := 0;
    while i < |pending|
      invariant 0 <= i <= |pending|
      invariant db.Valid()
      invariant RunAll(old(db.State()), pending, env) == RunAll(db.State(), pending[i..], env)
    {
      assert pending[i..][1..] == pending[i + 1..];
      r := RunOne(db, pending[i], env);
      if r.Err? {
        return;
      }
      i := i + 1;
    }
    r := Ok(());
  }

  /** `runMigrations`: reads the current version once, then runs the
      pending migrations in ascending order. `current` is the version it
      read. */
  method RunMigrations(db: Database, env: Env) returns (r: Result<()>, current: int)
    requires db.Valid() && |env.ids| == 8
    modifies db
    ensures db.Valid()
    ensures IsCurrentVersion(current, old(db.migrations).Keys)
    ensures r == RunAll(old(db.State()), Pending(LoadMigrations(), current), env).status
    ensures db.State() == RunAll(old(db.State()), Pending(LoadMigrations(), current), env).state
  {
    current := GetCurrentVersion(db);
    var migrations := LoadMigrations();
    var pending := Pending(migrations, current);
    if |pending| == 0 {
      r := Ok(());
      return;
    }
    r := RunEach(db, pending, env);
  }

  /** The loop of `rollbackMigration`: each chosen rollback in turn. */
  method RollbackEach(db: Database, chosen: seq<Migration>)
    requires db.Valid()
    modifies db
    ensures db.Valid()
    ensures db.State() == RollAll(old(db.State()), chosen)
  {
    var i := 0;
    while i < |chosen|
      invariant 0 <= i <= |chosen|
      invariant db.Valid()
      invariant RollAll(old(db.State()), chosen) == RollAll(db.State(), chosen[i..])
    {
      assert chosen[i..][1..] == chosen[i + 1..];
      RollbackOne(db, chosen[i]);
      i := i + 1;
    }
  }

  /** `rollbackMigration(target)`: nothing when the target is not below the
      current version; otherwise the rollbacks of the versions in
      `(target, current]`, latest first. */
  method RollbackMigration(db: Database, target: int) returns (current: int)
    requires db.Valid()
    modifies db
    ensures db.Valid()
    ensures IsCurrentVersion(current, old(db.migrations).Keys)
    ensures target >= current ==> db.State() == old(db.State())
    ensures target < current ==> db.State() == RollAll(old(db.State()), ToRollback(LoadMigrations(), current, target))
  {
    current := GetCurrentVersion(db);
    var migrations := LoadMigrations();
    if target >= current {
      return;
    }
    RollbackEach(db, ToRollback(migrations, current, target));
  }

  // ---------------------------------------------------------------------
  // Properties of runs

  /** The initial setup is never pending: the current version is never
      negative while every recorded version is at least 0, and only
      versions above it are pending. In particular a fresh database
      (current version 0) skips it. */
  lemma InitialSetupNeverPending(versions: set<int>, current: int)
    requires forall v | v in versions :: v >= 0
    requires IsCurrentVersion(current, versions)
    ensures current >= 0
    ensures InitialSetup !in Pending(LoadMigrations(), current)
  {
  }

  /** The runner itself writes no record: every record present after a run
      was there before or was written by one of the migrations it ran. */
  lemma {:induction false} RunWritesOnlyMigrationRecords(s: DbState, pending: seq<Migration>, env: Env)
    requires |env.ids| == 8
    ensures forall v | v in RunAll(s, pending, env).state.migrations ::
              v in s.migrations || exists m | m in pending :: Version(m) == v
    decreases |pending|
  {
    if pending != [] {
      var first := Migrate(pending[0], s, env);
      if first.status.Ok? {
        RunWritesOnlyMigrationRecords(first.state, pending[1..], env);
        MigrateWritesOwnRecord(pending[0], s, env);
        forall v | v in RunAll(s, pending, env).state.migrations
          ensures v in s.migrations || exists m | m in pending :: Version(m) == v
        {
          if v !in s.migrations && v !in first.state.migrations {
            var m :| m in pending[1..] && Version(m) == v;
            assert m in pending;
          } else if v !in s.migrations {
            assert pending[0] in pending;
          }
        }
      } else {
        MigrateWritesOwnRecord(pending[0], s, env);
      }
    }
  }

  lemma MigrateWritesOwnRecord(m: Migration, s: DbState, env: Env)
    requires |env.ids| == 8
    ensures forall v | v in Migrate(m, s, env).state.migrations :: v in s.migrations || v == Version(m)
  {
  }

  /** A run over migrations that all succeed records each of them. */
  lemma {:induction false} RunRecordsEach(s: DbState, pending: seq<Migration>, env: Env)
    requires |env.ids| == 8
    requires RunAll(s, pending, env).status.Ok?
    ensures forall m | m in pending :: Version(m) in RunAll(s, pending, env).state.migrations
    decreases |pending|
  {
    if pending != [] {
      var first := Migrate(pending[0], s, env);
      RunRecordsEach(first.state, pending[1..], env);
      RunKeepsRecords(first.state, pending[1..], env);
    }
  }

  /** Migrations never delete records. */
  lemma {:induction false} RunKeepsRecords(s: DbState, pending: seq<Migration>, env: Env)
    requires |env.ids| == 8
    ensures s.migrations.Keys <= RunAll(s, pending, env).state.migrations.Keys
    decreases |pending|
  {
    if pending != [] {
      var first := Migrate(pending[0], s, env);
      if first.status.Ok? {
        RunKeepsRecords(first.state, pending[1..], env);
      }
    }
  }

  /** At version 0 the pending migrations are 001, 002 and 003. */
  lemma PendingAtZero()
    ensures Pending(LoadMigrations(), 0) == [InitialSchema, AddCategoryHierarchy, AddUpdatedIndex]
  {
    LoadedInOrder();
    PendingAfterSetup(LoadMigrations());
  }

  /** Behind the initial setup, at version 0, every later migration is pending. */
  lemma PendingAfterSetup(ms: seq<Migration>)
    requires ms == [InitialSetup, InitialSchema, AddCategoryHierarchy, AddUpdatedIndex]
    ensures Pending(ms, 0) == ms[1..]
  {
    assert !Newer(0)(ms[0]);
    assert forall i | 0 <= i < |ms[1..]| :: Newer(0)(ms[1..][i]);
    FilterAll(ms[1..], Newer(0));
  }

  /** Running 001, 002 and 003 records each in turn and resets the
      categories in between; none of them throws. */
  lemma RunSchemaMigrations(s: DbState, env: Env)
    requires |env.ids| == 8
    ensures RunAll(s, [InitialSchema, AddCategoryHierarchy, AddUpdatedIndex], env)
            == Outcome(Ok(()), Recorded(Migration002.Migrated(Recorded(s, 1, env.now), env.now), 3, env.now))
  {
    var pending := [InitialSchema, AddCategoryHierarchy, AddUpdatedIndex];
    assert pending[1..] == [AddCategoryHierarchy, AddUpdatedIndex];
    assert pending[1..][1..] == [AddUpdatedIndex];
    var s1 := Recorded(s, 1, env.now);
    var s2 := Migration002.Migrated(s1, env.now);
    assert RunAll(s, pending, env) == RunAll(s1, pending[1..], env);
    assert RunAll(s1, pending[1..], env) == RunAll(s2, pending[1..][1..], env);
  }

  /** On a fresh database (current version 0, so the pending migrations
      are 001, 002 and 003 and the initial setup is skipped) the run leaves
      exactly records 1, 2 and 3, with no category seeded. */
  lemma FreshDatabaseRun(env: Env)
    requires |env.ids| == 8
    ensures IsCurrentVersion(0, EmptyState.migrations.Keys)
    ensures var run := RunAll(EmptyState, [InitialSchema, AddCategoryHierarchy, AddUpdatedIndex], env);
      && run.status == Ok(())
      && run.state.categories == map[]
      && run.state.migrations.Keys == {1, 2, 3}
  {
    var s1 := Recorded(EmptyState, 1, env.now);
    var s2 := Migration002.Migrated(s1, env.now);
    var out := Recorded(s2, 3, env.now);
    RunSchemaMigrations(EmptyState, env);
    assert out.categories == map[] by {
      assert s2.categories.Keys == {};
    }
    assert out.migrations.Keys == {1, 2, 3} by {
      assert s1.migrations.Keys == {1};
      assert s2.migrations.Keys == {1, 2};
    }
  }
}
