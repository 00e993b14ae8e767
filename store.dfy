/** The local database: four keyed record stores (categories, items,
    migrations, settings) held by one handle that the repositories receive
    explicitly. Opening, upgrading and deleting the browser database are
    not part of this model. */
module Store {
  import opened Inventory
  import opened Js

  /** One row per applied migration, keyed by `version`. */
  datatype MigrationRecord = MigrationRecord(version: int, timestamp: int)

  /** A settings entry, keyed by `key` (e.g. "timezone"). */
  datatype Setting = Setting(key: string, value: string)

  /** The value of the whole database at one moment. */
  datatype DbState = DbState(
    categories: map<string, Category>,
    items: map<string, Item>,
    migrations: map<int, MigrationRecord>,
    settings: map<string, Setting>)

  const EmptyState := DbState(map[], map[], map[], map[])

  /** The indexes the upgrade callback creates: `by-name` on categories,
      `by-category` and `by-name` on items. The `by-updated` indexes of the
      003 migration sit behind a guard that never holds, so no store has
      one. */
  predicate IndexExists(store: string, index: string) {
    || (store == "categories" && index == "by-name")
    || (store == "items" && (index == "by-category" || index == "by-name"))
  }

  /** Every store files each record under its own key path
      (`id`, `id`, `version`, `key`). */
  predicate WellKeyed(s: DbState) {
    && (forall k | k in s.categories :: s.categories[k].id == k)
    && (forall k | k in s.items :: s.items[k].id == k)
    && (forall v | v in s.migrations :: s.migrations[v].version == v)
    && (forall k | k in s.settings :: s.settings[k].key == k)
  }

  class Database {
    var categories: map<string, Category>
    var items: map<string, Item>
    var migrations: map<int, MigrationRecord>
    var settings: map<string, Setting>

    function State(): DbState
      reads this
    {
      DbState(categories, items, migrations, settings)
    }

    predicate Valid()
      reads this
    {
      WellKeyed(State())
    }

    /** A freshly created database: four empty stores. */
    constructor ()
      ensures Valid() && State() == EmptyState
    {
      categories, items, migrations, settings := map[], map[], map[], map[];
    }
  }

  // ---------------------------------------------------------------------
  // What reading a whole store (or an index over it) returns

  /** `listing` holds every record of `m` exactly once, under its key. */
  predicate Enumerates<K(==), V(==)>(listing: seq<V>, m: map<K, V>, key: V -> K) {
    && (forall i | 0 <= i < |listing| :: key(listing[i]) in m && m[key(listing[i])] == listing[i])
    && (forall i, j | 0 <= i < j < |listing| :: key(listing[i]) != key(listing[j]))
    && (forall k | k in m :: exists i | 0 <= i < |listing| :: key(listing[i]) == k)
  }

  /** `getAllKeys()` on the migrations store. */
  predicate ListsKeys<V>(keys: seq<int>, m: map<int, V>) {
    (forall i | 0 <= i < |keys| :: keys[i] in m) && (forall v | v in m :: v in keys)
  }

  function CategoryKey(c: Category): string { c.id }
  function ItemKey(i: Item): string { i.id }
  function MigrationKey(r: MigrationRecord): int { r.version }
  function SettingKey(s: Setting): string { s.key }

  /** A listing of the categories store. */
  predicate ListsCategories(listing: seq<Category>, m: map<string, Category>) {
    Enumerates(listing, m, CategoryKey)
  }

  /** A listing of the items store. */
  predicate ListsItems(listing: seq<Item>, m: map<string, Item>) {
    Enumerates(listing, m, ItemKey)
  }

  /** The keys of a store, each once, in an order left open. */
  method ListKeys<K(==), V>(m: map<K, V>) returns (keys: seq<K>)
    ensures forall k :: k in keys <==> k in m
    ensures forall i | 0 <= i < |keys| :: keys[i] in m
    ensures forall i, j | 0 <= i < j < |keys| :: keys[i] != keys[j]
  {
    var rest := m.Keys;
    keys := [];
    while rest != {}
      invariant rest <= m.Keys
      invariant forall k :: k in keys <==> k in m && k !in rest
      invariant forall i, j | 0 <= i < j < |keys| :: keys[i] != keys[j]
      decreases rest
    {
      var k :| k in rest;
      keys := keys + [k];
      rest := rest - {k};
    }
  }

  /** `getAll()` on a store whose records sit under their own keys: every
      record once, in an order left open. */
  method ListRecords<K(==), V(==)>(m: map<K, V>, key: V -> K) returns (listing: seq<V>)
    requires forall k | k in m :: key(m[k]) == k
    ensures Enumerates(listing, m, key)
  {
    var keys := ListKeys(m);
    listing := seq(|keys|, i requires 0 <= i < |keys| => m[keys[i]]);
    forall i | 0 <= i < |listing|
      ensures key(listing[i]) == keys[i] && keys[i] in m && m[keys[i]] == listing[i]
    {
    }
    forall k | k in m
      ensures exists i | 0 <= i < |listing| :: key(listing[i]) == k
    {
      var i :| 0 <= i < |keys| && keys[i] == k;
      assert key(listing[i]) == k;
    }
  }

  /** `getAll()` on the categories store. */
  method ListCategories(db: Database) returns (listing: seq<Category>)
    requires db.Valid()
    ensures ListsCategories(listing, db.categories)
  {
    listing := ListRecords(db.categories, CategoryKey);
  }

  /** `getAllKeys()` on the migrations store: every recorded version once. */
  method ListVersions(db: Database) returns (keys: seq<int>)
    ensures ListsKeys(keys, db.migrations)
    ensures forall i, j | 0 <= i < j < |keys| :: keys[i] != keys[j]
  {
    keys := ListKeys(db.migrations);
  }

  /** `put` of the record of migration `version` on the migrations store;
      every other store and record stays as it was. */
  function Recorded(s: DbState, version: int, now: int): (r: DbState)
    ensures r.categories == s.categories && r.items == s.items && r.settings == s.settings
    ensures r.migrations.Keys == s.migrations.Keys + {version}
    ensures r.migrations[version] == MigrationRecord(version, now)
    ensures forall v | v in s.migrations && v != version :: r.migrations[v] == s.migrations[v]
    ensures WellKeyed(s) ==> WellKeyed(r)
  {
    s.(migrations := s.migrations[version := MigrationRecord(version, now)])
  }

  /** `delete` of the record of migration `version`; every other store and
      record stays as it was. */
  function Unrecorded(s: DbState, version: int): (r: DbState)
    ensures r.categories == s.categories && r.items == s.items && r.settings == s.settings
    ensures r.migrations.Keys == s.migrations.Keys - {version}
    ensures forall v | v in r.migrations :: r.migrations[v] == s.migrations[v]
    ensures WellKeyed(s) ==> WellKeyed(r)
  {
    s.(migrations := s.migrations - {version})
  }

  /** Deleting a record undoes putting it when it was not there before, and
      putting it back restores a record that was. */
  lemma UnrecordUndoesRecord(s: DbState, version: int, now: int)
    ensures version !in s.migrations ==> Unrecorded(Recorded(s, version, now), version) == s
    ensures version in s.migrations && s.migrations[version] == MigrationRecord(version, now) ==>
              Recorded(Unrecorded(s, version), version, now) == s
  {
    if version !in s.migrations {
      assert Unrecorded(Recorded(s, version, now), version).migrations == s.migrations;
    } else if s.migrations[version] == MigrationRecord(version, now) {
      assert Recorded(Unrecorded(s, version), version, now).migrations == s.migrations;
    }
  }

  /** What a run of writes that may stop part-way leaves behind: the status
      it reports and the database as it then stands (writes made before a
      failure stay, as each one commits on its own). */
  datatype Outcome = Outcome(status: Result<()>, state: DbState)

  // ---------------------------------------------------------------------
  // Adding records inside one transaction

  /** No two records of `recs` share a key. */
  predicate DistinctKeys<K(==), V>(recs: seq<V>, key: V -> K) {
    forall i, j | 0 <= i < j < |recs| :: key(recs[i]) != key(recs[j])
  }

  /** The records of `recs` filed under their keys (a later record wins). */
  function MapOf<K(==,!new), V>(recs: seq<V>, key: V -> K): (r: map<K, V>)
    ensures forall i | 0 <= i < |recs| :: key(recs[i]) in r
    ensures DistinctKeys(recs, key) ==> forall i | 0 <= i < |recs| :: r[key(recs[i])] == recs[i]
  {
    if recs == [] then map[]
    else
      var init := recs[..|recs| - 1];
      var rest := MapOf(init, key);
      assert forall i | 0 <= i < |init| :: init[i] == recs[i];
      rest[key(recs[|recs| - 1]) := recs[|recs| - 1]]
  }

  /** Every key of `MapOf(recs, key)` is the key of some record. */
  lemma {:induction false} MapOfKeys<K(!new), V>(recs: seq<V>, key: V -> K)
    ensures forall k | k in MapOf(recs, key) :: exists i | 0 <= i < |recs| :: key(recs[i]) == k
  {
    if recs != [] {
      var init := recs[..|recs| - 1];
      MapOfKeys(init, key);
      assert MapOf(recs, key) == MapOf(init, key)[key(recs[|recs| - 1]) := recs[|recs| - 1]];
      forall k | k in MapOf(recs, key) ensures exists i | 0 <= i < |recs| :: key(recs[i]) == k {
        if k != key(recs[|recs| - 1]) {
          var i :| 0 <= i < |init| && key(init[i]) == k;
          assert recs[i] == init[i];
        }
      }
    }
  }

  /** `add` of every record of `recs`, in order, to a store holding `m`:
      `None` when some `add` meets a key that is already there (the
      transaction then aborts), otherwise the store afterwards. */
  function AddAll<K(==,!new), V>(m: map<K, V>, recs: seq<V>, key: V -> K): (r: Option<map<K, V>>)
    ensures r.Some? ==> m.Keys <= r.value.Keys
  {
    if recs == [] then Some(m)
    else
      var last := recs[|recs| - 1];
      match AddAll(m, recs[..|recs| - 1], key)
      case None => None
      case Some(staged) =>
        if key(last) in staged then None else Some(staged[key(last) := last])
  }

  /** The adds all succeed exactly when the records' keys are distinct and
      new to the store, and then the store holds the old records plus the
      added ones. */
  lemma {:induction false} AddAllSucceeds<K(!new), V>(m: map<K, V>, recs: seq<V>, key: V -> K)
    ensures AddAll(m, recs, key).Some? <==>
              DistinctKeys(recs, key) && forall i | 0 <= i < |recs| :: key(recs[i]) !in m
    ensures AddAll(m, recs, key).Some? ==> AddAll(m, recs, key).value == m + MapOf(recs, key)
    decreases |recs|
  {
    if recs != [] {
      var init := recs[..|recs| - 1];
      var last := recs[|recs| - 1];
      AddAllSucceeds(m, init, key);
      MapOfKeys(init, key);
      var prefix := AddAll(m, init, key);
      DistinctKeysSnoc(recs, key);
      if prefix.Some? {
        var k := key(last);
        if k !in prefix.value {
          assert MapOf(recs, key) == MapOf(init, key)[k := last];
          assert (m + MapOf(init, key))[k := last] == m + MapOf(recs, key);
        }
      }
    }
  }

  lemma DistinctKeysSnoc<K, V>(recs: seq<V>, key: V -> K)
    requires recs != []
    ensures DistinctKeys(recs, key) <==>
              && DistinctKeys(recs[..|recs| - 1], key)
              && forall i | 0 <= i < |recs| - 1 :: recs[..|recs| - 1][i] == recs[i] && key(recs[i]) != key(recs[|recs| - 1])
  {
  }

  /** Adding one more record files it under its key. */
  lemma MapOfSnoc<K(!new), V>(recs: seq<V>, x: V, key: V -> K)
    ensures MapOf(recs + [x], key) == MapOf(recs, key)[key(x) := x]
  {
    assert (recs + [x])[..|recs|] == recs;
  }

  lemma UnionUpdate<K, V>(m: map<K, V>, n: map<K, V>, k: K, v: V)
    ensures (m + n)[k := v] == m + n[k := v]
  {
  }

  lemma TakeSnoc<T>(s: seq<T>, n: nat)
    requires n < |s|
    ensures s[..n + 1] == s[..n] + [s[n]]
  {
  }

  /** An `add` sequence that succeeds keeps every record already stored. */
  lemma AddAllKeeps<K(!new), V>(m: map<K, V>, recs: seq<V>, key: V -> K)
    requires AddAll(m, recs, key).Some?
    ensures forall k | k in m :: k in AddAll(m, recs, key).value && AddAll(m, recs, key).value[k] == m[k]
  {
    AddAllSucceeds(m, recs, key);
  }

  /** Adding the records of a listing of `m` to an empty store rebuilds `m`. */
  lemma ListingRebuilds<K(!new), V>(listing: seq<V>, m: map<K, V>, key: V -> K)
    requires Enumerates(listing, m, key)
    ensures AddAll(map[], listing, key) == Some(m)
  {
    AddAllSucceeds(map[], listing, key);
    MapOfKeys(listing, key);
    var r := MapOf(listing, key);
    assert map[] + r == r;
    assert DistinctKeys(listing, key);
    forall k | k in m ensures k in r && r[k] == m[k] {
      var i :| 0 <= i < |listing| && key(listing[i]) == k;
    }
    forall k | k in r ensures k in m {
      var i :| 0 <= i < |listing| && key(listing[i]) == k;
    }
    assert r == m;
  }

  /** An `add` sequence that succeeds files every record under its key
      when the store already did. */
  lemma {:induction false} AddAllKeyed<K(!new), V>(m: map<K, V>, recs: seq<V>, key: V -> K)
    requires forall k | k in m :: key(m[k]) == k
    requires AddAll(m, recs, key).Some?
    ensures forall k | k in AddAll(m, recs, key).value :: key(AddAll(m, recs, key).value[k]) == k
    decreases |recs|
  {
    if recs != [] {
      AddAllKeyed(m, recs[..|recs| - 1], key);
    }
  }

  /** Staging the adds of `recs` against a store holding `m`, one record at
      a time, stopping at the first key that is already there. */
  method StageAdds<K(==,!new), V>(m: map<K, V>, recs: seq<V>, key: V -> K) returns (staged: Option<map<K, V>>)
    ensures staged == AddAll(m, recs, key)
  {
    var current := m;
    var k := 0;
    while k < |recs|
      invariant 0 <= k <= |recs|
      invariant AddAll(m, recs[..k], key) == Some(current)
    {
      assert recs[..k + 1][..k] == recs[..k];
      if key(recs[k]) in current {
        AddAllFailsOnward(m, recs, key, k + 1);
        return None;
      }
      current := current[key(recs[k]) := recs[k]];
      k := k + 1;
    }
    assert recs[..k] == recs;
    staged := Some(current);
  }

  /** Once an `add` has failed, adding more records cannot succeed. */
  lemma {:induction false} AddAllFailsOnward<K(!new), V>(m: map<K, V>, recs: seq<V>, key: V -> K, k: nat)
    requires k <= |recs| && AddAll(m, recs[..k], key).None?
    ensures AddAll(m, recs, key).None?
    decreases |recs| - k
  {
    if k == |recs| {
      assert recs[..k] == recs;
    } else {
      assert recs[..k + 1][..k] == recs[..k];
      AddAllFailsOnward(m, recs, key, k + 1);
    }
  }
}
