/** Whole-database helpers (src/utils/db/dbHelpers.ts): a snapshot of all
    four stores tagged with the schema version, and its import, either
    replacing every store or merging into them. */
module DbHelpers {
  import opened Inventory
  import opened Js
  import opened Store
  import Migrations

  // ---------------------------------------------------------------------
  // Export

  /** `index(name).get(key)`: the first entry of the index, in index order,
      whose indexed field has the key; nothing when none has. */
  function IndexGet<T>(index: seq<T>, matches: T -> bool): (r: Option<T>)
    ensures r.None? <==> forall i | 0 <= i < |index| :: !matches(index[i])
    ensures r.Some? ==> r.value in index && matches(r.value)
  {
    if index == [] then None
    else if matches(index[0]) then Some(index[0])
    else IndexGet(index[1..], matches)
  }

  /** The entry `IndexGet` returns is the first match: every entry before
      it fails to match. */
  lemma {:induction false} IndexGetFirst<T>(index: seq<T>, matches: T -> bool)
    requires IndexGet(index, matches).Some?
    ensures exists i | 0 <= i < |index| ::
              index[i] == IndexGet(index, matches).value && forall j | 0 <= j < i :: !matches(index[j])
  {
    if !matches(index[0]) {
      IndexGetFirst(index[1..], matches);
      var i :| 0 <= i < |index[1..]| && index[1..][i] == IndexGet(index, matches).value
               && forall j | 0 <= j < i :: !matches(index[1..][j]);
      assert index[i + 1] == index[1..][i];
      forall j | 0 <= j < i + 1 ensures !matches(index[j]) {
        if j > 0 { assert index[j] == index[1..][j - 1]; }
      }
    } else {
      assert index[0] == IndexGet(index, matches).value;
    }
  }

  /** An exported category: the stored record plus what the `by-name` and
      `by-updated` indexes return for its name and its `updatedAt`. */
  datatype ExportedCategory = ExportedCategory(record: Category, byName: Option<Category>, byUpdated: Option<Category>)

  /** An exported item, with the `by-category`, `by-name` and `by-updated`
      lookups for its own fields. */
  datatype ExportedItem = ExportedItem(record: Item, byCategory: Option<Item>, byName: Option<Item>, byUpdated: Option<Item>)

  /** The index listings the lookups read, each in its index's order. */
  datatype Indexes = Indexes(
    categoriesByName: seq<Category>,
    categoriesByUpdated: seq<Category>,
    itemsByCategory: seq<Item>,
    itemsByName: seq<Item>,
    itemsByUpdated: seq<Item>)

  /** Each index listing holds the records of its store. */
  predicate IndexesOf(idx: Indexes, s: DbState) {
    && ListsCategories(idx.categoriesByName, s.categories)
    && ListsCategories(idx.categoriesByUpdated, s.categories)
    && ListsItems(idx.itemsByCategory, s.items)
    && ListsItems(idx.itemsByName, s.items)
    && ListsItems(idx.itemsByUpdated, s.items)
  }

  /** The export document. */
  datatype Export = Export(
    version: int,
    timestamp: int,
    categories: seq<ExportedCategory>,
    items: seq<ExportedItem>,
    migrations: seq<MigrationRecord>,
    settings: seq<Setting>)

  function ExportCategory(c: Category, idx: Indexes): (r: ExportedCategory)
    ensures r.record == c
  {
    ExportedCategory(c,
      IndexGet(idx.categoriesByName, (x: Category) => x.name == c.name),
      IndexGet(idx.categoriesByUpdated, (x: Category) => x.updatedAt == c.updatedAt))
  }

  function ExportItem(i: Item, idx: Indexes): (r: ExportedItem)
    ensures r.record == i
  {
    ExportedItem(i,
      IndexGet(idx.itemsByCategory, (x: Item) => x.categoryId == i.categoryId),
      IndexGet(idx.itemsByName, (x: Item) => x.name == i.name),
      IndexGet(idx.itemsByUpdated, (x: Item) => x.updatedAt == i.updatedAt))
  }

  /** The document `exportData` builds from the store listings. */
  function ExportDocument(version: int, now: int, categories: seq<Category>, items: seq<Item>,
                          migrations: seq<MigrationRecord>, settings: seq<Setting>, idx: Indexes): (r: Export)
    ensures r.version == version && r.timestamp == now
    ensures r.migrations == migrations && r.settings == settings
    ensures |r.categories| == |categories| && |r.items| == |items|
    ensures forall i | 0 <= i < |categories| :: r.categories[i] == ExportCategory(categories[i], idx)
    ensures forall i | 0 <= i < |items| :: r.items[i] == ExportItem(items[i], idx)
  {
    Export(version, now,
      seq(|categories|, i requires 0 <= i < |categories| => ExportCategory(categories[i], idx)),
      seq(|items|, i requires 0 <= i < |items| => ExportItem(items[i], idx)),
      migrations, settings)
  }

  /** A lookup on an index listing a store finds a stored record whenever
      some stored record matches. */
  lemma IndexGetFinds<K(!new), V(!new)>(index: seq<V>, m: map<K, V>, key: V -> K, x: V, matches: V -> bool)
    requires Enumerates(index, m, key)
    requires key(x) in m && m[key(x)] == x && matches(x)
    ensures IndexGet(index, matches).Some?
    ensures IndexGet(index, matches).value in m.Values
  {
    var j :| 0 <= j < |index| && key(index[j]) == key(x);
    assert index[j] == x;
    var r := IndexGet(index, matches).value;
    var n :| 0 <= n < |index| && index[n] == r;
    assert key(index[n]) in m;
  }

  /** Every category lookup of an export finds a record with the looked-up
      field; when no other category has the same name, `byName` is the
      category itself. */
  lemma ExportCategoryResolves(s: DbState, idx: Indexes, c: Category)
    requires IndexesOf(idx, s)
    requires c.id in s.categories && s.categories[c.id] == c
    ensures var e := ExportCategory(c, idx);
      && e.byName.Some? && e.byName.value.name == c.name && e.byName.value in s.categories.Values
      && e.byUpdated.Some? && e.byUpdated.value.updatedAt == c.updatedAt
    ensures (forall k | k in s.categories && k != c.id :: s.categories[k].name != c.name) ==>
              ExportCategory(c, idx).byName == Some(c)
  {
    IndexGetFinds(idx.categoriesByName, s.categories, CategoryKey, c, (x: Category) => x.name == c.name);
    IndexGetFinds(idx.categoriesByUpdated, s.categories, CategoryKey, c, (x: Category) => x.updatedAt == c.updatedAt);
    var found := ExportCategory(c, idx).byName.value;
    assert found in s.categories.Values;
    var k :| k in s.categories && s.categories[k] == found;
  }

  /** Every item lookup of an export finds a record with the looked-up
      field. */
  lemma ExportItemResolves(s: DbState, idx: Indexes, i: Item)
    requires IndexesOf(idx, s)
    requires i.id in s.items && s.items[i.id] == i
    ensures var e := ExportItem(i, idx);
      && e.byCategory.Some? && e.byCategory.value.categoryId == i.categoryId
      && e.byName.Some? && e.byName.value.name == i.name
      && e.byUpdated.Some? && e.byUpdated.value.updatedAt == i.updatedAt
  {
    IndexGetFinds(idx.itemsByCategory, s.items, ItemKey, i, (x: Item) => x.categoryId == i.categoryId);
    IndexGetFinds(idx.itemsByName, s.items, ItemKey, i, (x: Item) => x.name == i.name);
    IndexGetFinds(idx.itemsByUpdated, s.items, ItemKey, i, (x: Item) => x.updatedAt == i.updatedAt);
  }

  /** `exportData`: the current version, the full listing of each store and
      the per-record index lookups. */
  method ExportData(db: Database, idx: Indexes, now: int) returns (doc: Export)
    requires db.Valid() && IndexesOf(idx, db.State())
    ensures Migrations.IsCurrentVersion(doc.version, db.migrations.Keys)
    ensures doc.timestamp == now
    ensures ListsCategories(Categories(doc), db.categories) && ListsItems(Items(doc), db.items)
    ensures Enumerates(doc.migrations, db.migrations, MigrationKey)
    ensures Enumerates(doc.settings, db.settings, SettingKey)
    ensures doc == ExportDocument(doc.version, now, Categories(doc), Items(doc), doc.migrations, doc.settings, idx)
  {
    var version := Migrations.GetCurrentVersion(db);
    var categories := ListRecords(db.categories, CategoryKey);
    var items := ListRecords(db.items, ItemKey);
    forall v | v in db.migrations ensures MigrationKey(db.migrations[v]) == v {
      assert db.migrations[v].version == v;
    }
    var migrations := ListRecords(db.migrations, MigrationKey);
    var settings := ListRecords(db.settings, SettingKey);
    doc := ExportDocument(version, now, categories, items, migrations, settings, idx);
    assert Categories(doc) == categories;
    assert Items(doc) == items;
  }

  // ---------------------------------------------------------------------
  // Export as the browser runs it, without a `by-updated` index

  /** `store.index(index).get(...)`: a NotFoundError when the store has no
      such index, the lookup otherwise. */
  function Lookup<T>(store: string, index: string, listing: seq<T>, matches: T -> bool): Result<Option<T>> {
    if IndexExists(store, index) then Ok(IndexGet(listing, matches)) else Err(MissingIndex(index))
  }

  /** A category's lookups as written: `by-name`, then `by-updated`, which
      the categories store does not have. */
  function ExportCategoryAsWritten(c: Category, idx: Indexes): (r: Result<ExportedCategory>)
    ensures r == Err(MissingIndex("by-updated"))
  {
    var byName := Lookup("categories", "by-name", idx.categoriesByName, (x: Category) => x.name == c.name);
    var byUpdated := Lookup("categories", "by-updated", idx.categoriesByUpdated, (x: Category) => x.updatedAt == c.updatedAt);
    match (byName, byUpdated)
    case (Err(e), _) => Err(e)
    case (_, Err(e)) => Err(e)
    case (Ok(n), Ok(u)) => Ok(ExportedCategory(c, n, u))
  }

  /** An item's lookups as written: `by-category`, `by-name`, then
      `by-updated`, which the items store does not have. */
  function ExportItemAsWritten(i: Item, idx: Indexes): (r: Result<ExportedItem>)
    ensures r == Err(MissingIndex("by-updated"))
  {
    var byCategory := Lookup("items", "by-category", idx.itemsByCategory, (x: Item) => x.categoryId == i.categoryId);
    var byName := Lookup("items", "by-name", idx.itemsByName, (x: Item) => x.name == i.name);
    var byUpdated := Lookup("items", "by-updated", idx.itemsByUpdated, (x: Item) => x.updatedAt == i.updatedAt);
    match (byCategory, byName, byUpdated)
    case (Err(e), _, _) => Err(e)
    case (_, Err(e), _) => Err(e)
    case (_, _, Err(e)) => Err(e)
    case (Ok(g), Ok(n), Ok(u)) => Ok(ExportedItem(i, g, n, u))
  }

  /** `Promise.all` over the categories' lookups: rejected by the first
      failing one, else every exported category. */
  function ExportCategoriesAsWritten(cs: seq<Category>, idx: Indexes): (r: Result<seq<ExportedCategory>>)
    ensures r.Ok? <==> cs == []
    ensures r.Ok? ==> r.value == []
    ensures r.Err? ==> r.error == MissingIndex("by-updated")
  {
    if cs == [] then Ok([])
    else
      var head := ExportCategoryAsWritten(cs[0], idx);
      var tail := ExportCategoriesAsWritten(cs[1..], idx);
      match (head, tail)
      case (Err(e), _) => Err(e)
      case (_, Err(e)) => Err(e)
      case (Ok(h), Ok(t)) => Ok([h] + t)
  }

  /** `Promise.all` over the items' lookups. */
  function ExportItemsAsWritten(its: seq<Item>, idx: Indexes): (r: Result<seq<ExportedItem>>)
    ensures r.Ok? <==> its == []
    ensures r.Ok? ==> r.value == []
    ensures r.Err? ==> r.error == MissingIndex("by-updated")
  {
    if its == [] then Ok([])
    else
      var head := ExportItemAsWritten(its[0], idx);
      var tail := ExportItemsAsWritten(its[1..], idx);
      match (head, tail)
      case (Err(e), _) => Err(e)
      case (_, Err(e)) => Err(e)
      case (Ok(h), Ok(t)) => Ok([h] + t)
  }

  /** `exportData` as written: the category lookups, then the item
      lookups. It yields a document only when both listings are empty,
      and then the same one as `ExportDocument`. */
  function ExportAsWritten(version: int, now: int, categories: seq<Category>, items: seq<Item>,
                           migrations: seq<MigrationRecord>, settings: seq<Setting>, idx: Indexes): (r: Result<Export>)
    ensures r.Ok? <==> categories == [] && items == []
    ensures r.Err? ==> r.error == MissingIndex("by-updated")
    ensures r.Ok? ==> r.value == ExportDocument(version, now, categories, items, migrations, settings, idx)
  {
    match ExportCategoriesAsWritten(categories, idx)
    case Err(e) => Err(e)
    case Ok(cs) =>
      match ExportItemsAsWritten(items, idx)
      case Err(e) => Err(e)
      case Ok(exported) => Ok(Export(version, now, cs, exported, migrations, settings))
  }

  /** As written, exporting a database that holds a single category or item
      fails with a NotFoundError, so no such database can be exported and
      re-imported. */
  lemma ExportAsWrittenFails(s: DbState, version: int, now: int, categories: seq<Category>, items: seq<Item>,
                             migrations: seq<MigrationRecord>, settings: seq<Setting>, idx: Indexes)
    requires ListsCategories(categories, s.categories) && ListsItems(items, s.items)
    requires |s.categories| > 0 || |s.items| > 0
    ensures ExportAsWritten(version, now, categories, items, migrations, settings, idx) == Err(MissingIndex("by-updated"))
  {
    if |s.categories| > 0 {
      var k := Migrations.PickFrom(s.categories.Keys);
      var i :| 0 <= i < |categories| && CategoryKey(categories[i]) == k;
    } else {
      var k := Migrations.PickFrom(s.items.Keys);
      var i :| 0 <= i < |items| && ItemKey(items[i]) == k;
    }
  }

  // ---------------------------------------------------------------------
  // Import

  /** The stored fields of the exported categories. */
  function Categories(doc: Export): (r: seq<Category>)
    ensures |r| == |doc.categories| && forall i | 0 <= i < |r| :: r[i] == doc.categories[i].record
  {
    seq(|doc.categories|, i requires 0 <= i < |doc.categories| => doc.categories[i].record)
  }

  function Items(doc: Export): (r: seq<Item>)
    ensures |r| == |doc.items| && forall i | 0 <= i < |r| :: r[i] == doc.items[i].record
  {
    seq(|doc.items|, i requires 0 <= i < |doc.items| => doc.items[i].record)
  }

  /** An import document as `importData` reads it. */
  datatype Document = Document(
    version: int,
    categories: seq<Category>,
    items: seq<Item>,
    migrations: seq<MigrationRecord>,
    settings: seq<Setting>)

  /** The document an export yields when imported. */
  function Imported(e: Export): (r: Document)
    ensures r.version == e.version && r.categories == Categories(e) && r.items == Items(e)
    ensures r.migrations == e.migrations && r.settings == e.settings
  {
    Document(e.version, Categories(e), Items(e), e.migrations, e.settings)
  }

  /** Replace mode: every store cleared, then every document record added;
      one failing `add` aborts the transaction, clears included. */
  function Replace(doc: Document): (r: Option<DbState>)
    ensures r.Some? <==>
              && AddAll(map[], doc.categories, CategoryKey).Some?
              && AddAll(map[], doc.items, ItemKey).Some?
              && AddAll(map[], doc.migrations, MigrationKey).Some?
              && AddAll(map[], doc.settings, SettingKey).Some?
  {
    var c := AddAll(map[], doc.categories, CategoryKey);
    var i := AddAll(map[], doc.items, ItemKey);
    var m := AddAll(map[], doc.migrations, MigrationKey);
    var t := AddAll(map[], doc.settings, SettingKey);
    if c.Some? && i.Some? && m.Some? && t.Some? then Some(DbState(c.value, i.value, m.value, t.value))
    else None
  }

  /** Merge mode for categories and items: record by record, a `get` and,
      when the key is absent, an `add`, each seeing the adds before it. */
  function MergeSkip<K(!new), V>(m: map<K, V>, recs: seq<V>, key: V -> K): (r: map<K, V>)
    ensures m.Keys <= r.Keys && forall k | k in m :: r[k] == m[k]
    ensures forall i | 0 <= i < |recs| :: key(recs[i]) in r
    decreases |recs|
  {
    if recs == [] then m
    else
      var init := recs[..|recs| - 1];
      var last := recs[|recs| - 1];
      var prev := MergeSkip(m, init, key);
      assert forall i | 0 <= i < |recs| - 1 :: recs[i] == init[i];
      if key(last) in prev then prev else prev[key(last) := last]
  }

  /** Every key merge mode adds comes from the document, filed with the
      first document record that has it. */
  lemma {:induction false} MergeSkipAdds<K(!new), V>(m: map<K, V>, recs: seq<V>, key: V -> K)
    ensures forall k | k in MergeSkip(m, recs, key) && k !in m ::
              exists i | 0 <= i < |recs| :: key(recs[i]) == k && MergeSkip(m, recs, key)[k] == recs[i]
                                            && forall j | 0 <= j < i :: key(recs[j]) != k
    decreases |recs|
  {
    if recs != [] {
      var init := recs[..|recs| - 1];
      MergeSkipAdds(m, init, key);
      var prev := MergeSkip(m, init, key);
      forall k | k in MergeSkip(m, recs, key) && k !in m
        ensures exists i | 0 <= i < |recs| :: key(recs[i]) == k && MergeSkip(m, recs, key)[k] == recs[i]
                                            && forall j | 0 <= j < i :: key(recs[j]) != k
      {
        if k in prev {
          var i :| 0 <= i < |init| && key(init[i]) == k && prev[k] == init[i]
                   && forall j | 0 <= j < i :: key(init[j]) != k;
          assert recs[i] == init[i];
          assert forall j | 0 <= j < i :: recs[j] == init[j];
        } else {
          var i := |recs| - 1;
          assert key(recs[i]) == k;
          forall j | 0 <= j < i ensures key(recs[j]) != k {
            assert recs[j] == init[j];
          }
        }
      }
    }
  }

  /** When every key is already stored, merging changes nothing. */
  lemma {:induction false} MergeSkipPresent<K(!new), V>(m: map<K, V>, recs: seq<V>, key: V -> K)
    requires forall i | 0 <= i < |recs| :: key(recs[i]) in m
    ensures MergeSkip(m, recs, key) == m
    decreases |recs|
  {
    if recs != [] {
      var init := recs[..|recs| - 1];
      assert forall i | 0 <= i < |init| :: init[i] == recs[i];
      MergeSkipPresent(m, init, key);
    }
  }

  /** Merge mode for migrations and settings: every `get` is issued before
      any `add`, so only the records absent from the store before the
      import are added, and two of them with one key make the second `add`
      fail. */
  function AbsentOnly<K(!new), V(!new)>(m: map<K, V>, recs: seq<V>, key: V -> K): (r: seq<V>)
    ensures forall x :: x in r <==> x in recs && key(x) !in m
  {
    Filter(recs, (x: V) => key(x) !in m)
  }

  /** When every key is already stored, nothing is left to add. */
  lemma AbsentOnlyNone<K(!new), V(!new)>(m: map<K, V>, recs: seq<V>, key: V -> K)
    requires forall i | 0 <= i < |recs| :: key(recs[i]) in m
    ensures AbsentOnly(m, recs, key) == []
  {
    FilterNone(recs, (x: V) => key(x) !in m);
  }

  /** Merge mode as a whole; `None` when an `add` fails. */
  function Merge(s: DbState, doc: Document): (r: Option<DbState>)
    ensures r.Some? <==>
              && AddAll(s.migrations, AbsentOnly(s.migrations, doc.migrations, MigrationKey), MigrationKey).Some?
              && AddAll(s.settings, AbsentOnly(s.settings, doc.settings, SettingKey), SettingKey).Some?
    ensures r.Some? ==> r.value.categories == MergeSkip(s.categories, doc.categories, CategoryKey)
    ensures r.Some? ==> r.value.items == MergeSkip(s.items, doc.items, ItemKey)
  {
    var m := AddAll(s.migrations, AbsentOnly(s.migrations, doc.migrations, MigrationKey), MigrationKey);
    var t := AddAll(s.settings, AbsentOnly(s.settings, doc.settings, SettingKey), SettingKey);
    if m.Some? && t.Some? then
      Some(DbState(MergeSkip(s.categories, doc.categories, CategoryKey),
                   MergeSkip(s.items, doc.items, ItemKey), m.value, t.value))
    else None
  }

  /** `importData(doc, {merge})` on a database at version `current`. */
  function ImportResult(s: DbState, current: int, doc: Document, merge: bool): (r: Result<DbState>)
    ensures doc.version > current <==> r == Err(VersionConflict(doc.version, current))
    ensures r.Err? ==> r.error == ConstraintError || r.error == VersionConflict(doc.version, current)
  {
    if doc.version > current then Err(VersionConflict(doc.version, current))
    else
      var next := if merge then Merge(s, doc) else Replace(doc);
      if next.None? then Err(ConstraintError) else Ok(next.value)
  }

  /** Replace mode ends with each store holding exactly the document's
      records, and succeeds exactly when no two records of one store share
      a key. */
  lemma ReplaceExact(s: DbState, current: int, doc: Document)
    requires doc.version <= current
    ensures ImportResult(s, current, doc, false).Ok? <==>
              && DistinctKeys(doc.categories, CategoryKey) && DistinctKeys(doc.items, ItemKey)
              && DistinctKeys(doc.migrations, MigrationKey) && DistinctKeys(doc.settings, SettingKey)
    ensures ImportResult(s, current, doc, false).Ok? ==>
              ImportResult(s, current, doc, false).value
              == DbState(MapOf(doc.categories, CategoryKey), MapOf(doc.items, ItemKey),
                         MapOf(doc.migrations, MigrationKey), MapOf(doc.settings, SettingKey))
  {
    FreshStore(doc.categories, CategoryKey);
    FreshStore(doc.items, ItemKey);
    FreshStore(doc.migrations, MigrationKey);
    FreshStore(doc.settings, SettingKey);
  }

  /** Adding records to an empty store succeeds exactly when their keys
      are distinct, and then the store holds exactly those records. */
  lemma FreshStore<K(!new), V>(recs: seq<V>, key: V -> K)
    ensures AddAll(map[], recs, key).Some? <==> DistinctKeys(recs, key)
    ensures AddAll(map[], recs, key).Some? ==> AddAll(map[], recs, key).value == MapOf(recs, key)
  {
    AddAllSucceeds(map[], recs, key);
    assert map[] + MapOf(recs, key) == MapOf(recs, key);
  }

  /** Merge mode never overwrites: every stored record keeps its value, and
      every record of the document is then stored under its key. */
  lemma MergeNeverOverwrites(s: DbState, current: int, doc: Document)
    requires ImportResult(s, current, doc, true).Ok?
    ensures var t := ImportResult(s, current, doc, true).value;
      && (forall k | k in s.categories :: k in t.categories && t.categories[k] == s.categories[k])
      && (forall k | k in s.items :: k in t.items && t.items[k] == s.items[k])
      && (forall v | v in s.migrations :: v in t.migrations && t.migrations[v] == s.migrations[v])
      && (forall k | k in s.settings :: k in t.settings && t.settings[k] == s.settings[k])
      && (forall i | 0 <= i < |doc.categories| :: doc.categories[i].id in t.categories)
      && (forall i | 0 <= i < |doc.items| :: doc.items[i].id in t.items)
      && (forall i | 0 <= i < |doc.migrations| :: doc.migrations[i].version in t.migrations)
      && (forall i | 0 <= i < |doc.settings| :: doc.settings[i].key in t.settings)
  {
    MergeAddsAbsent(s.migrations, doc.migrations, MigrationKey);
    MergeAddsAbsent(s.settings, doc.settings, SettingKey);
  }

  /** The add-if-absent step for migrations or settings keeps what is
      stored and stores every document key. */
  lemma MergeAddsAbsent<K(!new), V(!new)>(m: map<K, V>, recs: seq<V>, key: V -> K)
    requires AddAll(m, AbsentOnly(m, recs, key), key).Some?
    ensures var r := AddAll(m, AbsentOnly(m, recs, key), key).value;
      && (forall k | k in m :: k in r && r[k] == m[k])
      && (forall i | 0 <= i < |recs| :: key(recs[i]) in r)
  {
    var absent := AbsentOnly(m, recs, key);
    AddAllKeeps(m, absent, key);
    AddAllSucceeds(m, absent, key);
    forall i | 0 <= i < |recs| ensures key(recs[i]) in AddAll(m, absent, key).value {
      if key(recs[i]) !in m {
        assert recs[i] in absent;
        var j :| 0 <= j < |absent| && absent[j] == recs[i];
      }
    }
  }

  /** Merging the same document twice is the same as merging it once. */
  lemma MergeTwice(s: DbState, current: int, later: int, doc: Document)
    requires ImportResult(s, current, doc, true).Ok? && doc.version <= later
    ensures ImportResult(ImportResult(s, current, doc, true).value, later, doc, true)
            == ImportResult(s, current, doc, true)
  {
    var t := ImportResult(s, current, doc, true).value;
    MergeNeverOverwrites(s, current, doc);
    MergeSkipPresent(t.categories, doc.categories, CategoryKey);
    MergeSkipPresent(t.items, doc.items, ItemKey);
    AbsentOnlyNone(t.migrations, doc.migrations, MigrationKey);
    AbsentOnlyNone(t.settings, doc.settings, SettingKey);
    assert t.categories == MergeSkip(s.categories, doc.categories, CategoryKey);
  }

  /** Exporting a database and importing the result in replace mode, on
      any database whose version is not below the exported one, rebuilds
      every store exactly. */
  lemma ExportReplaceRoundTrip(s: DbState, t: DbState, current: int, e: Export)
    requires ListsCategories(Categories(e), s.categories) && ListsItems(Items(e), s.items)
    requires Enumerates(e.migrations, s.migrations, MigrationKey)
    requires Enumerates(e.settings, s.settings, SettingKey)
    requires e.version <= current
    ensures ImportResult(t, current, Imported(e), false) == Ok(s)
  {
    var doc := Imported(e);
    ListingRebuilds(doc.categories, s.categories, CategoryKey);
    ListingRebuilds(doc.items, s.items, ItemKey);
    ListingRebuilds(doc.migrations, s.migrations, MigrationKey);
    ListingRebuilds(doc.settings, s.settings, SettingKey);
  }

  /** Merging an export back into the database it came from changes
      nothing. */
  lemma ExportMergeRoundTrip(s: DbState, current: int, e: Export)
    requires ListsCategories(Categories(e), s.categories) && ListsItems(Items(e), s.items)
    requires Enumerates(e.migrations, s.migrations, MigrationKey)
    requires Enumerates(e.settings, s.settings, SettingKey)
    requires e.version <= current
    ensures ImportResult(s, current, Imported(e), true) == Ok(s)
  {
    var doc := Imported(e);
    ListedKeysStored(doc.categories, s.categories, CategoryKey);
    ListedKeysStored(doc.items, s.items, ItemKey);
    ListedKeysStored(doc.migrations, s.migrations, MigrationKey);
    ListedKeysStored(doc.settings, s.settings, SettingKey);
    MergeImportPresent(s, current, doc);
  }

  /** Importing in merge mode a document whose every key is already stored
      succeeds and changes nothing. */
  lemma MergeImportPresent(s: DbState, current: int, doc: Document)
    requires doc.version <= current
    requires forall i | 0 <= i < |doc.categories| :: doc.categories[i].id in s.categories
    requires forall i | 0 <= i < |doc.items| :: doc.items[i].id in s.items
    requires forall i | 0 <= i < |doc.migrations| :: doc.migrations[i].version in s.migrations
    requires forall i | 0 <= i < |doc.settings| :: doc.settings[i].key in s.settings
    ensures ImportResult(s, current, doc, true) == Ok(s)
  {
    MergePresent(s, doc);
  }

  /** Every record of a listing has its key in the listed store. */
  lemma ListedKeysStored<K, V>(listing: seq<V>, m: map<K, V>, key: V -> K)
    requires Enumerates(listing, m, key)
    ensures forall i | 0 <= i < |listing| :: key(listing[i]) in m
  {
  }

  /** Merging a document whose every key is already stored changes
      nothing. */
  lemma MergePresent(s: DbState, doc: Document)
    requires forall i | 0 <= i < |doc.categories| :: doc.categories[i].id in s.categories
    requires forall i | 0 <= i < |doc.items| :: doc.items[i].id in s.items
    requires forall i | 0 <= i < |doc.migrations| :: doc.migrations[i].version in s.migrations
    requires forall i | 0 <= i < |doc.settings| :: doc.settings[i].key in s.settings
    ensures Merge(s, doc) == Some(s)
  {
    MergeSkipPresent(s.categories, doc.categories, CategoryKey);
    MergeSkipPresent(s.items, doc.items, ItemKey);
    AbsentOnlyNone(s.migrations, doc.migrations, MigrationKey);
    AbsentOnlyNone(s.settings, doc.settings, SettingKey);
  }

  /** The merge loop for categories or items: for each record a `get`, and
      an `add` when the key is absent. */
  method StageMerge<K(==,!new), V>(m: map<K, V>, recs: seq<V>, key: V -> K) returns (staged: map<K, V>)
    ensures staged == MergeSkip(m, recs, key)
  {
    staged := m;
    var k := 0;
    while k < |recs|
      invariant 0 <= k <= |recs|
      invariant staged == MergeSkip(m, recs[..k], key)
    {
      assert recs[..k + 1][..k] == recs[..k];
      if key(recs[k]) !in staged {
        staged := staged[key(recs[k]) := recs[k]];
      }
      k := k + 1;
    }
    assert recs[..k] == recs;
  }

  /** The `get`s of merge mode for migrations or settings: the records whose
      key is absent before any of them is added. */
  method CollectAbsent<K(==,!new), V(!new)>(m: map<K, V>, recs: seq<V>, key: V -> K) returns (absent: seq<V>)
    ensures absent == AbsentOnly(m, recs, key)
  {
    absent := [];
    var k := 0;
    while k < |recs|
      invariant 0 <= k <= |recs|
      invariant absent == Filter(recs[..k], (x: V) => key(x) !in m)
    {
      assert recs[..k + 1] == recs[..k] + [recs[k]];
      FilterAppend(recs[..k], [recs[k]], (x: V) => key(x) !in m);
      if key(recs[k]) !in m {
        absent := absent + [recs[k]];
      }
      k := k + 1;
    }
    assert recs[..k] == recs;
  }

  /** `importData(doc, {merge})`: the version guard, then every write staged
      in one transaction and committed only when every `add` succeeds.
      `current` is the version the guard read. */
  method ImportData(db: Database, doc: Document, merge: bool) returns (r: Result<()>, current: int)
    requires db.Valid()
    modifies db
    ensures Migrations.IsCurrentVersion(current, old(db.migrations).Keys)
    ensures ImportResult(old(db.State()), current, doc, merge).Err? ==>
              r == Err(ImportResult(old(db.State()), current, doc, merge).error) && db.State() == old(db.State())
    ensures ImportResult(old(db.State()), current, doc, merge).Ok? ==>
              r == Ok(()) && db.State() == ImportResult(old(db.State()), current, doc, merge).value
  {
    current := Migrations.GetCurrentVersion(db);
    if doc.version > current {
      return Err(VersionConflict(doc.version, current)), current;
    }
    var next: Option<DbState>;
    if !merge {
      var c := StageAdds(map[], doc.categories, CategoryKey);
      var i := StageAdds(map[], doc.items, ItemKey);
      var m := StageAdds(map[], doc.migrations, MigrationKey);
      var t := StageAdds(map[], doc.settings, SettingKey);
      next := if c.Some? && i.Some? && m.Some? && t.Some? then Some(DbState(c.value, i.value, m.value, t.value)) else None;
    } else {
      var c := StageMerge(db.categories, doc.categories, CategoryKey);
      var i := StageMerge(db.items, doc.items, ItemKey);
      var absentMigrations := CollectAbsent(db.migrations, doc.migrations, MigrationKey);
      var absentSettings := CollectAbsent(db.settings, doc.settings, SettingKey);
      var m := StageAdds(db.migrations, absentMigrations, MigrationKey);
      var t := StageAdds(db.settings, absentSettings, SettingKey);
      next := if m.Some? && t.Some? then Some(DbState(c, i, m.value, t.value)) else None;
    }
    if next.None? {
      return Err(ConstraintError), current;
    }
    db.categories, db.items, db.migrations, db.settings :=
      next.value.categories, next.value.items, next.value.migrations, next.value.settings;
    r := Ok(());
  }

  // ---------------------------------------------------------------------
  // deleteDatabase

  /** How the browser answers the delete request. */
  datatype DeleteEvent = Succeeded | Failed | Blocked | Threw

  /** `deleteDatabase`: true only when the delete request succeeds; an
      error, a block or an exception all read as false. */
  function DeleteDatabase(event: DeleteEvent): (ok: bool)
    ensures ok <==> event == Succeeded
  {
    event.Succeeded?
  }
}
