/** The older repository (src/utils/db/operations.ts). Its category
    `create` copies the form verbatim (no `parentId`/`isFolder` defaults)
    and its readers return records as stored, so a record without `path`
    makes `getPath`, `getDescendants` and a child `create` fail. Its
    `update`/`delete` and its item operations are the same code as the
    newer files and are modelled there (CategoryOperations, ItemOperations). */
module Operations {
  import opened Inventory
  import opened Js
  import opened Store
  import CategoryOperations

  // ---------------------------------------------------------------------
  // create

  /** The path and level the legacy `create` computes: spreading the
      stored parent's `path` fails when that record has none. */
  function LegacyPlacement(m: map<string, Category>, parentId: ParentRef): (r: Result<TreePos>)
    ensures r.Err? <==> CategoryOperations.ResolvesParent(m, parentId) && m[parentId.id].pos.None?
    ensures r.Err? ==> r.error == TypeError
    ensures r.Ok? ==> r.value == CategoryOperations.Placement(m, parentId)
  {
    if CategoryOperations.ResolvesParent(m, parentId) then
      var parent := m[parentId.id];
      if parent.pos.None? then Err(TypeError)
      else Ok(TreePos(parent.pos.value.path + [parent.id], parent.pos.value.level + 1))
    else Ok(TreePos([], 0))
  }

  /** The record the legacy `create` stores, or the error it throws. */
  function LegacyCategory(m: map<string, Category>, data: CategoryForm, id: string, now: int): Result<Category> {
    match LegacyPlacement(m, data.parentId)
    case Err(e) => Err(e)
    case Ok(pos) =>
      Ok(Category(id, data.name, data.description, data.color, data.parentId, data.isFolder,
                  Some(pos), now, now))
  }

  /** The legacy record differs from the newer `create`'s only in keeping
      `parentId` and `isFolder` exactly as given. */
  lemma LegacyCreateAgrees(m: map<string, Category>, data: CategoryForm, id: string, now: int)
    requires !(CategoryOperations.ResolvesParent(m, data.parentId) && m[data.parentId.id].pos.None?)
    ensures LegacyCategory(m, data, id, now)
            == Ok(CategoryOperations.NewCategory(m, data, id, now).(parentId := data.parentId, isFolder := data.isFolder))
  {
  }

  /** What the legacy `create` returns on a store holding `m`: the parent
      lookup comes first (and may throw), then the `add` (which fails on a
      taken key). */
  function CreateResult(m: map<string, Category>, data: CategoryForm, id: string, now: int): (r: Result<Category>)
    ensures LegacyCategory(m, data, id, now).Err? ==> r == Err(TypeError)
    ensures LegacyCategory(m, data, id, now).Ok? && id in m ==> r == Err(ConstraintError)
    ensures LegacyCategory(m, data, id, now).Ok? && id !in m ==> r == LegacyCategory(m, data, id, now)
    ensures r.Ok? ==> r.value.id == id
  {
    match LegacyCategory(m, data, id, now)
    case Err(e) => Err(e)
    case Ok(c) => if id in m then Err(ConstraintError) else Ok(c)
  }

  /** The legacy `create`. */
  method Create(db: Database, data: CategoryForm, id: string, now: int) returns (r: Result<Category>)
    requires db.Valid()
    modifies db
    ensures db.Valid()
    ensures r == CreateResult(old(db.categories), data, id, now)
    ensures db.State() == old(db.State()).(categories := if r.Ok? then old(db.categories)[id := r.value] else old(db.categories))
  {
    var made := LegacyCategory(db.categories, data, id, now);
    if made.Err? {
      return Err(TypeError);
    }
    if id in db.categories {
      return Err(ConstraintError);
    }
    db.categories := db.categories[id := made.value];
    r := made;
  }

  // ---------------------------------------------------------------------
  // Readers that return records as stored

  /** `getById`: the record as stored, without defaults. */
  function GetById(m: map<string, Category>, id: string): (r: Option<Category>)
    ensures r.Some? <==> id in m
    ensures r.Some? ==> r.value == m[id] && CategoryOperations.GetById(m, id) == Some(CategoryOperations.Normalize(r.value))
  {
    if id in m then Some(m[id]) else None
  }

  /** Filtering the stored records and then filling in defaults is the same
      as filtering the normalised records, when the test does not look at
      the fields normalisation fills in. */
  lemma {:induction false} NormalizeCommutes(all: seq<Category>, p: Category -> bool)
    requires forall c | c in all :: p(CategoryOperations.Normalize(c)) == p(c)
    ensures CategoryOperations.GetAll(Filter(all, p)) == Filter(CategoryOperations.GetAll(all), p)
  {
    if all != [] {
      var x, t := all[0], all[1..];
      assert all == [x] + t;
      assert x in all;
      assert forall c | c in t :: c in all;
      NormalizeCommutes(t, p);
      var n := CategoryOperations.Normalize(x);
      var rest := CategoryOperations.GetAll(t);
      GetAllCons(x, t);
      assert CategoryOperations.GetAll(all) == [n] + rest;
      assert ([n] + rest)[0] == n && ([n] + rest)[1..] == rest;
      assert p(n) == p(x);
      if p(x) {
        assert Filter(all, p) == [x] + Filter(t, p);
        assert Filter([n] + rest, p) == [n] + Filter(rest, p);
        GetAllCons(x, Filter(t, p));
      } else {
        assert Filter(all, p) == Filter(t, p);
        assert Filter([n] + rest, p) == Filter(rest, p);
      }
    }
  }

  lemma GetAllCons(x: Category, t: seq<Category>)
    ensures CategoryOperations.GetAll([x] + t) == [CategoryOperations.Normalize(x)] + CategoryOperations.GetAll(t)
  {
    var l := CategoryOperations.GetAll([x] + t);
    var r := [CategoryOperations.Normalize(x)] + CategoryOperations.GetAll(t);
    assert |l| == |r|;
    forall i | 0 <= i < |l|
      ensures l[i] == r[i]
    {
      if i > 0 { assert ([x] + t)[i] == t[i - 1]; }
    }
  }

  /** `search(query)`: name or description contains the query, ignoring
      case; there is no parent filter. */
  function Search(all: seq<Category>, query: string): (r: seq<Category>)
    ensures forall c :: c in r <==> c in all && CategoryOperations.TextMatches(c, Lower(query))
  {
    var needle := Lower(query);
    Filter(all, (c: Category) => CategoryOperations.TextMatches(c, needle))
  }

  /** The legacy search finds the same records as the newer unscoped one. */
  lemma SearchAgrees(all: seq<Category>, query: string)
    ensures CategoryOperations.GetAll(Search(all, query)) == CategoryOperations.Search(all, query, None)
  {
    var needle := Lower(query);
    var p := (c: Category) => CategoryOperations.TextMatches(c, needle);
    var q := (c: Category) => CategoryOperations.InScope(c, None) && CategoryOperations.TextMatches(c, needle);
    NormalizeCommutes(all, p);
    FilterCongruent(CategoryOperations.GetAll(all), p, q);
  }

  /** `getChildren(parentId)`: strict equality on the stored `parentId`. */
  function GetChildren(all: seq<Category>, parent: Option<string>): (r: seq<Category>)
    ensures forall c :: c in r <==> c in all && c.parentId == CategoryOperations.ParentArg(parent)
  {
    Filter(all, (c: Category) => c.parentId == CategoryOperations.ParentArg(parent))
  }

  lemma GetChildrenAgrees(all: seq<Category>, parent: Option<string>)
    ensures CategoryOperations.GetAll(GetChildren(all, parent)) == CategoryOperations.GetChildren(all, parent)
  {
    NormalizeCommutes(all, (c: Category) => c.parentId == CategoryOperations.ParentArg(parent));
  }

  /** The stored records of the ids that resolve, in order. */
  function ResolveRaw(m: map<string, Category>, ids: seq<string>): (r: seq<Category>)
    ensures CategoryOperations.GetAll(r) == CategoryOperations.ResolvePath(m, ids)
  {
    if ids == [] then []
    else
      var rest := ResolveRaw(m, ids[1..]);
      if ids[0] in m then
        assert CategoryOperations.GetAll([m[ids[0]]] + rest)
               == [CategoryOperations.Normalize(m[ids[0]])] + CategoryOperations.GetAll(rest);
        [m[ids[0]]] + rest
      else rest
  }

  /** `getPath(id)`: `[]` for an unknown id, a TypeError when the record
      has no `path`, otherwise its resolvable ancestors as stored; on
      success it agrees with the newer `getPath`. */
  function GetPath(m: map<string, Category>, id: string): (r: Result<seq<Category>>)
    ensures r.Err? <==> id in m && m[id].pos.None?
    ensures r.Err? ==> r.error == TypeError
    ensures id !in m ==> r == Ok([])
    ensures r.Ok? ==> CategoryOperations.GetAll(r.value) == CategoryOperations.GetPath(m, id)
  {
    if id !in m then Ok([])
    else if m[id].pos.None? then Err(TypeError)
    else Ok(ResolveRaw(m, m[id].pos.value.path))
  }

  /** Some listed record has no `path`. */
  predicate SomePathMissing(all: seq<Category>) {
    exists i | 0 <= i < |all| :: all[i].pos.None?
  }

  /** `getDescendants(id)`: a TypeError as soon as the filter meets a record
      without `path`; otherwise the records whose path contains the id,
      the same ones the newer `getDescendants` returns. */
  function GetDescendants(all: seq<Category>, id: string): (r: Result<seq<Category>>)
    ensures r.Err? <==> SomePathMissing(all)
    ensures r.Err? ==> r.error == TypeError
    ensures r.Ok? ==> forall c :: c in r.value <==> c in all && id in CategoryOperations.PathOf(c)
    ensures r.Ok? ==> CategoryOperations.GetAll(r.value) == CategoryOperations.GetDescendants(all, id)
  {
    if SomePathMissing(all) then Err(TypeError)
    else
      var p := (c: Category) => id in CategoryOperations.PathOf(c);
      NormalizeCommutes(all, p);
      Ok(Filter(all, p))
  }

  // ---------------------------------------------------------------------
  // Seeding (dbHelpers.initialize, and migration 000 through it)

  /** Name, color and description of a seeded category. */
  datatype SeedEntry = SeedEntry(name: string, color: string, description: string)

  const StorageSeed := SeedEntry("Storage", "#3B82F6", "Main storage areas")
  const FurnitureSeed := SeedEntry("Furniture", "#10B981", "Furniture storage")

  /** The children: two below Storage, then four below Furniture. */
  const ChildSeeds := [
    SeedEntry("Storage Boxes", "#F97316", "Items in storage boxes"),
    SeedEntry("Wall Shelves", "#14B8A6", "Items on wall-mounted shelves"),
    SeedEntry("Desk Drawers", "#10B981", "Items in desk drawers"),
    SeedEntry("Wardrobe", "#F59E0B", "Clothes and items in wardrobe"),
    SeedEntry("Bedside Cabinet", "#8B5CF6", "Items in bedside drawers"),
    SeedEntry("Under-bed Storage", "#EC4899", "Items stored under the bed")
  ]

  const StorageChildCount := 2

  /** The form for seeded entry `e` below `parent`. */
  function SeedForm(e: SeedEntry, parent: ParentRef, isFolder: Option<bool>): CategoryForm {
    CategoryForm(e.name, Some(e.description), e.color, parent, isFolder)
  }

  /** The parent of the k-th child seed. */
  function ChildParent(ids: seq<string>, k: nat): string
    requires |ids| == 8
  {
    if k < StorageChildCount then ids[0] else ids[1]
  }

  /** The k-th seeded child: level 1 below its root folder. */
  function SeededChild(ids: seq<string>, now: int, childFolder: Option<bool>, k: nat): Category
    requires |ids| == 8 && k < 6
  {
    Category(ids[k + 2], ChildSeeds[k].name, Some(ChildSeeds[k].description), ChildSeeds[k].color,
             Ref(ChildParent(ids, k)), childFolder, Some(TreePos([ChildParent(ids, k)], 1)), now, now)
  }

  /** A seeded root folder; its `parentId` stays absent, as the legacy
      create copies the form. */
  function SeededRoot(id: string, e: SeedEntry, now: int): Category {
    Category(id, e.name, Some(e.description), e.color, Undefined, Some(true), Some(TreePos([], 0)), now, now)
  }

  /** The eight records seeding stores when every id is fresh: two root
      folders, then six children at level 1 below them. */
  function Seeded(ids: seq<string>, now: int, childFolder: Option<bool>): (r: seq<Category>)
    requires |ids| == 8
    ensures |r| == 8
    ensures r[0] == SeededRoot(ids[0], StorageSeed, now) && r[1] == SeededRoot(ids[1], FurnitureSeed, now)
    ensures forall k | 2 <= k < 8 :: r[k] == SeededChild(ids, now, childFolder, k - 2)
    ensures forall k | 0 <= k < 8 :: r[k].id == ids[k]
  {
    [ SeededRoot(ids[0], StorageSeed, now), SeededRoot(ids[1], FurnitureSeed, now),
      SeededChild(ids, now, childFolder, 0), SeededChild(ids, now, childFolder, 1),
      SeededChild(ids, now, childFolder, 2), SeededChild(ids, now, childFolder, 3),
      SeededChild(ids, now, childFolder, 4), SeededChild(ids, now, childFolder, 5) ]
  }

  /** Ids a seeding run can use: non-empty, distinct and not yet stored. */
  predicate FreshIds(m: map<string, Category>, ids: seq<string>) {
    && (forall i | 0 <= i < |ids| :: ids[i] != "" && ids[i] !in m)
    && (forall i, j | 0 <= i < j < |ids| :: ids[i] != ids[j])
  }

  /** The form of the k-th child seed below the root folders `storage`
      and `furniture`. */
  function ChildForm(k: nat, storage: string, furniture: string, childFolder: Option<bool>): CategoryForm
    requires k < 6
  {
    SeedForm(ChildSeeds[k], Ref(if k < StorageChildCount then storage else furniture), childFolder)
  }

  /** The progress of a seeding run: the first failure, the categories
      created so far and the categories store. */
  datatype SeedRun = SeedRun(error: Option<Error>, made: seq<Category>, cats: map<string, Category>)

  /** The run after the first k child creates: each is attempted, a failure
      is remembered (the first one wins) and does not stop the others. */
  function ChildRun(start: SeedRun, ids: seq<string>, now: int, childFolder: Option<bool>,
                    storage: string, furniture: string, k: nat): SeedRun
    requires |ids| == 8 && k <= 6
  {
    if k == 0 then start
    else
      var prev := ChildRun(start, ids, now, childFolder, storage, furniture, k - 1);
      var res := CreateResult(prev.cats, ChildForm(k - 1, storage, furniture, childFolder), ids[k + 1], now);
      if res.Err? then prev.(error := if prev.error.None? then Some(res.error) else prev.error)
      else prev.(made := prev.made + [res.value], cats := prev.cats[ids[k + 1] := res.value])
  }

  /** The child creates only add records, a remembered failure stays the
      first one, and a run without failure made one record per create. */
  lemma {:induction false} ChildRunKeeps(start: SeedRun, ids: seq<string>, now: int, childFolder: Option<bool>,
                                         storage: string, furniture: string, k: nat)
    requires |ids| == 8 && k <= 6
    ensures var r := ChildRun(start, ids, now, childFolder, storage, furniture, k);
            && (forall x | x in start.cats :: x in r.cats && r.cats[x] == start.cats[x])
            && (start.error.Some? ==> r.error == start.error)
            && (r.error.None? ==> |r.made| == |start.made| + k)
  {
    if k > 0 {
      ChildRunKeeps(start, ids, now, childFolder, storage, furniture, k - 1);
    }
  }

  /** The outcome of seeding a categories store holding `m`. */
  datatype SeedOutcome = SeedOutcome(result: Result<seq<Category>>, cats: map<string, Category>)

  /** Seeding: two sequential root creates (a failure stops the run), then
      the six child creates. */
  function Seed(m: map<string, Category>, ids: seq<string>, now: int, childFolder: Option<bool>): (r: SeedOutcome)
    requires |ids| == 8
    ensures forall x | x in m :: x in r.cats && r.cats[x] == m[x]
    ensures r.result.Ok? ==> |r.result.value| == 8
  {
    var s := CreateResult(m, SeedForm(StorageSeed, Undefined, Some(true)), ids[0], now);
    if s.Err? then SeedOutcome(Err(s.error), m)
    else
      var m1 := m[ids[0] := s.value];
      var f := CreateResult(m1, SeedForm(FurnitureSeed, Undefined, Some(true)), ids[1], now);
      if f.Err? then SeedOutcome(Err(f.error), m1)
      else
        var start := SeedRun(None, [s.value, f.value], m1[ids[1] := f.value]);
        var run := ChildRun(start, ids, now, childFolder, s.value.id, f.value.id, 6);
        ChildRunKeeps(start, ids, now, childFolder, s.value.id, f.value.id, 6);
        SeedOutcome(if run.error.None? then Ok(run.made) else Err(run.error.value), run.cats)
  }

  /** Seeding as the code runs it, through the legacy create. Only the
      categories store changes. */
  method SeedCategories(db: Database, ids: seq<string>, now: int, childFolder: Option<bool>) returns (r: Result<seq<Category>>)
    requires db.Valid() && |ids| == 8
    modifies db
    ensures db.Valid()
    ensures r == Seed(old(db.categories), ids, now, childFolder).result
    ensures db.State() == old(db.State()).(categories := Seed(old(db.categories), ids, now, childFolder).cats)
  {
    var storage := Create(db, SeedForm(StorageSeed, Undefined, Some(true)), ids[0], now);
    if storage.Err? {
      return Err(storage.error);
    }
    var furniture := Create(db, SeedForm(FurnitureSeed, Undefined, Some(true)), ids[1], now);
    if furniture.Err? {
      return Err(furniture.error);
    }
    var firstError, made := CreateChildren(db, ids, now, childFolder, storage.value.id, furniture.value.id,
                                           [storage.value, furniture.value]);
    r := if firstError.None? then Ok(made) else Err(firstError.value);
  }

  /** The six child creates of seeding, in order; a failure is remembered
      (the first one wins) and the remaining creates still run. */
  method CreateChildren(db: Database, ids: seq<string>, now: int, childFolder: Option<bool>,
                        storage: string, furniture: string, made0: seq<Category>)
    returns (firstError: Option<Error>, made: seq<Category>)
    requires db.Valid() && |ids| == 8
    modifies db
    ensures db.Valid()
    ensures db.items == old(db.items) && db.migrations == old(db.migrations) && db.settings == old(db.settings)
    ensures SeedRun(firstError, made, db.categories)
            == ChildRun(SeedRun(None, made0, old(db.categories)), ids, now, childFolder, storage, furniture, 6)
  {
    ghost var start := SeedRun(None, made0, db.categories);
    firstError, made := None, made0;
    var k := 0;
    while k < 6
      invariant 0 <= k <= 6
      invariant db.Valid()
      invariant db.items == old(db.items) && db.migrations == old(db.migrations) && db.settings == old(db.settings)
      invariant SeedRun(firstError, made, db.categories) == ChildRun(start, ids, now, childFolder, storage, furniture, k)
    {
      var child := Create(db, ChildForm(k, storage, furniture, childFolder), ids[k + 2], now);
      if child.Err? {
        if firstError.None? {
          firstError := Some(child.error);
        }
      } else {
        made := made + [child.value];
      }
      k := k + 1;
    }
  }

  /** On fresh, distinct ids seeding succeeds and adds exactly the eight
      records of `Seeded`. */
  lemma SeedFresh(m0: map<string, Category>, ids: seq<string>, now: int, childFolder: Option<bool>)
    requires |ids| == 8 && FreshIds(m0, ids)
    ensures Seed(m0, ids, now, childFolder)
            == SeedOutcome(Ok(Seeded(ids, now, childFolder)), m0 + MapOf(Seeded(ids, now, childFolder), CategoryKey))
  {
    var expected := Seeded(ids, now, childFolder);
    RootsStep(m0, ids, now, childFolder);
    var start := SeedRun(None, expected[..2], m0 + MapOf(expected[..2], CategoryKey));
    assert expected[..2] == [expected[0], expected[1]];
    ChildRunFresh(m0, start, ids, now, childFolder, 6);
    assert expected[..8] == expected;
  }

  lemma {:induction false} ChildRunFresh(m0: map<string, Category>, start: SeedRun, ids: seq<string>, now: int,
                                         childFolder: Option<bool>, k: nat)
    requires |ids| == 8 && k <= 6 && FreshIds(m0, ids)
    requires start == SeedRun(None, Seeded(ids, now, childFolder)[..2],
                              m0 + MapOf(Seeded(ids, now, childFolder)[..2], CategoryKey))
    ensures ChildRun(start, ids, now, childFolder, ids[0], ids[1], k)
            == SeedRun(None, Seeded(ids, now, childFolder)[..k + 2],
                       m0 + MapOf(Seeded(ids, now, childFolder)[..k + 2], CategoryKey))
  {
    if k > 0 {
      var expected := Seeded(ids, now, childFolder);
      ChildRunFresh(m0, start, ids, now, childFolder, k - 1);
      var prev := ChildRun(start, ids, now, childFolder, ids[0], ids[1], k - 1);
      ChildStep(m0, prev.cats, ids, now, childFolder, k - 1);
      assert ChildForm(k - 1, ids[0], ids[1], childFolder)
             == SeedForm(ChildSeeds[k - 1], Ref(ChildParent(ids, k - 1)), childFolder);
      TakeSnoc(expected, k + 1);
    }
  }

  /** The two root creates succeed on fresh ids and store the two roots
      of `Seeded`. */
  lemma RootsStep(m0: map<string, Category>, ids: seq<string>, now: int, childFolder: Option<bool>)
    requires |ids| == 8 && FreshIds(m0, ids)
    ensures ids[0] !in m0
    ensures LegacyCategory(m0, SeedForm(StorageSeed, Undefined, Some(true)), ids[0], now)
            == Ok(Seeded(ids, now, childFolder)[0])
    ensures ids[1] !in m0[ids[0] := Seeded(ids, now, childFolder)[0]]
    ensures LegacyCategory(m0[ids[0] := Seeded(ids, now, childFolder)[0]], SeedForm(FurnitureSeed, Undefined, Some(true)), ids[1], now)
            == Ok(Seeded(ids, now, childFolder)[1])
    ensures m0[ids[0] := Seeded(ids, now, childFolder)[0]][ids[1] := Seeded(ids, now, childFolder)[1]]
            == m0 + MapOf(Seeded(ids, now, childFolder)[..2], CategoryKey)
  {
    var expected := Seeded(ids, now, childFolder);
    assert expected[..2][..1] == [expected[0]];
    MapOfKeys(expected[..2][..1], CategoryKey);
    MapOfKeys(expected[..2], CategoryKey);
    assert MapOf(expected[..2], CategoryKey) == map[ids[0] := expected[0]][ids[1] := expected[1]];
  }

  /** The k-th child create, given the records seeded so far, succeeds and
      stores the k-th child of `Seeded` below its already stored parent. */
  lemma ChildStep(m0: map<string, Category>, cur: map<string, Category>, ids: seq<string>, now: int,
                  childFolder: Option<bool>, k: nat)
    requires |ids| == 8 && k < 6 && FreshIds(m0, ids)
    requires cur == m0 + MapOf(Seeded(ids, now, childFolder)[..k + 2], CategoryKey)
    ensures ids[k + 2] !in cur
    ensures LegacyCategory(cur, SeedForm(ChildSeeds[k], Ref(ChildParent(ids, k)), childFolder), ids[k + 2], now)
            == Ok(Seeded(ids, now, childFolder)[k + 2])
    ensures m0 + MapOf(Seeded(ids, now, childFolder)[..k + 3], CategoryKey)
            == cur[ids[k + 2] := Seeded(ids, now, childFolder)[k + 2]]
  {
    var expected := Seeded(ids, now, childFolder);
    var done := expected[..k + 2];
    var p := ChildParent(ids, k);
    var pi := if k < StorageChildCount then 0 else 1;
    assert ids[k + 2] !in cur by {
      MapOfKeys(done, CategoryKey);
      assert ids[k + 2] !in m0;
      forall i | 0 <= i < |done| ensures done[i].id != ids[k + 2] {
        assert done[i].id == ids[i];
      }
    }
    assert LegacyPlacement(cur, Ref(p)) == Ok(TreePos([p], 1)) by {
      SeededPrefixLookup(ids, now, childFolder, k + 2, pi);
      assert p in cur && cur[p] == expected[pi];
      assert CategoryOperations.ResolvesParent(cur, Ref(p));
      assert [] + [p] == [p];
    }
    SeededSnoc(m0, ids, now, childFolder, k);
  }

  lemma SeededSnoc(m0: map<string, Category>, ids: seq<string>, now: int, childFolder: Option<bool>, k: nat)
    requires |ids| == 8 && k < 6
    ensures m0 + MapOf(Seeded(ids, now, childFolder)[..k + 3], CategoryKey)
            == (m0 + MapOf(Seeded(ids, now, childFolder)[..k + 2], CategoryKey))[ids[k + 2] := Seeded(ids, now, childFolder)[k + 2]]
  {
    var expected := Seeded(ids, now, childFolder);
    var done := expected[..k + 2];
    assert expected[..k + 3] == done + [expected[k + 2]];
    MapOfSnoc(done, expected[k + 2], CategoryKey);
    UnionUpdate(m0, MapOf(done, CategoryKey), ids[k + 2], expected[k + 2]);
  }

  /** With distinct ids, a prefix of `Seeded` files each record under its id. */
  lemma SeededPrefixLookup(ids: seq<string>, now: int, childFolder: Option<bool>, n: nat, i: nat)
    requires |ids| == 8 && i < n <= 8
    requires forall a, b | 0 <= a < b < |ids| :: ids[a] != ids[b]
    ensures ids[i] in MapOf(Seeded(ids, now, childFolder)[..n], CategoryKey)
    ensures MapOf(Seeded(ids, now, childFolder)[..n], CategoryKey)[ids[i]] == Seeded(ids, now, childFolder)[i]
  {
    var done := Seeded(ids, now, childFolder)[..n];
    assert DistinctKeys(done, CategoryKey) by {
      forall a, b | 0 <= a < b < |done| ensures done[a].id != done[b].id {
        assert done[a].id == ids[a] && done[b].id == ids[b];
      }
    }
    assert done[i].id == ids[i];
  }

  /** `initialize`: seeds (children without `isFolder`) only when the
      by-name listing is empty, i.e. the categories store is. */
  method Initialize(db: Database, all: seq<Category>, ids: seq<string>, now: int) returns (r: Result<seq<Category>>)
    requires db.Valid() && ListsCategories(all, db.categories) && |ids| == 8
    modifies db
    ensures db.Valid()
    ensures all != [] ==> r == Ok([]) && db.State() == old(db.State())
    ensures all == [] ==> old(db.categories) == map[]
    ensures all == [] ==>
              && r == Seed(map[], ids, now, None).result
              && db.State() == old(db.State()).(categories := Seed(map[], ids, now, None).cats)
  {
    if all != [] {
      return Ok([]);
    }
    assert db.categories == map[];
    r := SeedCategories(db, ids, now, None);
  }

  /** Seeding an empty store with distinct non-empty ids yields the eight
      categories: two root folders, two children below Storage and four
      below Furniture, each child one level below its parent. */
  lemma SeedEmptyStore(ids: seq<string>, now: int, childFolder: Option<bool>)
    requires |ids| == 8 && forall i | 0 <= i < 8 :: ids[i] != ""
    requires forall i, j | 0 <= i < j < 8 :: ids[i] != ids[j]
    ensures var out := Seed(map[], ids, now, childFolder);
      && out.result == Ok(Seeded(ids, now, childFolder))
      && |out.cats| == 8
      && CategoryOperations.PathLevelConsistent(out.cats)
      && CategoryOperations.PathsMatchParents(out.cats)
      && CategoryOperations.NoSelfAncestor(out.cats)
  {
    var seeded := Seeded(ids, now, childFolder);
    var cats := MapOf(seeded, CategoryKey);
    var out := Seed(map[], ids, now, childFolder);
    SeedFresh(map[], ids, now, childFolder);
    assert map[] + cats == cats;
    SeededOutcome(out, ids, now, childFolder);
  }

  lemma SeededOutcome(out: SeedOutcome, ids: seq<string>, now: int, childFolder: Option<bool>)
    requires |ids| == 8 && forall i | 0 <= i < 8 :: ids[i] != ""
    requires forall i, j | 0 <= i < j < 8 :: ids[i] != ids[j]
    requires out == SeedOutcome(Ok(Seeded(ids, now, childFolder)), MapOf(Seeded(ids, now, childFolder), CategoryKey))
    ensures |out.cats| == 8
    ensures CategoryOperations.PathLevelConsistent(out.cats)
    ensures CategoryOperations.PathsMatchParents(out.cats)
    ensures CategoryOperations.NoSelfAncestor(out.cats)
  {
    SeededCount(ids, now, childFolder);
    SeededTree(ids, now, childFolder);
  }

  /** With distinct ids, seeding files eight records. */
  lemma SeededCount(ids: seq<string>, now: int, childFolder: Option<bool>)
    requires |ids| == 8 && forall i, j | 0 <= i < j < 8 :: ids[i] != ids[j]
    ensures |MapOf(Seeded(ids, now, childFolder), CategoryKey)| == 8
  {
    var cats := MapOf(Seeded(ids, now, childFolder), CategoryKey);
    SeededMap(ids, now, childFolder);
    assert cats.Keys == set i | 0 <= i < 8 :: ids[i];
    SizeOfIds(ids);
  }

  lemma SeededTree(ids: seq<string>, now: int, childFolder: Option<bool>)
    requires |ids| == 8 && forall i | 0 <= i < 8 :: ids[i] != ""
    requires forall i, j | 0 <= i < j < 8 :: ids[i] != ids[j]
    ensures var cats := MapOf(Seeded(ids, now, childFolder), CategoryKey);
      && CategoryOperations.PathLevelConsistent(cats)
      && CategoryOperations.PathsMatchParents(cats)
      && CategoryOperations.NoSelfAncestor(cats)
  {
    var expected := Seeded(ids, now, childFolder);
    var cats := MapOf(expected, CategoryKey);
    SeededMap(ids, now, childFolder);
    forall k | k in cats
      ensures |CategoryOperations.PathOf(cats[k])| == CategoryOperations.LevelOf(cats[k])
      ensures k !in CategoryOperations.PathOf(cats[k])
      ensures CategoryOperations.ResolvesParent(cats, cats[k].parentId) ==>
                CategoryOperations.PathOf(cats[k]) == CategoryOperations.PathOf(cats[cats[k].parentId.id]) + [cats[k].parentId.id]
    {
      var i :| 0 <= i < 8 && ids[i] == k;
      SeededAt(ids, now, childFolder, i);
      if i >= 2 {
        var pi := if i - 2 < StorageChildCount then 0 else 1;
        SeededAt(ids, now, childFolder, pi);
      }
    }
  }

  /** The i-th seeded record: a root folder at level 0 for i < 2, else one
      level below the root its `parentId` names. */
  lemma SeededAt(ids: seq<string>, now: int, childFolder: Option<bool>, i: nat)
    requires |ids| == 8 && i < 8
    requires forall a, b | 0 <= a < b < 8 :: ids[a] != ids[b]
    ensures var c := Seeded(ids, now, childFolder)[i];
      && c.id == ids[i]
      && (i < 2 ==> c.parentId == Undefined && CategoryOperations.PathOf(c) == [] && CategoryOperations.LevelOf(c) == 0)
      && (i >= 2 ==>
            var pi := if i - 2 < StorageChildCount then 0 else 1;
            c.parentId == Ref(ids[pi]) && CategoryOperations.PathOf(c) == [ids[pi]]
            && CategoryOperations.LevelOf(c) == 1 && ids[pi] != ids[i])
  {
  }

  /** With distinct ids, the seeded records are filed under their ids. */
  lemma SeededMap(ids: seq<string>, now: int, childFolder: Option<bool>)
    requires |ids| == 8 && forall i, j | 0 <= i < j < 8 :: ids[i] != ids[j]
    ensures forall i | 0 <= i < 8 ::
              ids[i] in MapOf(Seeded(ids, now, childFolder), CategoryKey)
              && MapOf(Seeded(ids, now, childFolder), CategoryKey)[ids[i]] == Seeded(ids, now, childFolder)[i]
    ensures forall k | k in MapOf(Seeded(ids, now, childFolder), CategoryKey) :: exists i | 0 <= i < 8 :: ids[i] == k
  {
    var expected := Seeded(ids, now, childFolder);
    assert DistinctKeys(expected, CategoryKey) by {
      forall a, b | 0 <= a < b < 8 ensures expected[a].id != expected[b].id {
        assert expected[a].id == ids[a] && expected[b].id == ids[b];
      }
    }
    MapOfKeys(expected, CategoryKey);
    forall k | k in MapOf(expected, CategoryKey) ensures exists i | 0 <= i < 8 :: ids[i] == k {
      var i :| 0 <= i < 8 && expected[i].id == k;
      assert ids[i] == k;
    }
  }

  lemma SizeOfIds(ids: seq<string>)
    requires |ids| == 8 && forall i, j | 0 <= i < j < 8 :: ids[i] != ids[j]
    ensures |set i | 0 <= i < 8 :: ids[i]| == 8
  {
    var s := set i | 0 <= i < 8 :: ids[i];
    assert s == {ids[0], ids[1], ids[2], ids[3], ids[4], ids[5], ids[6], ids[7]};
  }

  // ---------------------------------------------------------------------
  // exportData / importData

  /** The document the legacy export produces and the legacy import reads. */
  datatype Snapshot = Snapshot(categories: seq<Category>, items: seq<Item>)

  /** `exportData`: the category and item listings (`getAll` of each), as
      stored and in listing order. */
  function ExportData(categories: seq<Category>, items: seq<Item>): (r: Snapshot)
    ensures r.categories == categories && r.items == items
  {
    Snapshot(categories, items)
  }

  /** `importData` as intended: every category and every item `add`ed in
      one transaction over both stores; an `add` on a key that is already
      stored (or repeated in the document) aborts the whole transaction. */
  function Import(s: DbState, data: Snapshot): (r: Result<DbState>)
    ensures r.Err? ==> r.error == ConstraintError
    ensures r.Ok? <==> AddAll(s.categories, data.categories, CategoryKey).Some?
                       && AddAll(s.items, data.items, ItemKey).Some?
    ensures r.Ok? ==> r.value.migrations == s.migrations && r.value.settings == s.settings
  {
    var cats := AddAll(s.categories, data.categories, CategoryKey);
    var items := AddAll(s.items, data.items, ItemKey);
    if cats.Some? && items.Some? then Ok(s.(categories := cats.value, items := items.value))
    else Err(ConstraintError)
  }

  /** `importData` as written: the category adds go through `tx.store`,
      which a transaction over two stores does not have, so the first
      category throws a TypeError before any request is made. */
  function ImportAsWritten(s: DbState, data: Snapshot): (r: Result<DbState>)
    ensures data.categories != [] ==> r == Err(TypeError)
    ensures data.categories == [] ==> r == Import(s, data)
  {
    if data.categories != [] then Err(TypeError) else Import(s, data)
  }

  /** The intended import never overwrites: it only adds records under
      new keys, and keeps well-keyed stores well keyed. */
  lemma ImportOnlyAdds(s: DbState, data: Snapshot)
    requires WellKeyed(s) && Import(s, data).Ok?
    ensures WellKeyed(Import(s, data).value)
    ensures forall k | k in s.categories :: Import(s, data).value.categories[k] == s.categories[k]
    ensures forall k | k in s.items :: Import(s, data).value.items[k] == s.items[k]
    ensures forall i | 0 <= i < |data.categories| :: data.categories[i].id !in s.categories
  {
    AddAllSucceeds(s.categories, data.categories, CategoryKey);
    AddAllKeeps(s.categories, data.categories, CategoryKey);
    AddAllKeeps(s.items, data.items, ItemKey);
    AddAllKeyed(s.categories, data.categories, CategoryKey);
    AddAllKeyed(s.items, data.items, ItemKey);
  }

  /** Exporting a store and importing the document into an empty one
      rebuilds its categories and items. */
  lemma ExportImportRoundTrip(s: DbState, categories: seq<Category>, items: seq<Item>)
    requires ListsCategories(categories, s.categories) && ListsItems(items, s.items)
    ensures Import(EmptyState, ExportData(categories, items))
            == Ok(EmptyState.(categories := s.categories, items := s.items))
  {
    ListingRebuilds(categories, s.categories, CategoryKey);
    ListingRebuilds(items, s.items, ItemKey);
  }

  /** As written, that round trip fails for any store holding a category. */
  lemma ExportImportAsWrittenFails(s: DbState, categories: seq<Category>, items: seq<Item>)
    requires ListsCategories(categories, s.categories) && ListsItems(items, s.items)
    requires s.categories != map[]
    ensures ImportAsWritten(EmptyState, ExportData(categories, items)) == Err(TypeError)
    ensures Import(EmptyState, ExportData(categories, items)).Ok?
  {
    var k :| k in s.categories;
    ExportImportRoundTrip(s, categories, items);
  }

  /** `importData`, intended behaviour: both stores are staged and written
      only when every add succeeds. */
  method ImportData(db: Database, data: Snapshot) returns (r: Result<()>)
    requires db.Valid()
    modifies db
    ensures db.Valid()
    ensures Import(old(db.State()), data).Err? ==> r == Err(ConstraintError) && db.State() == old(db.State())
    ensures Import(old(db.State()), data).Ok? ==> r == Ok(()) && db.State() == Import(old(db.State()), data).value
  {
    var cats := StageAdds(db.categories, data.categories, CategoryKey);
    var items := StageAdds(db.items, data.items, ItemKey);
    if cats.None? || items.None? {
      return Err(ConstraintError);
    }
    ImportOnlyAdds(db.State(), data);
    db.categories, db.items := cats.value, items.value;
    r := Ok(());
  }

  /** `importData` as written (see `ImportAsWritten`). */
  method ImportDataAsWritten(db: Database, data: Snapshot) returns (r: Result<()>)
    requires db.Valid()
    modifies db
    ensures db.Valid()
    ensures ImportAsWritten(old(db.State()), data).Err? ==>
              r == Err(ImportAsWritten(old(db.State()), data).error) && db.State() == old(db.State())
    ensures ImportAsWritten(old(db.State()), data).Ok? ==>
              r == Ok(()) && db.State() == ImportAsWritten(old(db.State()), data).value
  {
    if data.categories != [] {
      return Err(TypeError);
    }
    r := ImportData(db, data);
  }
}
