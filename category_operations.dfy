/** The category repository (src/utils/db/categoryOperations.ts): a tree
    held by `parentId` plus a materialised ancestor path and level that
    `create` computes once. */
module CategoryOperations {
  import opened Inventory
  import opened Js
  import opened Store
  import Recency

  // ---------------------------------------------------------------------
  // Reading with defaults (getById / getAll)

  /** The path a reader sees: a missing one reads as `[]`. */
  function PathOf(c: Category): seq<string> {
    if c.pos.Some? then c.pos.value.path else []
  }

  /** The level a reader sees: a missing one reads as `0`. */
  function LevelOf(c: Category): int {
    if c.pos.Some? then c.pos.value.level else 0
  }

  /** `getById`/`getAll` fill in a missing `isFolder`, `path` and `level`
      with `false`, `[]` and `0` and leave every other field alone. */
  function Normalize(c: Category): (r: Category)
    ensures r.isFolder.Some? && r.pos.Some?
    ensures c.isFolder.Some? ==> r.isFolder == c.isFolder
    ensures c.isFolder.None? ==> r.isFolder == Some(false)
    ensures c.pos.Some? ==> r.pos == c.pos
    ensures c.pos.None? ==> r.pos == Some(TreePos([], 0))
    ensures r.id == c.id && r.name == c.name && r.description == c.description
            && r.color == c.color && r.parentId == c.parentId
            && r.createdAt == c.createdAt && r.updatedAt == c.updatedAt
  {
    c.(isFolder := Some(c.isFolder.GetOr(false)), pos := Some(TreePos(PathOf(c), LevelOf(c))))
  }

  lemma NormalizeIdempotent(c: Category)
    ensures Normalize(Normalize(c)) == Normalize(c)
    ensures PathOf(Normalize(c)) == PathOf(c) && LevelOf(Normalize(c)) == LevelOf(c)
  {
  }

  /** `getById`: the stored record with defaults, or nothing. */
  function GetById(m: map<string, Category>, id: string): (r: Option<Category>)
    ensures r.Some? <==> id in m
    ensures r.Some? ==> r.value == Normalize(m[id])
  {
    if id in m then Some(Normalize(m[id])) else None
  }

  /** `getAll`: the by-name listing with defaults filled in. */
  function GetAll(all: seq<Category>): (r: seq<Category>)
    ensures |r| == |all|
    ensures forall i | 0 <= i < |all| :: r[i] == Normalize(all[i])
  {
    seq(|all|, i requires 0 <= i < |all| => Normalize(all[i]))
  }

  // ---------------------------------------------------------------------
  // Tree invariants over the categories store

  /** Every category's path is as long as its level. */
  predicate PathLevelConsistent(m: map<string, Category>) {
    forall k | k in m :: |PathOf(m[k])| == LevelOf(m[k])
  }

  /** No category lists itself among its ancestors. */
  predicate NoSelfAncestor(m: map<string, Category>) {
    forall k | k in m :: k !in PathOf(m[k])
  }

  /** `parentId` is a non-empty string (truthy) naming a stored category. */
  predicate ResolvesParent(m: map<string, Category>, p: ParentRef) {
    p.Ref? && p.id != "" && p.id in m
  }

  /** Every category whose parent is stored sits directly below it. */
  predicate PathsMatchParents(m: map<string, Category>) {
    forall k | k in m && ResolvesParent(m, m[k].parentId) ::
      PathOf(m[k]) == PathOf(m[m[k].parentId.id]) + [m[k].parentId.id]
  }

  /** A fresh id (what `uuidv4` provides): not a key, not on any path and
      not the target of any `parentId`. */
  predicate FreshId(m: map<string, Category>, id: string) {
    id !in m && forall k | k in m :: id !in PathOf(m[k]) && m[k].parentId != Ref(id)
  }

  // ---------------------------------------------------------------------
  // create

  /** Where `create` places a category: directly below its parent when
      `parentId` resolves, at the root otherwise (no error is raised). */
  function Placement(m: map<string, Category>, parentId: ParentRef): (p: TreePos)
    ensures ResolvesParent(m, parentId) ==>
              p == TreePos(PathOf(m[parentId.id]) + [m[parentId.id].id], LevelOf(m[parentId.id]) + 1)
    ensures !ResolvesParent(m, parentId) ==> p == TreePos([], 0)
  {
    if ResolvesParent(m, parentId) then
      var parent := Normalize(m[parentId.id]);
      TreePos(parent.pos.value.path + [parent.id], parent.pos.value.level + 1)
    else TreePos([], 0)
  }

  /** The record `create` stores. */
  function NewCategory(m: map<string, Category>, data: CategoryForm, id: string, now: int): (c: Category)
    ensures c.id == id && c.createdAt == now && c.updatedAt == now
    ensures !c.parentId.Undefined? && (!data.parentId.Undefined? ==> c.parentId == data.parentId)
    ensures c.isFolder.Some? && (c.isFolder.value <==> data.isFolder == Some(true))
    ensures Normalize(c) == c
  {
    Category(
      id, data.name, data.description, data.color,
      if data.parentId.Undefined? then Null else data.parentId,
      Some(data.isFolder.GetOr(false)),
      Some(Placement(m, data.parentId)),
      now, now)
  }

  /** `create`: copies name, color and description, defaults `parentId` to
      null and `isFolder` to false, derives path and level from the parent
      and adds the record under a fresh id; an `add` on a taken key fails. */
  method Create(db: Database, data: CategoryForm, id: string, now: int) returns (r: Result<Category>)
    requires db.Valid()
    modifies db
    ensures db.Valid()
    ensures id in old(db.categories) ==> r == Err(ConstraintError) && db.State() == old(db.State())
    ensures id !in old(db.categories) ==>
              && r == Ok(NewCategory(old(db.categories), data, id, now))
              && db.State() == old(db.State()).(categories := old(db.categories)[id := r.value])
  {
    var created := NewCategory(db.categories, data, id, now);
    if id in db.categories {
      return Err(ConstraintError);
    }
    db.categories := db.categories[id := created];
    r := Ok(created);
  }

  /** A created category has the documented fields, and when its parent
      resolves it sits one level below it on the parent's path extended by
      the parent's id; otherwise it is a root that keeps the dangling
      `parentId`. */
  lemma CreatePlacement(m: map<string, Category>, data: CategoryForm, id: string, now: int)
    requires WellKeyed(DbState(m, map[], map[], map[]))
    ensures var c := NewCategory(m, data, id, now);
      && c.id == id && c.name == data.name && c.color == data.color
      && c.description == data.description && c.createdAt == now && c.updatedAt == now
      && c.parentId == (if data.parentId.Undefined? then Null else data.parentId)
      && c.isFolder == Some(data.isFolder.GetOr(false))
      && (ResolvesParent(m, data.parentId) ==>
            && PathOf(c) == PathOf(m[data.parentId.id]) + [data.parentId.id]
            && LevelOf(c) == LevelOf(m[data.parentId.id]) + 1)
      && (!ResolvesParent(m, data.parentId) ==> PathOf(c) == [] && LevelOf(c) == 0)
  {
    if ResolvesParent(m, data.parentId) {
      assert m[data.parentId.id].id == data.parentId.id;
    }
  }

  /** A dangling parent is tolerated: the new category is stored at level 0
      with an empty path but keeps the `parentId` it was given. */
  lemma CreateUnderMissingParent(m: map<string, Category>, name: string, color: string, p: string, id: string, now: int)
    requires p != "" && p !in m
    ensures var c := NewCategory(m, CategoryForm(name, None, color, Ref(p), None), id, now);
      c.parentId == Ref(p) && c.pos == Some(TreePos([], 0))
  {
  }

  /** create keeps every path as long as its level. */
  lemma CreatePreservesPathLevel(m: map<string, Category>, data: CategoryForm, id: string, now: int)
    requires PathLevelConsistent(m)
    ensures PathLevelConsistent(m[id := NewCategory(m, data, id, now)])
  {
    var m' := m[id := NewCategory(m, data, id, now)];
    forall k | k in m'
      ensures |PathOf(m'[k])| == LevelOf(m'[k])
    {
      if k != id {
        assert m'[k] == m[k];
      } else if ResolvesParent(m, data.parentId) {
        assert |PathOf(m[data.parentId.id])| == LevelOf(m[data.parentId.id]);
      }
    }
  }

  /** With a fresh id, create keeps categories out of their own paths and
      every path consistent with the parent it names. */
  lemma CreatePreservesTree(m: map<string, Category>, data: CategoryForm, id: string, now: int)
    requires WellKeyed(DbState(m, map[], map[], map[]))
    requires FreshId(m, id) && data.parentId != Ref(id) && NoSelfAncestor(m) && PathsMatchParents(m)
    ensures NoSelfAncestor(m[id := NewCategory(m, data, id, now)])
    ensures PathsMatchParents(m[id := NewCategory(m, data, id, now)])
  {
    var c := NewCategory(m, data, id, now);
    var m' := m[id := c];
    CreatePlacement(m, data, id, now);
    forall k | k in m'
      ensures k !in PathOf(m'[k])
    {
      if k == id && ResolvesParent(m, data.parentId) {
        assert id !in PathOf(m[data.parentId.id]);
      }
    }
    forall k | k in m' && ResolvesParent(m', m'[k].parentId)
      ensures PathOf(m'[k]) == PathOf(m'[m'[k].parentId.id]) + [m'[k].parentId.id]
    {
      if k != id {
        assert m'[k] == m[k];
        assert m[k].parentId != Ref(id);
        assert ResolvesParent(m, m[k].parentId);
      } else {
        assert ResolvesParent(m, data.parentId);
      }
    }
  }

  // ---------------------------------------------------------------------
  // update

  /** The record `update` writes: the patch laid over the stored record,
      a new `updatedAt`, and the stored path and level kept. */
  function Merge(c: Category, data: CategoryPatch, now: int): (r: Category)
    ensures r.id == c.id && r.createdAt == c.createdAt && r.updatedAt == now
    ensures r.pos == c.pos
    ensures r.name == data.name.GetOr(c.name) && r.color == data.color.GetOr(c.color)
    ensures data.isFolder.None? ==> r.isFolder == c.isFolder
    ensures data.isFolder.Some? ==> r.isFolder == data.isFolder
    ensures r.parentId == data.parentId.GetOr(c.parentId)
    ensures data.description.None? ==> r.description == c.description
    ensures data.description.Some? ==> r.description == data.description
  {
    c.(name := data.name.GetOr(c.name),
       description := if data.description.Some? then data.description else c.description,
       color := data.color.GetOr(c.color),
       parentId := data.parentId.GetOr(c.parentId),
       isFolder := if data.isFolder.Some? then data.isFolder else c.isFolder,
       updatedAt := now)
  }

  /** `update`: "Category not found" for a missing id, with nothing
      written; otherwise the merged record replaces the stored one. */
  method Update(db: Database, id: string, data: CategoryPatch, now: int) returns (r: Result<Category>)
    requires db.Valid()
    modifies db
    ensures db.Valid()
    ensures id !in old(db.categories) ==> r == Err(NotFound("Category")) && db.State() == old(db.State())
    ensures id in old(db.categories) ==>
              && r == Ok(Merge(old(db.categories)[id], data, now))
              && db.State() == old(db.State()).(categories := old(db.categories)[id := r.value])
  {
    if id !in db.categories {
      return Err(NotFound("Category"));
    }
    var updated := Merge(db.categories[id], data, now);
    db.categories := db.categories[id := updated];
    r := Ok(updated);
  }

  /** update never moves a node: the store keeps every path/level fact. */
  lemma UpdatePreservesTreeFacts(m: map<string, Category>, id: string, data: CategoryPatch, now: int)
    requires id in m && PathLevelConsistent(m) && NoSelfAncestor(m)
    ensures PathLevelConsistent(m[id := Merge(m[id], data, now)])
    ensures NoSelfAncestor(m[id := Merge(m[id], data, now)])
  {
    var m' := m[id := Merge(m[id], data, now)];
    forall k | k in m'
      ensures |PathOf(m'[k])| == LevelOf(m'[k]) && k !in PathOf(m'[k])
    {
      assert PathOf(m'[k]) == PathOf(m[k]) && LevelOf(m'[k]) == LevelOf(m[k]);
    }
  }

  /** Re-parenting through update leaves the materialised path stale:
      a root given a stored parent keeps its empty path. */
  lemma UpdateLeavesPathStale(p: Category, c: Category, now: int)
    requires p.id != c.id && p.id != "" && c.pos == Some(TreePos([], 0))
    requires p.parentId == Null && c.parentId == Null
    ensures var m := map[p.id := p, c.id := c];
      var m' := m[c.id := Merge(c, CategoryPatch(None, None, None, Some(Ref(p.id)), None), now)];
      && PathsMatchParents(m)
      && !PathsMatchParents(m')
  {
    var m := map[p.id := p, c.id := c];
    var moved := Merge(c, CategoryPatch(None, None, None, Some(Ref(p.id)), None), now);
    var m' := m[c.id := moved];
    assert m'[c.id] == moved && ResolvesParent(m', moved.parentId);
    assert |PathOf(m'[c.id])| == 0;
  }

  // ---------------------------------------------------------------------
  // delete

  /** `delete`: removes exactly that record; child categories and items
      are left as they are (no cascade). */
  method Delete(db: Database, id: string)
    requires db.Valid()
    modifies db
    ensures db.Valid()
    ensures db.State() == old(db.State()).(categories := old(db.categories) - {id})
  {
    db.categories := db.categories - {id};
  }

  /** Deleting a category orphans its subtree without touching it: the
      children still carry its id in `parentId` and `path`. */
  lemma DeleteOrphansChildren(m: map<string, Category>, id: string, k: string)
    requires k in m && k != id && id in PathOf(m[k])
    ensures k in m - {id} && (m - {id})[k] == m[k] && id in PathOf((m - {id})[k])
  {
  }

  /** Deleting keeps the tree invariants: missing parents are tolerated. */
  lemma DeletePreservesTree(m: map<string, Category>, id: string)
    requires PathLevelConsistent(m) && NoSelfAncestor(m) && PathsMatchParents(m)
    ensures PathLevelConsistent(m - {id}) && NoSelfAncestor(m - {id}) && PathsMatchParents(m - {id})
  {
    var m' := m - {id};
    forall k | k in m' && ResolvesParent(m', m'[k].parentId)
      ensures PathOf(m'[k]) == PathOf(m'[m'[k].parentId.id]) + [m'[k].parentId.id]
    {
      assert ResolvesParent(m, m[k].parentId);
    }
  }

  // ---------------------------------------------------------------------
  // Queries over the by-name listing

  /** Case-insensitive match of the lower-cased query against the name or
      the description. */
  predicate TextMatches(c: Category, needle: string) {
    Includes(Lower(c.name), needle)
    || (c.description.Some? && Includes(Lower(c.description.value), needle))
  }

  /** The optional parent filter of `search`. */
  predicate InScope(c: Category, scope: Option<string>) {
    scope.None? || c.parentId == Ref(scope.value)
  }

  /** `search(query, parentId?)`. */
  function Search(all: seq<Category>, query: string, scope: Option<string>): (r: seq<Category>)
    ensures forall c :: c in r <==> c in GetAll(all) && InScope(c, scope) && TextMatches(c, Lower(query))
  {
    var needle := Lower(query);
    Filter(GetAll(all), (c: Category) => InScope(c, scope) && TextMatches(c, needle))
  }

  /** The case of the query does not matter. */
  lemma SearchIgnoresCase(all: seq<Category>, query: string, scope: Option<string>)
    ensures Search(all, Lower(query), scope) == Search(all, query, scope)
  {
    LowerIdempotent(query);
  }

  /** `search("box")` over "Storage Boxes" and "Wardrobe" finds only the first. */
  lemma SearchBoxScenario(boxes: Category, wardrobe: Category)
    requires boxes.name == "Storage Boxes" && boxes.description == None
    requires wardrobe.name == "Wardrobe" && wardrobe.description == None
    ensures Search([boxes, wardrobe], "box", None) == [Normalize(boxes)]
  {
    var all := [boxes, wardrobe];
    assert Lower("box") == "box";
    assert Lower("Storage Boxes") == "storage boxes";
    assert Lower("Wardrobe") == "wardrobe";
    assert OccursAt("storage boxes", "box", 8);
    assert !Includes("wardrobe", "box") by {
      forall i | 0 <= i <= 5
        ensures !OccursAt("wardrobe", "box", i)
      {
        assert "wardrobe"[i..i + 3][0] == "wardrobe"[i];
        assert "wardrobe"[i..i + 3][1] == "wardrobe"[i + 1];
      }
    }
    var listed := [Normalize(boxes), Normalize(wardrobe)];
    assert GetAll(all) == listed;
    var p := (c: Category) => InScope(c, None) && TextMatches(c, Lower("box"));
    assert p(listed[0]) && !p(listed[1]);
    assert listed[1..] == [Normalize(wardrobe)] && listed[1..][1..] == [];
    assert Filter(listed, p) == [Normalize(boxes)];
  }

  /** The parent a `getChildren` argument (`string | null`) stands for. */
  function ParentArg(parent: Option<string>): ParentRef {
    if parent.None? then Null else Ref(parent.value)
  }

  /** `getChildren(parentId)`: exactly the categories whose `parentId` is
      strictly equal to the argument; `null` does not match `undefined`. */
  function GetChildren(all: seq<Category>, parent: Option<string>): (r: seq<Category>)
    ensures forall c :: c in r <==> c in GetAll(all) && c.parentId == ParentArg(parent)
  {
    Filter(GetAll(all), (c: Category) => c.parentId == ParentArg(parent))
  }

  /** The ids a `getById` finds. */
  function Stored(m: map<string, Category>): string -> bool {
    (a: string) => a in m
  }

  /** The ancestor records of a path, in path order, skipping ids that do
      not resolve: one record per stored id, in the order the ids come. */
  function ResolvePath(m: map<string, Category>, ids: seq<string>): (r: seq<Category>)
    ensures |r| == |Filter(ids, Stored(m))|
    ensures forall j | 0 <= j < |r| :: r[j] == Normalize(m[Filter(ids, Stored(m))[j]])
  {
    if ids == [] then []
    else
      var rest := ResolvePath(m, ids[1..]);
      ResolveStep(m, ids, rest);
      if ids[0] in m then [Normalize(m[ids[0]])] + rest else rest
  }

  /** One step of `ResolvePath`: resolving the first id in front of the
      resolved tail resolves the stored ids of the whole path. */
  lemma ResolveStep(m: map<string, Category>, ids: seq<string>, rest: seq<Category>)
    requires ids != []
    requires |rest| == |Filter(ids[1..], Stored(m))|
    requires forall j | 0 <= j < |rest| :: rest[j] == Normalize(m[Filter(ids[1..], Stored(m))[j]])
    ensures var r := if ids[0] in m then [Normalize(m[ids[0]])] + rest else rest;
            && |r| == |Filter(ids, Stored(m))|
            && forall j | 0 <= j < |r| :: r[j] == Normalize(m[Filter(ids, Stored(m))[j]])
  {
    var storedRest := Filter(ids[1..], Stored(m));
    assert Filter(ids, Stored(m)) == if ids[0] in m then [ids[0]] + storedRest else storedRest;
    if ids[0] in m {
      ResolveCons(m, ids[0], storedRest, rest);
    }
  }

  /** Resolving a stored id in front of ids resolved one by one. */
  lemma ResolveCons(m: map<string, Category>, a: string, stored: seq<string>, rest: seq<Category>)
    requires a in m && |rest| == |stored|
    requires forall j | 0 <= j < |rest| :: stored[j] in m && rest[j] == Normalize(m[stored[j]])
    ensures forall j | 0 <= j < |rest| + 1 :: ([a] + stored)[j] in m
    ensures forall j | 0 <= j < |rest| + 1 :: ([Normalize(m[a])] + rest)[j] == Normalize(m[([a] + stored)[j]])
  {
    forall j | 0 < j < |rest| + 1
      ensures ([a] + stored)[j] == stored[j - 1] && ([Normalize(m[a])] + rest)[j] == rest[j - 1]
    {
    }
  }

  /** A path whose every id is stored resolves whole: one record per id,
      in path order. */
  lemma ResolveAllStored(m: map<string, Category>, ids: seq<string>)
    requires forall i | 0 <= i < |ids| :: ids[i] in m
    ensures |ResolvePath(m, ids)| == |ids|
    ensures forall i | 0 <= i < |ids| :: ResolvePath(m, ids)[i] == Normalize(m[ids[i]])
  {
    FilterAll(ids, Stored(m));
  }

  /** `getPath(id)`: nothing for an unknown id, otherwise the resolvable
      ancestors root-first. */
  function GetPath(m: map<string, Category>, id: string): (r: seq<Category>)
    ensures id !in m ==> r == []
    ensures id in m ==> |r| == |Filter(PathOf(m[id]), Stored(m))|
    ensures id in m ==> forall j | 0 <= j < |r| :: r[j] == Normalize(m[Filter(PathOf(m[id]), Stored(m))[j]])
  {
    if id !in m then [] else ResolvePath(m, PathOf(m[id]))
  }

  /** The records other than the one filed under `x`. */
  function NotId(x: string): Category -> bool {
    (c: Category) => c.id != x
  }

  /** After `delete(x)` the breadcrumb of any other category is the one it
      had before, without x's record: the other ancestors keep their order. */
  lemma GetPathAfterDelete(m: map<string, Category>, x: string, id: string)
    requires forall k | k in m :: m[k].id == k
    requires id != x
    ensures GetPath(m - {x}, id) == Filter(GetPath(m, id), NotId(x))
  {
    if id in m {
      ResolveWithout(m, x, PathOf(m[id]));
    } else {
      FilterNone(GetPath(m, id), NotId(x));
    }
  }

  lemma {:induction false} ResolveWithout(m: map<string, Category>, x: string, ids: seq<string>)
    requires forall k | k in m :: m[k].id == k
    ensures ResolvePath(m - {x}, ids) == Filter(ResolvePath(m, ids), NotId(x))
  {
    if ids != [] {
      ResolveWithout(m, x, ids[1..]);
      if ids[0] in m {
        var c := Normalize(m[ids[0]]);
        assert c.id == ids[0];
        assert ResolvePath(m, ids) == [c] + ResolvePath(m, ids[1..]);
        assert Filter([c] + ResolvePath(m, ids[1..]), NotId(x))
               == if c.id != x then [c] + Filter(ResolvePath(m, ids[1..]), NotId(x))
                  else Filter(ResolvePath(m, ids[1..]), NotId(x)) by {
          assert ([c] + ResolvePath(m, ids[1..]))[1..] == ResolvePath(m, ids[1..]);
        }
      }
    }
  }

  /** When every ancestor is still stored, the breadcrumb is the full path:
      one record per ancestor id, in order, as many as the level. */
  lemma GetPathComplete(m: map<string, Category>, id: string)
    requires id in m && PathLevelConsistent(m) && WellKeyed(DbState(m, map[], map[], map[]))
    requires forall a | a in PathOf(m[id]) :: a in m
    ensures |GetPath(m, id)| == LevelOf(m[id])
    ensures forall i | 0 <= i < |GetPath(m, id)| :: GetPath(m, id)[i].id == PathOf(m[id])[i]
  {
    var ids := PathOf(m[id]);
    assert forall i | 0 <= i < |ids| :: ids[i] in m by {
      forall i | 0 <= i < |ids| ensures ids[i] in m { assert ids[i] in ids; }
    }
    ResolveAllStored(m, ids);
  }

  /** `getDescendants(id)`: every category whose path contains the id. */
  function GetDescendants(all: seq<Category>, id: string): (r: seq<Category>)
    ensures forall c :: c in r <==> c in GetAll(all) && id in PathOf(c)
  {
    Filter(GetAll(all), (c: Category) => id in PathOf(c))
  }

  /** Given the store's invariant, no category is its own descendant. */
  lemma NotOwnDescendant(all: seq<Category>, m: map<string, Category>, id: string)
    requires ListsCategories(all, m) && NoSelfAncestor(m) && WellKeyed(DbState(m, map[], map[], map[]))
    ensures forall c | c in GetDescendants(all, id) :: c.id != id
  {
    forall c | c in GetDescendants(all, id)
      ensures c.id != id
    {
      var i :| 0 <= i < |GetAll(all)| && GetAll(all)[i] == c;
      assert CategoryKey(all[i]) in m && m[CategoryKey(all[i])] == all[i];
      NormalizeIdempotent(all[i]);
    }
  }

  /** The direct children of a stored category are among its descendants
      when paths match parents. */
  lemma ChildrenAreDescendants(all: seq<Category>, m: map<string, Category>, id: string)
    requires ListsCategories(all, m) && PathsMatchParents(m) && id in m && id != ""
    ensures forall c | c in GetChildren(all, Some(id)) :: c in GetDescendants(all, id)
  {
    forall c | c in GetChildren(all, Some(id))
      ensures id in PathOf(c)
    {
      var i :| 0 <= i < |GetAll(all)| && GetAll(all)[i] == c;
      assert CategoryKey(all[i]) in m && m[CategoryKey(all[i])] == all[i];
      assert ResolvesParent(m, m[all[i].id].parentId);
      assert PathOf(c) == PathOf(all[i]);
    }
  }

  /** `getRecent(limit = 5)` read through a `by-updated` index: the `limit`
      most recently updated categories, newest first, ties by ascending id. */
  function GetRecent(all: seq<Category>, limit: Option<int>): (r: seq<Category>)
    ensures var n := Recency.LimitOrDefault(limit); n >= 0 ==> |r| == if n < |all| then n else |all|
    ensures limit.None? ==> |r| == if 5 < |all| then 5 else |all|
    ensures multiset(r) <= multiset(all)
    ensures Recency.SortedBy(r, Stamp)
    ensures forall x, y | x in r && y in all && y !in r :: Recency.NotAfter(Stamp(x), Stamp(y))
  {
    Recency.Recent(all, Stamp, Recency.LimitOrDefault(limit))
  }

  /** `getRecent` as written: `getAllFromIndex` on the `by-updated` index,
      which the categories store does not have, throws a NotFoundError before
      anything is read, whatever the store holds. */
  function GetRecentAsWritten(all: seq<Category>, limit: Option<int>): (r: Result<seq<Category>>)
    ensures r == Err(MissingIndex("by-updated"))
  {
    if IndexExists("categories", "by-updated") then Ok(GetRecent(all, limit)) else Err(MissingIndex("by-updated"))
  }

  function Stamp(c: Category): Recency.Stamp {
    Recency.Stamp(c.updatedAt, c.id)
  }
}
