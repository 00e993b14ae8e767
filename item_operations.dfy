/** The item repository (src/utils/db/itemOperations.ts; the item half of
    src/utils/db/operations.ts is the same code). Subtree queries go through
    the legacy category reader, which this file imports. */
module ItemOperations {
  import opened Inventory
  import opened Js
  import opened Store
  import CategoryOperations
  import Operations
  import Recency

  // ---------------------------------------------------------------------
  // create / update / delete

  /** The record `create` stores: the form, the id and two equal stamps. */
  function NewItem(data: ItemForm, id: string, now: int): (r: Item)
    ensures r.id == id && r.createdAt == now && r.updatedAt == now
    ensures FormOf(r) == data
  {
    Item(id, data.name, data.categoryId, data.quantity, data.price, data.purchaseDate,
         data.description, data.notes, data.image, now, now)
  }

  /** `create`: adds the new record; an `add` on a taken key fails. */
  method Create(db: Database, data: ItemForm, id: string, now: int) returns (r: Result<Item>)
    requires db.Valid()
    modifies db
    ensures db.Valid()
    ensures id in old(db.items) ==> r == Err(ConstraintError) && db.State() == old(db.State())
    ensures id !in old(db.items) ==>
              && r == Ok(NewItem(data, id, now))
              && db.State() == old(db.State()).(items := old(db.items)[id := r.value])
  {
    if id in db.items {
      return Err(ConstraintError);
    }
    var created := NewItem(data, id, now);
    db.items := db.items[id := created];
    r := Ok(created);
  }

  /** The record `update` writes: the supplied fields over the stored ones
      and a new `updatedAt`. */
  function MergeItem(i: Item, data: ItemPatch, now: int): (r: Item)
    ensures r.id == i.id && r.createdAt == i.createdAt && r.updatedAt == now
    ensures r.name == data.name.GetOr(i.name) && r.categoryId == data.categoryId.GetOr(i.categoryId)
    ensures r.quantity == data.quantity.GetOr(i.quantity) && r.price == data.price.GetOr(i.price)
    ensures r.purchaseDate == data.purchaseDate.GetOr(i.purchaseDate)
    ensures r.description == (if data.description.Some? then data.description else i.description)
    ensures r.notes == (if data.notes.Some? then data.notes else i.notes)
    ensures r.image == (if data.image.Some? then data.image else i.image)
  {
    i.(name := data.name.GetOr(i.name),
       categoryId := data.categoryId.GetOr(i.categoryId),
       quantity := data.quantity.GetOr(i.quantity),
       price := data.price.GetOr(i.price),
       purchaseDate := data.purchaseDate.GetOr(i.purchaseDate),
       description := if data.description.Some? then data.description else i.description,
       notes := if data.notes.Some? then data.notes else i.notes,
       image := if data.image.Some? then data.image else i.image,
       updatedAt := now)
  }

  /** An empty patch only refreshes `updatedAt`, and merging is the same
      whether or not the record was patched before with the same data. */
  lemma MergeItemProperties(i: Item, data: ItemPatch, now: int, later: int)
    ensures MergeItem(i, ItemPatch(None, None, None, None, None, None, None, None), now) == i.(updatedAt := now)
    ensures MergeItem(MergeItem(i, data, now), data, later) == MergeItem(i, data, later)
  {
  }

  /** `update`: "Item not found" for a missing id, with nothing written. */
  method Update(db: Database, id: string, data: ItemPatch, now: int) returns (r: Result<Item>)
    requires db.Valid()
    modifies db
    ensures db.Valid()
    ensures id !in old(db.items) ==> r == Err(NotFound("Item")) && db.State() == old(db.State())
    ensures id in old(db.items) ==>
              && r == Ok(MergeItem(old(db.items)[id], data, now))
              && db.State() == old(db.State()).(items := old(db.items)[id := r.value])
  {
    if id !in db.items {
      return Err(NotFound("Item"));
    }
    var updated := MergeItem(db.items[id], data, now);
    db.items := db.items[id := updated];
    r := Ok(updated);
  }

  /** `delete`: removes exactly that record. */
  method Delete(db: Database, id: string)
    requires db.Valid()
    modifies db
    ensures db.Valid()
    ensures db.State() == old(db.State()).(items := old(db.items) - {id})
  {
    db.items := db.items - {id};
  }

  /** `getById`: the stored record, or nothing. */
  function GetById(m: map<string, Item>, id: string): (r: Option<Item>)
    ensures r.Some? <==> id in m
    ensures r.Some? ==> r.value == m[id]
  {
    if id in m then Some(m[id]) else None
  }

  /** Create then getById returns the created record; delete then getById
      returns nothing. */
  lemma CreateThenGet(m: map<string, Item>, data: ItemForm, id: string, now: int)
    ensures GetById(m[id := NewItem(data, id, now)], id) == Some(NewItem(data, id, now))
    ensures GetById(m - {id}, id) == None
  {
  }

  // ---------------------------------------------------------------------
  // Queries

  /** The by-category index read for one category id, over a listing of
      the items store in that index's order. */
  function InCategory(all: seq<Item>, categoryId: string): (r: seq<Item>)
    ensures forall x :: x in r <==> x in all && x.categoryId == categoryId
  {
    Filter(all, (x: Item) => x.categoryId == categoryId)
  }

  /** In-memory pagination: only when `page` and `limit` are both truthy
      (non-zero; an absent option reads as 0), the window
      `slice((page - 1) * limit, (page - 1) * limit + limit)`. */
  function Paginate<T(!new)>(s: seq<T>, page: int, limit: int): (r: seq<T>)
    ensures page == 0 || limit == 0 ==> r == s
    ensures forall x | x in r :: x in s
  {
    if page != 0 && limit != 0 then
      var start := (page - 1) * limit;
      Slice(s, start, start + limit)
    else s
  }

  /** A window of `limit` records from a non-negative offset. */
  lemma WindowAt<T(!new)>(s: seq<T>, start: int, limit: int)
    requires start >= 0 && limit >= 1
    ensures start >= |s| ==> Slice(s, start, start + limit) == []
    ensures start < |s| ==> Slice(s, start, start + limit) == s[start..if start + limit < |s| then start + limit else |s|]
  {
  }

  /** Page `page` starts `limit` records after page `page - 1`. */
  lemma PageStart(page: int, limit: int)
    requires page >= 1 && limit >= 1
    ensures (page - 1) * limit >= 0
    ensures (page + 1 - 1) * limit == (page - 1) * limit + limit
  {
    assert (page + 1 - 1) * limit == page * limit;
    assert page * limit == (page - 1) * limit + limit;
  }

  /** For a positive page and limit the window is the limit-long run after
      the first `(page - 1) * limit` records: never longer than `limit`,
      empty past the end. */
  lemma PageWindow<T(!new)>(s: seq<T>, page: int, limit: int)
    requires page >= 1 && limit >= 1
    ensures var start := (page - 1) * limit;
      && 0 <= start
      && |Paginate(s, page, limit)| <= limit
      && (start >= |s| ==> Paginate(s, page, limit) == [])
      && (start < |s| ==> Paginate(s, page, limit) == s[start..if start + limit < |s| then start + limit else |s|])
  {
    var start := (page - 1) * limit;
    PageStart(page, limit);
    assert Paginate(s, page, limit) == Slice(s, start, start + limit);
    WindowAt(s, start, limit);
  }

  /** Consecutive pages tile the list: page p followed by page p + 1 is the
      window of twice the limit. */
  lemma PagesTile<T(!new)>(s: seq<T>, page: int, limit: int)
    requires page >= 1 && limit >= 1
    ensures var start := (page - 1) * limit;
      var lo := if start < |s| then start else |s|;
      var hi := if start + 2 * limit < |s| then start + 2 * limit else |s|;
      0 <= start && Paginate(s, page, limit) + Paginate(s, page + 1, limit) == s[lo..hi]
  {
    var start := (page - 1) * limit;
    PageStart(page, limit);
    assert Paginate(s, page, limit) == Slice(s, start, start + limit);
    assert Paginate(s, page + 1, limit) == Slice(s, start + limit, start + limit + limit);
    WindowAt(s, start, limit);
    WindowAt(s, start + limit, limit);
    var lo := if start < |s| then start else |s|;
    var mid := if start + limit < |s| then start + limit else |s|;
    var hi := if start + 2 * limit < |s| then start + 2 * limit else |s|;
    assert s[lo..hi] == s[lo..mid] + s[mid..hi];
  }

  /** The items of the given categories, category by category. */
  function Gather(all: seq<Item>, ids: seq<string>): (r: seq<Item>)
    ensures forall x :: x in r <==> x in all && x.categoryId in ids
  {
    if ids == [] then []
    else
      var rest := Gather(all, ids[1..]);
      assert forall c :: c in ids <==> c == ids[0] || c in ids[1..];
      InCategory(all, ids[0]) + rest
  }

  /** The category ids `getByCategory` reads when subcategories are
      included: the category itself, then its descendants in listing order. */
  function SubtreeIds(descendants: seq<Category>, categoryId: string): (r: seq<string>)
    ensures |r| == |descendants| + 1 && r[0] == categoryId
    ensures forall i | 0 <= i < |descendants| :: r[i + 1] == descendants[i].id
  {
    [categoryId] + seq(|descendants|, i requires 0 <= i < |descendants| => descendants[i].id)
  }

  /** `getByCategory(categoryId, {page, limit, includeSubcategories})`:
      the category's items, or with `includeSubcategories` those of the
      category and then of each descendant (a loop appending per category),
      then paginated. The descendants come from the legacy reader, so a
      category without `path` makes it fail. */
  method GetByCategory(cats: seq<Category>, all: seq<Item>, categoryId: string,
                       page: int, limit: int, includeSubcategories: bool) returns (r: Result<seq<Item>>)
    ensures !includeSubcategories ==> r == Ok(Paginate(InCategory(all, categoryId), page, limit))
    ensures includeSubcategories ==> (r.Err? <==> Operations.SomePathMissing(cats))
    ensures includeSubcategories && r.Ok? ==>
              r == Ok(Paginate(Gather(all, SubtreeIds(Operations.GetDescendants(cats, categoryId).value, categoryId)), page, limit))
  {
    var items: seq<Item> := [];
    if includeSubcategories {
      var descendants := Operations.GetDescendants(cats, categoryId);
      if descendants.Err? {
        return Err(descendants.error);
      }
      var ids := SubtreeIds(descendants.value, categoryId);
      var k := 0;
      while k < |ids|
        invariant 0 <= k <= |ids|
        invariant items + Gather(all, ids[k..]) == Gather(all, ids)
      {
        GatherSplit(all, ids, k);
        items := items + InCategory(all, ids[k]);
        k := k + 1;
      }
      assert Gather(all, ids[k..]) == [];
      assert items == Gather(all, ids);
    } else {
      items := InCategory(all, categoryId);
    }
    r := Ok(Paginate(items, page, limit));
  }

  lemma GatherSplit(all: seq<Item>, ids: seq<string>, k: nat)
    requires k < |ids|
    ensures Gather(all, ids[k..]) == InCategory(all, ids[k]) + Gather(all, ids[k + 1..])
  {
    assert ids[k..][1..] == ids[k + 1..];
  }

  /** A category id lies in the subtree of `categoryId`: it is that id, or
      some category with that id has `categoryId` on its path. */
  predicate InSubtree(cats: seq<Category>, categoryId: string, id: string) {
    id == categoryId || exists c | c in cats :: c.id == id && categoryId in CategoryOperations.PathOf(c)
  }

  /** An id is read iff it is the category's own or a descendant's. */
  lemma SubtreeIdsMembers(desc: seq<Category>, categoryId: string, id: string)
    ensures id in SubtreeIds(desc, categoryId) <==> id == categoryId || exists d | d in desc :: d.id == id
  {
    var ids := SubtreeIds(desc, categoryId);
    if id in ids && id != categoryId {
      var i :| 0 <= i < |ids| && ids[i] == id;
      assert desc[i - 1] in desc;
    }
    if id != categoryId && exists d | d in desc :: d.id == id {
      var d :| d in desc && d.id == id;
      var i :| 0 <= i < |desc| && desc[i] == d;
      assert ids[i + 1] == id;
    }
  }

  /** The ids `getByCategory` reads are exactly the subtree's ids. */
  lemma SubtreeIdsExact(cats: seq<Category>, categoryId: string)
    requires !Operations.SomePathMissing(cats)
    ensures forall id :: id in SubtreeIds(Operations.GetDescendants(cats, categoryId).value, categoryId)
                         <==> InSubtree(cats, categoryId, id)
  {
    var desc := Operations.GetDescendants(cats, categoryId).value;
    forall id
      ensures id in SubtreeIds(desc, categoryId) <==> InSubtree(cats, categoryId, id)
    {
      SubtreeIdsMembers(desc, categoryId, id);
    }
  }

  /** With subcategories and no pagination, every returned item lies in the
      category or in one of its descendants, every such item is returned,
      and the category's own items come first. */
  lemma SubtreeItems(cats: seq<Category>, all: seq<Item>, categoryId: string)
    requires !Operations.SomePathMissing(cats)
    ensures var ids := SubtreeIds(Operations.GetDescendants(cats, categoryId).value, categoryId);
      var r := Gather(all, ids);
      && (forall x :: x in r <==> x in all && InSubtree(cats, categoryId, x.categoryId))
      && r[..|InCategory(all, categoryId)|] == InCategory(all, categoryId)
  {
    var ids := SubtreeIds(Operations.GetDescendants(cats, categoryId).value, categoryId);
    SubtreeIdsExact(cats, categoryId);
    GatherSplit(all, ids, 0);
    assert ids[0..] == ids;
  }

  /** Matching of `search`: name or description contains the lower-cased
      query. */
  predicate ItemMatches(x: Item, needle: string) {
    Includes(Lower(x.name), needle)
    || (x.description.Some? && Includes(Lower(x.description.value), needle))
  }

  /** `getAll({page, limit})`: the by-name listing, paginated. */
  function GetAll(all: seq<Item>, page: int, limit: int): (r: seq<Item>)
    ensures page == 0 || limit == 0 ==> r == all
    ensures page >= 1 && limit >= 1 ==> |r| <= limit
    ensures forall x | x in r :: x in all
  {
    if page >= 1 && limit >= 1 then
      PageWindow(all, page, limit);
      Paginate(all, page, limit)
    else Paginate(all, page, limit)
  }

  /** `search(query)`: across every item, by name or description. */
  function Search(all: seq<Item>, query: string): (r: seq<Item>)
    ensures forall x :: x in r <==> x in all && ItemMatches(x, Lower(query))
  {
    var needle := Lower(query);
    Filter(all, (x: Item) => ItemMatches(x, needle))
  }

  lemma SearchIgnoresCase(all: seq<Item>, query: string)
    ensures Search(all, Lower(query)) == Search(all, query)
  {
    LowerIdempotent(query);
  }

  /** Matching of `searchInCategory`, which also looks at `notes`. */
  predicate ItemMatchesWithNotes(x: Item, needle: string) {
    ItemMatches(x, needle) || (x.notes.Some? && Includes(Lower(x.notes.value), needle))
  }

  /** `searchInCategory(categoryId, query, {page, limit})`: only the items
      directly in the category, by name, description or notes, paginated. */
  function SearchInCategory(all: seq<Item>, categoryId: string, query: string, page: int, limit: int): (r: seq<Item>)
    ensures forall x | x in r :: x in all && x.categoryId == categoryId && ItemMatchesWithNotes(x, Lower(query))
    ensures page == 0 || limit == 0 ==>
              forall x :: x in r <==> x in all && x.categoryId == categoryId && ItemMatchesWithNotes(x, Lower(query))
  {
    var needle := Lower(query);
    Paginate(Filter(InCategory(all, categoryId), (x: Item) => ItemMatchesWithNotes(x, needle)), page, limit)
  }

  /** Every item `search` finds in a category, `searchInCategory` finds too
      (without pagination). */
  lemma SearchInCategoryCoversSearch(all: seq<Item>, categoryId: string, query: string)
    ensures forall x | x in Search(all, query) && x.categoryId == categoryId ::
              x in SearchInCategory(all, categoryId, query, 0, 0)
  {
  }

  function Stamp(x: Item): Recency.Stamp {
    Recency.Stamp(x.updatedAt, x.id)
  }

  /** `getRecent(limit = 5)` read through a `by-updated` index: the `limit`
      most recently updated items, newest first, ties by ascending id. */
  function GetRecent(all: seq<Item>, limit: Option<int>): (r: seq<Item>)
    ensures var n := Recency.LimitOrDefault(limit); n >= 0 ==> |r| == if n < |all| then n else |all|
    ensures limit.None? ==> |r| == if 5 < |all| then 5 else |all|
    ensures multiset(r) <= multiset(all)
    ensures Recency.SortedBy(r, Stamp)
    ensures forall x, y | x in r && y in all && y !in r :: Recency.NotAfter(Stamp(x), Stamp(y))
  {
    Recency.Recent(all, Stamp, Recency.LimitOrDefault(limit))
  }

  /** `getRecent` as written: `getAllFromIndex` on the `by-updated` index,
      which the items store does not have, throws a NotFoundError before
      anything is read, whatever the store holds. */
  function GetRecentAsWritten(all: seq<Item>, limit: Option<int>): (r: Result<seq<Item>>)
    ensures r == Err(MissingIndex("by-updated"))
  {
    if IndexExists("items", "by-updated") then Ok(GetRecent(all, limit)) else Err(MissingIndex("by-updated"))
  }
}
