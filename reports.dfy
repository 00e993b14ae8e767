/** The computations of the reports view (src/hooks/useReports.ts): the
    per-category badges, the categories on screen, and the totals of the
    selected subtree. The React state around them is not modelled: each
    computation takes the loaded categories and items as arguments. */
module Reports {
  import opened Inventory
  import opened Js
  import CategoryOperations

  // ---------------------------------------------------------------------
  // Badges

  /** The items filed directly under category `id`. */
  function DirectItems(items: seq<Item>, id: string): (r: seq<Item>)
    ensures forall x :: x in r <==> x in items && x.categoryId == id
  {
    Filter(items, (x: Item) => x.categoryId == id)
  }

  /** The categories whose `parentId` is strictly equal to `id`. */
  function Subcategories(cats: seq<Category>, id: string): (r: seq<Category>)
    ensures forall c :: c in r <==> c in cats && c.parentId == Ref(id)
  {
    Filter(cats, (c: Category) => c.parentId == Ref(id))
  }

  /** The `forEach` of `loadInitialData`: for every loaded category, the
      number of items directly in it and the number of its direct
      subcategories. Items in deeper subcategories are not counted. */
  method Counts(cats: seq<Category>, items: seq<Item>)
    returns (counts: map<string, int>, subCounts: map<string, int>)
    ensures forall id :: id in counts <==> exists i | 0 <= i < |cats| :: cats[i].id == id
    ensures subCounts.Keys == counts.Keys
    ensures forall id | id in counts :: counts[id] == |DirectItems(items, id)|
    ensures forall id | id in subCounts :: subCounts[id] == |Subcategories(cats, id)|
  {
    counts, subCounts := map[], map[];
    var i := 0;
    while i < |cats|
      invariant 0 <= i <= |cats|
      invariant forall id :: id in counts <==> exists j | 0 <= j < i :: cats[j].id == id
      invariant subCounts.Keys == counts.Keys
      invariant forall id | id in counts :: counts[id] == |DirectItems(items, id)|
      invariant forall id | id in subCounts :: subCounts[id] == |Subcategories(cats, id)|
    {
      var id := cats[i].id;
      counts := counts[id := |Filter(items, (x: Item) => x.categoryId == id)|];
      subCounts := subCounts[id := |Filter(cats, (c: Category) => c.parentId == Ref(id))|];
      i := i + 1;
    }
  }

  // ---------------------------------------------------------------------
  // The categories on screen

  /** `!cat.parentId`: no parent, a `null` parent or the empty id. */
  predicate NoParent(c: Category) {
    c.parentId.Undefined? || c.parentId.Null? || c.parentId == Ref("")
  }

  /** `getCurrentCategories`: a search that is not blank after trimming
      filters every loaded category by its lower-cased (untrimmed) text,
      whatever is selected; otherwise the root categories, or the direct
      subcategories of the selection. */
  function CurrentCategories(cats: seq<Category>, search: string, selected: Option<Category>): (r: seq<Category>)
    ensures !IsBlank(search) ==>
              forall c :: c in r <==> c in cats && CategoryOperations.TextMatches(c, Lower(search))
    ensures IsBlank(search) && selected.None? ==> forall c :: c in r <==> c in cats && NoParent(c)
    ensures IsBlank(search) && selected.Some? ==>
              forall c :: c in r <==> c in cats && c.parentId == Ref(selected.value.id)
  {
    if !IsBlank(search) then
      Filter(cats, (c: Category) => CategoryOperations.TextMatches(c, Lower(search)))
    else if selected.None? then Filter(cats, NoParent)
    else Subcategories(cats, selected.value.id)
  }

  // ---------------------------------------------------------------------
  // Sums

  /** `reduce((sum, item) => sum + f(item), 0)`, folding from the left. */
  function Total(items: seq<Item>, f: Item -> int): (r: int)
    ensures (forall i | 0 <= i < |items| :: f(items[i]) >= 0) ==> r >= 0
    decreases |items|
  {
    if items == [] then 0 else Total(items[..|items| - 1], f) + f(items[|items| - 1])
  }

  function Quantity(x: Item): int { x.quantity }
  function Value(x: Item): int { x.price * x.quantity }

  lemma {:induction false} TotalAppend(a: seq<Item>, b: seq<Item>, f: Item -> int)
    ensures Total(a + b, f) == Total(a, f) + Total(b, f)
    decreases |b|
  {
    if b == [] {
      assert a + b == a;
    } else {
      assert (a + b)[..|a + b| - 1] == a + b[..|b| - 1];
      TotalAppend(a, b[..|b| - 1], f);
    }
  }

  /** Summing two filters that no element passes both is summing the
      filter of either. */
  lemma {:induction false} TotalDisjointFilters(s: seq<Item>, f: Item -> int, p: Item -> bool, q: Item -> bool)
    requires forall x | x in s :: !(p(x) && q(x))
    ensures Total(Filter(s, p), f) + Total(Filter(s, q), f)
            == Total(Filter(s, (x: Item) => p(x) || q(x)), f)
  {
    var pq := (x: Item) => p(x) || q(x);
    if s != [] {
      assert forall x | x in s[1..] :: x in s;
      TotalDisjointFilters(s[1..], f, p, q);
      var fp, fq, fpq := Filter(s[1..], p), Filter(s[1..], q), Filter(s[1..], pq);
      if p(s[0]) {
        TotalAppend([s[0]], fp, f);
        TotalAppend([s[0]], fpq, f);
      } else if q(s[0]) {
        TotalAppend([s[0]], fq, f);
        TotalAppend([s[0]], fpq, f);
      }
    }
  }

  // ---------------------------------------------------------------------
  // Descendants

  /** `getSubcategoryIds(parent)`: for each direct subcategory in listing
      order, its id followed by its own descendants. JavaScript recurses
      without bound, so a parent cycle overflows the call stack; here the
      recursion carries a depth budget and `None` stands for the overflow. */
  function SubcategoryIds(cats: seq<Category>, parent: string, fuel: nat): (r: Option<seq<string>>)
    ensures r.Some? ==> |Subcategories(cats, parent)| <= |r.value|
    decreases fuel, 1
  {
    ChildIds(cats, Subcategories(cats, parent), fuel)
  }

  /** The `reduce` over the subcategories `kids`. */
  function ChildIds(cats: seq<Category>, kids: seq<Category>, fuel: nat): (r: Option<seq<string>>)
    ensures r.Some? ==> |kids| <= |r.value|
    ensures kids != [] && fuel == 0 ==> r.None?
    decreases fuel, 0, |kids|
  {
    if kids == [] then Some([])
    else if fuel == 0 then None
    else
      var init := ChildIds(cats, kids[..|kids| - 1], fuel);
      var last := kids[|kids| - 1];
      var below := SubcategoryIds(cats, last.id, fuel - 1);
      if init.None? || below.None? then None else Some(init.value + [last.id] + below.value)
  }

  /** What the `reduce` collects: each kid's id and each kid's descendants. */
  lemma {:induction false} ChildIdsMembers(cats: seq<Category>, kids: seq<Category>, fuel: nat)
    requires ChildIds(cats, kids, fuel).Some?
    ensures kids != [] ==> fuel > 0
    ensures forall k | k in kids :: fuel > 0 && SubcategoryIds(cats, k.id, fuel - 1).Some?
    ensures forall x :: x in ChildIds(cats, kids, fuel).value <==>
              exists k | k in kids :: x == k.id || x in SubcategoryIds(cats, k.id, fuel - 1).value
    decreases |kids|
  {
    if kids != [] {
      var init := kids[..|kids| - 1];
      ChildIdsMembers(cats, init, fuel);
      assert forall k | k in kids :: k in init || k == kids[|kids| - 1];
      assert forall k | k in init :: k in kids;
    }
  }

  /** A subcategory whose budget runs out makes the whole `reduce` fail. */
  lemma {:induction false} ChildIdsFails(cats: seq<Category>, kids: seq<Category>, fuel: nat, k: Category)
    requires k in kids && (fuel == 0 || SubcategoryIds(cats, k.id, fuel - 1).None?)
    ensures ChildIds(cats, kids, fuel).None?
    decreases |kids|
  {
    var init := kids[..|kids| - 1];
    if fuel > 0 && k != kids[|kids| - 1] {
      assert k in init;
      ChildIdsFails(cats, init, fuel, k);
    }
  }

  /** `c` hangs under the starting category or under one of `listed`. */
  predicate ParentListed(c: Category, parent: string, listed: seq<string>) {
    c.parentId == Ref(parent) || (c.parentId.Ref? && c.parentId.id in listed)
  }

  /** Each listed id belongs to a category that hangs under the starting
      category or under another listed id. */
  lemma {:induction false} SubcategoryIdsSound(cats: seq<Category>, parent: string, fuel: nat)
    requires SubcategoryIds(cats, parent, fuel).Some?
    ensures var r := SubcategoryIds(cats, parent, fuel).value;
      forall x | x in r :: exists c | c in cats :: c.id == x && ParentListed(c, parent, r)
    decreases fuel
  {
    var r := SubcategoryIds(cats, parent, fuel).value;
    var kids := Subcategories(cats, parent);
    ChildIdsMembers(cats, kids, fuel);
    forall x | x in r
      ensures exists c | c in cats :: c.id == x && ParentListed(c, parent, r)
    {
      var k :| k in kids && (x == k.id || x in SubcategoryIds(cats, k.id, fuel - 1).value);
      if x == k.id {
        assert k in cats && ParentListed(k, parent, r);
      } else {
        var b := SubcategoryIds(cats, k.id, fuel - 1).value;
        SubcategoryIdsSound(cats, k.id, fuel - 1);
        var c :| c in cats && c.id == x && ParentListed(c, k.id, b);
        assert k.id in r;
        assert ParentListed(c, parent, r);
      }
    }
  }

  /** Every category that hangs under the starting category or under a
      listed id is listed: the listing is closed under subcategories. */
  lemma {:induction false} SubcategoryIdsComplete(cats: seq<Category>, parent: string, fuel: nat)
    requires SubcategoryIds(cats, parent, fuel).Some?
    ensures var r := SubcategoryIds(cats, parent, fuel).value;
      forall c | c in cats && ParentListed(c, parent, r) :: c.id in r
    decreases fuel
  {
    var r := SubcategoryIds(cats, parent, fuel).value;
    var kids := Subcategories(cats, parent);
    ChildIdsMembers(cats, kids, fuel);
    forall c | c in cats && ParentListed(c, parent, r)
      ensures c.id in r
    {
      if c.parentId == Ref(parent) {
        assert c in kids;
      } else {
        var k :| k in kids && (c.parentId.id == k.id || c.parentId.id in SubcategoryIds(cats, k.id, fuel - 1).value);
        SubcategoryIdsComplete(cats, k.id, fuel - 1);
        assert ParentListed(c, k.id, SubcategoryIds(cats, k.id, fuel - 1).value);
      }
    }
  }

  /** The parent graph is acyclic: some rank strictly drops from every
      category to its parent's id. */
  predicate Ranked(cats: seq<Category>, rank: string -> nat) {
    forall c | c in cats && c.parentId.Ref? :: rank(c.id) < rank(c.parentId.id)
  }

  /** On an acyclic graph the recursion stays within a budget above the
      starting rank, and lists only categories ranked below the start —
      never the start itself. */
  lemma {:induction false} SubcategoryIdsRanked(cats: seq<Category>, rank: string -> nat, parent: string, fuel: nat)
    requires Ranked(cats, rank) && rank(parent) < fuel
    ensures SubcategoryIds(cats, parent, fuel).Some?
    ensures forall x | x in SubcategoryIds(cats, parent, fuel).value :: rank(x) < rank(parent)
    decreases fuel, 1
  {
    var kids := Subcategories(cats, parent);
    ChildIdsRanked(cats, rank, parent, kids, fuel);
  }

  lemma {:induction false} ChildIdsRanked(cats: seq<Category>, rank: string -> nat, parent: string,
                                          kids: seq<Category>, fuel: nat)
    requires Ranked(cats, rank) && rank(parent) < fuel
    requires forall k | k in kids :: k in cats && k.parentId == Ref(parent)
    ensures ChildIds(cats, kids, fuel).Some?
    ensures forall x | x in ChildIds(cats, kids, fuel).value :: rank(x) < rank(parent)
    decreases fuel, 0, |kids|
  {
    if kids != [] {
      var init := kids[..|kids| - 1];
      var last := kids[|kids| - 1];
      assert forall k | k in init :: k in kids;
      ChildIdsRanked(cats, rank, parent, init, fuel);
      assert rank(last.id) < rank(parent);
      SubcategoryIdsRanked(cats, rank, last.id, fuel - 1);
    }
  }

  /** A category that is its own parent overflows the stack: the
      recursion fails on every budget. */
  lemma {:induction false} SelfParentOverflows(cats: seq<Category>, c: Category, fuel: nat)
    requires c in cats && c.parentId == Ref(c.id)
    ensures SubcategoryIds(cats, c.id, fuel).None?
  {
    assert c in Subcategories(cats, c.id);
    if fuel > 0 {
      SelfParentOverflows(cats, c, fuel - 1);
    }
    ChildIdsFails(cats, Subcategories(cats, c.id), fuel, c);
  }

  // ---------------------------------------------------------------------
  // Totals

  /** What `calculateTotals` returns; `directItems` only for a selection. */
  datatype Totals = Totals(totalItems: int, totalValue: int, totalCategories: int, directItems: Option<seq<Item>>)

  /** The items filed under one of `ids`. */
  function ItemsUnder(items: seq<Item>, ids: seq<string>): (r: seq<Item>)
    ensures forall x :: x in r <==> x in items && x.categoryId in ids
  {
    Filter(items, (x: Item) => x.categoryId in ids)
  }

  /** `calculateTotals`: with nothing selected, sums over every loaded item
      and the number of loaded categories; with a selection, the sums over
      its direct items plus the items of its descendants, the number of
      descendants, and the direct items. `None` is the stack overflow of a
      parent cycle, with the recursion budget one more than the number of
      categories. */
  function CalculateTotals(cats: seq<Category>, items: seq<Item>, selected: Option<Category>): (r: Option<Totals>)
    ensures selected.None? ==> r == Some(Totals(Total(items, Quantity), Total(items, Value), |cats|, None))
    ensures selected.Some? ==> (r.Some? <==> SubcategoryIds(cats, selected.value.id, |cats| + 1).Some?)
    ensures selected.Some? && r.Some? ==>
              && r.value.directItems == Some(DirectItems(items, selected.value.id))
              && r.value.totalCategories == |SubcategoryIds(cats, selected.value.id, |cats| + 1).value|
  {
    if selected.None? then
      Some(Totals(Total(items, Quantity), Total(items, Value), |cats|, None))
    else
      var sub := SubcategoryIds(cats, selected.value.id, |cats| + 1);
      if sub.None? then None
      else
        var direct := DirectItems(items, selected.value.id);
        var below := ItemsUnder(items, sub.value);
        Some(Totals(Total(direct, Quantity) + Total(below, Quantity),
                    Total(direct, Value) + Total(below, Value),
                    |sub.value|, Some(direct)))
  }

  /** On an acyclic graph ranked within the number of categories, the
      totals of a selection exist and count each item of its subtree once:
      they are the sums over the items filed under the selection or under
      one of its descendants. */
  lemma SubtreeTotals(cats: seq<Category>, items: seq<Item>, sel: Category, rank: string -> nat)
    requires Ranked(cats, rank) && rank(sel.id) <= |cats|
    ensures CalculateTotals(cats, items, Some(sel)).Some?
    ensures var sub := SubcategoryIds(cats, sel.id, |cats| + 1).value;
      var inTree := Filter(items, (x: Item) => x.categoryId == sel.id || x.categoryId in sub);
      && CalculateTotals(cats, items, Some(sel)).value.totalItems == Total(inTree, Quantity)
      && CalculateTotals(cats, items, Some(sel)).value.totalValue == Total(inTree, Value)
  {
    SubcategoryIdsRanked(cats, rank, sel.id, |cats| + 1);
    var sub := SubcategoryIds(cats, sel.id, |cats| + 1).value;
    var p := (x: Item) => x.categoryId == sel.id;
    var q := (x: Item) => x.categoryId in sub;
    assert sel.id !in sub;
    TotalDisjointFilters(items, Quantity, p, q);
    TotalDisjointFilters(items, Value, p, q);
    FilterCongruent(items, (x: Item) => p(x) || q(x), (x: Item) => x.categoryId == sel.id || x.categoryId in sub);
  }
}
