/** The record shapes of the inventory store and the validation schemas
    that constrain them (categories, items and their form inputs). */
module Inventory {

  datatype Option<T> = None | Some(value: T) {
    function GetOr(default: T): T {
      if Some? then value else default
    }
  }

  /** A stored `parentId`: JavaScript tells `undefined` (key absent) apart
      from `null`, and strict equality does too. */
  datatype ParentRef = Undefined | Null | Ref(id: string)

  /** The materialised position of a category in the tree: the ids of its
      ancestors from the root down to its parent, and its depth. Both are
      written together and stripped together, so one optional field holds
      them. */
  datatype TreePos = TreePos(path: seq<string>, level: int)

  /** A category as stored; `isFolder` and `pos` can be missing on records
      written by older schema versions. Timestamps are integers. */
  datatype Category = Category(
    id: string,
    name: string,
    description: Option<string>,
    color: string,
    parentId: ParentRef,
    isFolder: Option<bool>,
    pos: Option<TreePos>,
    createdAt: int,
    updatedAt: int)

  /** The input of category creation. */
  datatype CategoryForm = CategoryForm(
    name: string,
    description: Option<string>,
    color: string,
    parentId: ParentRef,
    isFolder: Option<bool>)

  /** A partial category form: `None` leaves a field as it is. */
  datatype CategoryPatch = CategoryPatch(
    name: Option<string>,
    description: Option<string>,
    color: Option<string>,
    parentId: Option<ParentRef>,
    isFolder: Option<bool>)

  /** An item as stored; prices are whole minor units (e.g. cents). */
  datatype Item = Item(
    id: string,
    name: string,
    categoryId: string,
    quantity: int,
    price: int,
    purchaseDate: string,
    description: Option<string>,
    notes: Option<string>,
    image: Option<string>,
    createdAt: int,
    updatedAt: int)

  datatype ItemForm = ItemForm(
    name: string,
    categoryId: string,
    quantity: int,
    price: int,
    purchaseDate: string,
    description: Option<string>,
    notes: Option<string>,
    image: Option<string>)

  datatype ItemPatch = ItemPatch(
    name: Option<string>,
    categoryId: Option<string>,
    quantity: Option<int>,
    price: Option<int>,
    purchaseDate: Option<string>,
    description: Option<string>,
    notes: Option<string>,
    image: Option<string>)

  /** The failures the store operations raise. */
  datatype Error =
    | NotFound(entity: string)          // "Category not found", "Item not found"
    | ConstraintError                   // an `add` on a key that is already stored
    | TypeError                         // a property read on `undefined`
    | VersionConflict(document: int, current: int)
    | MissingIndex(index: string)       // NotFoundError: a read through an index the store does not have

  datatype Result<T> = Ok(value: T) | Err(error: Error)

  // ---------------------------------------------------------------------
  // Validation schemas

  /** `CategoryFormSchema`: name and color are required non-empty strings;
      description, parentId (string, null or absent) and isFolder are free. */
  predicate CategoryFormValid(f: CategoryForm) {
    |f.name| >= 1 && |f.color| >= 1
  }

  /** Parsing with `CategoryFormSchema`: rejects an invalid form and fills in
      the `isFolder` default. */
  function ParseCategoryForm(f: CategoryForm): (r: Option<CategoryForm>)
    ensures r.Some? <==> |f.name| >= 1 && |f.color| >= 1
    ensures r.Some? ==> r.value.isFolder == Some(f.isFolder.GetOr(false))
    ensures r.Some? ==>
              && r.value.name == f.name && r.value.color == f.color
              && r.value.description == f.description && r.value.parentId == f.parentId
  {
    if CategoryFormValid(f) then Some(f.(isFolder := Some(f.isFolder.GetOr(false))))
    else None
  }

  /** `CategorySchema`: a valid form plus a path list and a numeric level. */
  predicate CategoryValid(c: Category) {
    |c.name| >= 1 && |c.color| >= 1 && c.pos.Some?
  }

  /** `ItemFormSchema`. */
  predicate ItemFormValid(f: ItemForm) {
    |f.name| >= 1 && |f.categoryId| >= 1 && f.quantity >= 0 && f.price >= 0
    && |f.purchaseDate| >= 1
  }

  /** Parsing with `ItemFormSchema`: no defaults, only rejection. */
  function ParseItemForm(f: ItemForm): (r: Option<ItemForm>)
    ensures r.Some? <==>
              && |f.name| >= 1 && |f.categoryId| >= 1 && f.quantity >= 0
              && f.price >= 0 && |f.purchaseDate| >= 1
    ensures r.Some? ==> r.value == f
  {
    if ItemFormValid(f) then Some(f) else None
  }

  /** `ItemSchema`: a valid item form plus id and timestamps. */
  predicate ItemValid(i: Item) {
    ItemFormValid(FormOf(i))
  }

  function FormOf(i: Item): ItemForm {
    ItemForm(i.name, i.categoryId, i.quantity, i.price, i.purchaseDate,
             i.description, i.notes, i.image)
  }
}
