/** Rows of the catalogue: categories, products and variants, each soft-deleted only. */
module CatalogModel {
  import opened Common

  /** `parent` is the parent pointer; an empty identifier counts as none. */
  datatype Category = Category(id: Id, tenant: Id, name: string, slug: string, parent: Option<Id>, deleted: bool)

  datatype Product = Product(
    id: Id,
    tenant: Id,
    category: Id,
    name: string,
    description: Option<string>,
    skuPrefix: string,
    isActive: bool,
    deleted: bool)

  datatype Variant = Variant(
    id: Id,
    tenant: Id,
    product: Id,
    sku: string,
    price: int,
    attributes: map<string, string>,
    deleted: bool)

  /** The parent a category declares. */
  function ParentOf(category: Category): (parent: Option<Id>)
    ensures parent == None <==> category.parent == None || category.parent == Some("")
    ensures parent.Some? ==> parent == category.parent
  {
    if category.parent.Some? && category.parent.value != "" then category.parent else None
  }
}
