/**
 * The catalogue operations as they act on the database alone.  This is the simple form that
 * CatalogService, which reads through a cache, is shown to refine.
 */
module CatalogDb {
  import opened Common
  import opened CatalogModel
  import Slug

  /** Rows by identifier; soft-deleted rows stay. */
  datatype Db = Db(categories: map<Id, Category>, products: map<Id, Product>, variants: map<Id, Variant>)

  datatype CatalogError =
    | NotFound
    | ParentNotFound
    | SlugNotUnique
    | OwnParent
    | HasChildren
    | SkuExists
    | SkuNotUnique
    | PrefixIsFixed
    | HasVariants

  /** A field of an update: left out, set to null, or set to a value. */
  datatype Field<+T> = Absent | Null | Value(value: T)

  /** JavaScript's truth of an optional text. */
  predicate Truthy(text: Option<string>) {
    text.Some? && text.value != ""
  }

  datatype CreateCategoryDto = CreateCategoryDto(name: string, slug: Option<string>, parentId: Option<Id>)

  datatype UpdateCategoryDto = UpdateCategoryDto(name: Option<string>, slug: Option<string>, parentId: Field<Id>)

  datatype CreateProductDto = CreateProductDto(
    name: string, description: Option<string>, categoryId: Id, skuPrefix: string, isActive: bool)

  datatype UpdateProductDto = UpdateProductDto(
    name: Option<string>, description: Field<string>, categoryId: Option<Id>, skuPrefix: Option<string>, isActive: Option<bool>)

  datatype CreateVariantDto = CreateVariantDto(sku: string, price: int, attributes: map<string, string>)

  datatype UpdateVariantDto = UpdateVariantDto(
    sku: Option<string>, price: Option<int>, attributes: Option<map<string, string>>)

  // ---------------------------------------------------------------------------------------------
  // Queries
  // ---------------------------------------------------------------------------------------------

  predicate IsLiveCategory(db: Db, tenant: Id, id: Id) {
    id in db.categories && db.categories[id].tenant == tenant && !db.categories[id].deleted
  }

  predicate IsLiveProduct(db: Db, tenant: Id, id: Id) {
    id in db.products && db.products[id].tenant == tenant && !db.products[id].deleted
  }

  predicate IsLiveVariant(db: Db, tenant: Id, id: Id) {
    id in db.variants && db.variants[id].tenant == tenant && !db.variants[id].deleted
  }

  function FindCategory(db: Db, tenant: Id, id: Id): Result<Category, CatalogError> {
    if IsLiveCategory(db, tenant, id) then Ok(db.categories[id]) else Err(NotFound)
  }

  function FindProduct(db: Db, tenant: Id, id: Id): Result<Product, CatalogError> {
    if IsLiveProduct(db, tenant, id) then Ok(db.products[id]) else Err(NotFound)
  }

  function FindVariant(db: Db, tenant: Id, product: Id, id: Id): Result<Variant, CatalogError> {
    if IsLiveVariant(db, tenant, id) && db.variants[id].product == product then Ok(db.variants[id]) else Err(NotFound)
  }

  /** The checks made before a write look at live rows only. */
  predicate SlugTaken(db: Db, tenant: Id, slug: string, exclude: Option<Id>) {
    exists id :: id in db.categories && IsLiveCategory(db, tenant, id) && db.categories[id].slug == slug && exclude != Some(id)
  }

  predicate PrefixTaken(db: Db, tenant: Id, prefix: string) {
    exists id :: id in db.products && IsLiveProduct(db, tenant, id) && db.products[id].skuPrefix == prefix
  }

  predicate SkuTaken(db: Db, tenant: Id, sku: string, exclude: Option<Id>) {
    exists id :: id in db.variants && IsLiveVariant(db, tenant, id) && db.variants[id].sku == sku && exclude != Some(id)
  }

  predicate HasLiveChildren(db: Db, tenant: Id, id: Id) {
    exists c :: c in db.categories && IsLiveCategory(db, tenant, c) && db.categories[c].parent == Some(id)
  }

  predicate HasLiveVariants(db: Db, tenant: Id, product: Id) {
    exists v :: v in db.variants && IsLiveVariant(db, tenant, v) && db.variants[v].product == product
  }

  // ---------------------------------------------------------------------------------------------
  // Writes: the unique constraints of the tables also cover soft-deleted rows
  // ---------------------------------------------------------------------------------------------

  predicate ViolatesCategoryConstraints(db: Db, row: Category) {
    exists id :: id in db.categories && id != row.id && db.categories[id].tenant == row.tenant
              && (db.categories[id].name == row.name || db.categories[id].slug == row.slug)
  }

  predicate ViolatesVariantConstraint(db: Db, row: Variant) {
    exists id :: id in db.variants && id != row.id && db.variants[id].tenant == row.tenant && db.variants[id].sku == row.sku
  }

  type Written<T> = (Db, Result<T, CatalogError>)

  function SaveCategory(db: Db, row: Category): Written<Category> {
    if ViolatesCategoryConstraints(db, row) then (db, Err(SlugNotUnique))
    else (db.(categories := db.categories[row.id := row]), Ok(row))
  }

  function SaveProduct(db: Db, row: Product): Written<Product> {
    (db.(products := db.products[row.id := row]), Ok(row))
  }

  function SaveVariant(db: Db, row: Variant): Written<Variant> {
    if ViolatesVariantConstraint(db, row) then (db, Err(SkuNotUnique))
    else (db.(variants := db.variants[row.id := row]), Ok(row))
  }

  // ---------------------------------------------------------------------------------------------
  // Categories
  // ---------------------------------------------------------------------------------------------

  function CreateCategory(unicode: Slug.Unicode, db: Db, tenant: Id, dto: CreateCategoryDto, newId: Id): Written<Category> {
    var slug := Slug.GenerateSlug(unicode, if Truthy(dto.slug) then dto.slug.value else dto.name);
    if SlugTaken(db, tenant, slug, None) then (db, Err(SlugNotUnique))
    else if Truthy(dto.parentId) && !IsLiveCategory(db, tenant, dto.parentId.value) then (db, Err(ParentNotFound))
    else
      SaveCategory(db, Category(newId, tenant, dto.name, slug, if Truthy(dto.parentId) then dto.parentId else None, false))
  }

  /** The name and slug an update asks for. */
  function Renamed(unicode: Slug.Unicode, row: Category, dto: UpdateCategoryDto): Category {
    var named := if Truthy(dto.name) then row.(name := dto.name.value) else row;
    if Truthy(dto.slug) then named.(slug := Slug.GenerateSlug(unicode, dto.slug.value))
    else if Truthy(dto.name) then named.(slug := Slug.GenerateSlug(unicode, dto.name.value))
    else named
  }

  function NewParent(dto: UpdateCategoryDto, current: Option<Id>): Option<Id> {
    match dto.parentId
    case Absent => current
    case Null => None
    case Value(id) => if id == "" then None else Some(id)
  }

  function UpdateCategory(unicode: Slug.Unicode, db: Db, tenant: Id, id: Id, dto: UpdateCategoryDto): Written<Category> {
    if !IsLiveCategory(db, tenant, id) then (db, Err(NotFound))
    else
      var target := Renamed(unicode, db.categories[id], dto);
      if SlugTaken(db, tenant, target.slug, Some(id)) then (db, Err(SlugNotUnique))
      else if dto.parentId == Value(id) then (db, Err(OwnParent))
      else if dto.parentId.Value? && dto.parentId.value != "" && !IsLiveCategory(db, tenant, dto.parentId.value) then
        (db, Err(ParentNotFound))
      else SaveCategory(db, target.(parent := NewParent(dto, target.parent)))
  }

  function RemoveCategory(db: Db, tenant: Id, id: Id): Written<()> {
    if !IsLiveCategory(db, tenant, id) then (db, Err(NotFound))
    else if HasLiveChildren(db, tenant, id) then (db, Err(HasChildren))
    else (db.(categories := db.categories[id := db.categories[id].(deleted := true)]), Ok(()))
  }

  // ---------------------------------------------------------------------------------------------
  // Products
  // ---------------------------------------------------------------------------------------------

  function CreateProduct(db: Db, tenant: Id, dto: CreateProductDto, newId: Id): Written<Product> {
    if !IsLiveCategory(db, tenant, dto.categoryId) then (db, Err(NotFound))
    else if PrefixTaken(db, tenant, dto.skuPrefix) then (db, Err(SkuExists))
    else
      SaveProduct(
        db,
        Product(newId, tenant, dto.categoryId, dto.name, dto.description, dto.skuPrefix, dto.isActive, false))
  }

  function Edited(row: Product, dto: UpdateProductDto): Product {
    row.(category := if Truthy(dto.categoryId) then dto.categoryId.value else row.category,
         name := if dto.name.Some? then dto.name.value else row.name,
         description := match dto.description case Absent => row.description case Null => None case Value(d) => Some(d),
         isActive := if dto.isActive.Some? then dto.isActive.value else row.isActive)
  }

  function UpdateProduct(db: Db, tenant: Id, id: Id, dto: UpdateProductDto): Written<Product> {
    if !IsLiveProduct(db, tenant, id) then (db, Err(NotFound))
    else if Truthy(dto.skuPrefix) && dto.skuPrefix.value != db.products[id].skuPrefix then (db, Err(PrefixIsFixed))
    else if Truthy(dto.categoryId) && !IsLiveCategory(db, tenant, dto.categoryId.value) then (db, Err(NotFound))
    else SaveProduct(db, Edited(db.products[id], dto))
  }

  function RemoveProduct(db: Db, tenant: Id, id: Id): Written<()> {
    if !IsLiveProduct(db, tenant, id) then (db, Err(NotFound))
    else if HasLiveVariants(db, tenant, id) then (db, Err(HasVariants))
    else (db.(products := db.products[id := db.products[id].(deleted := true)]), Ok(()))
  }

  // ---------------------------------------------------------------------------------------------
  // Variants
  // ---------------------------------------------------------------------------------------------

  function CreateVariant(db: Db, tenant: Id, product: Id, dto: CreateVariantDto, newId: Id): Written<Variant> {
    if !IsLiveProduct(db, tenant, product) then (db, Err(NotFound))
    else if SkuTaken(db, tenant, dto.sku, None) then (db, Err(SkuExists))
    else SaveVariant(db, Variant(newId, tenant, product, dto.sku, dto.price, dto.attributes, false))
  }

  function EditedVariant(row: Variant, dto: UpdateVariantDto): Variant {
    row.(sku := if Truthy(dto.sku) then dto.sku.value else row.sku,
         price := if dto.price.Some? then dto.price.value else row.price,
         attributes := if dto.attributes.Some? then dto.attributes.value else row.attributes)
  }

  function UpdateVariant(db: Db, tenant: Id, product: Id, id: Id, dto: UpdateVariantDto): Written<Variant> {
    if FindVariant(db, tenant, product, id).Err? then (db, Err(NotFound))
    else
      var row := db.variants[id];
      if Truthy(dto.sku) && dto.sku.value != row.sku && SkuTaken(db, tenant, dto.sku.value, Some(id)) then
        (db, Err(SkuExists))
      else SaveVariant(db, EditedVariant(row, dto))
  }

  function RemoveVariant(db: Db, tenant: Id, product: Id, id: Id): Written<()> {
    if FindVariant(db, tenant, product, id).Err? then (db, Err(NotFound))
    else (db.(variants := db.variants[id := db.variants[id].(deleted := true)]), Ok(()))
  }

  // ---------------------------------------------------------------------------------------------
  // Runs
  // ---------------------------------------------------------------------------------------------

  datatype Command =
    | CategoryCreate(tenant: Id, categoryDto: CreateCategoryDto, newId: Id)
    | CategoryUpdate(tenant: Id, id: Id, categoryChange: UpdateCategoryDto)
    | CategoryRemove(tenant: Id, id: Id)
    | ProductCreate(tenant: Id, productDto: CreateProductDto, newId: Id)
    | ProductUpdate(tenant: Id, id: Id, productChange: UpdateProductDto)
    | ProductRemove(tenant: Id, id: Id)
    | VariantCreate(tenant: Id, product: Id, variantDto: CreateVariantDto, newId: Id)
    | VariantUpdate(tenant: Id, product: Id, id: Id, variantChange: UpdateVariantDto)
    | VariantRemove(tenant: Id, product: Id, id: Id)

  /** Generated identifiers are new and not empty. */
  predicate FreshId(db: Db, command: Command) {
    match command
    case CategoryCreate(_, _, newId) => newId != "" && newId !in db.categories
    case ProductCreate(_, _, newId) => newId != "" && newId !in db.products
    case VariantCreate(_, _, _, newId) => newId != "" && newId !in db.variants
    case _ => true
  }

  function Execute(unicode: Slug.Unicode, db: Db, command: Command): Db {
    match command
    case CategoryCreate(tenant, dto, newId) => CreateCategory(unicode, db, tenant, dto, newId).0
    case CategoryUpdate(tenant, id, dto) => UpdateCategory(unicode, db, tenant, id, dto).0
    case CategoryRemove(tenant, id) => RemoveCategory(db, tenant, id).0
    case ProductCreate(tenant, dto, newId) => CreateProduct(db, tenant, dto, newId).0
    case ProductUpdate(tenant, id, dto) => UpdateProduct(db, tenant, id, dto).0
    case ProductRemove(tenant, id) => RemoveProduct(db, tenant, id).0
    case VariantCreate(tenant, product, dto, newId) => CreateVariant(db, tenant, product, dto, newId).0
    case VariantUpdate(tenant, product, id, dto) => UpdateVariant(db, tenant, product, id, dto).0
    case VariantRemove(tenant, product, id) => RemoveVariant(db, tenant, product, id).0
  }

  function Run(unicode: Slug.Unicode, db: Db, commands: seq<Command>): Db {
    if commands == [] then db
    else Execute(unicode, Run(unicode, db, commands[..|commands| - 1]), commands[|commands| - 1])
  }

  ghost predicate FreshIds(unicode: Slug.Unicode, db: Db, commands: seq<Command>) {
    forall i :: 0 <= i < |commands| ==> FreshId(Run(unicode, db, commands[..i]), commands[i])
  }
}
