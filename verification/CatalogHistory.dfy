/**
 * The catalogue described by its commands alone: which commands are refused, by guards on the rows,
 * and what every column of every row holds after a run, by the last accepted command that gave it.
 */
module CatalogHistory {
  import opened Common
  import opened CatalogModel
  import opened CatalogDb
  import opened CatalogIntegrity
  import opened CatalogRuns
  import Slug

  // ---------------------------------------------------------------------------------------------
  // Which commands are refused
  // ---------------------------------------------------------------------------------------------

  /** A text that is there and not empty. */
  predicate Given(text: Option<string>) {
    text != None && text != Some("")
  }

  predicate CategoryIsThere(db: Db, tenant: Id, id: Id) {
    id in db.categories && db.categories[id].tenant == tenant && !db.categories[id].deleted
  }

  predicate ProductIsThere(db: Db, tenant: Id, id: Id) {
    id in db.products && db.products[id].tenant == tenant && !db.products[id].deleted
  }

  predicate VariantIsThere(db: Db, tenant: Id, product: Id, id: Id) {
    id in db.variants && db.variants[id].tenant == tenant && !db.variants[id].deleted && db.variants[id].product == product
  }

  /** Another live category of the tenant has the slug. */
  predicate SlugIsUsed(db: Db, tenant: Id, slug: string, id: Id) {
    exists c :: c in db.categories && c != id && CategoryIsThere(db, tenant, c) && db.categories[c].slug == slug
  }

  /** Another category of the tenant, removed or not, has the name or the slug. */
  predicate NameOrSlugIsTaken(db: Db, tenant: Id, name: string, slug: string, id: Id) {
    exists c :: c in db.categories && c != id && db.categories[c].tenant == tenant
             && (db.categories[c].name == name || db.categories[c].slug == slug)
  }

  /** Another live variant of the tenant has the SKU. */
  predicate SkuIsUsed(db: Db, tenant: Id, sku: string, id: Id) {
    exists v :: v in db.variants && v != id && db.variants[v].tenant == tenant && !db.variants[v].deleted && db.variants[v].sku == sku
  }

  predicate SkuIsTaken(db: Db, tenant: Id, sku: string, id: Id) {
    exists v :: v in db.variants && v != id && db.variants[v].tenant == tenant && db.variants[v].sku == sku
  }

  predicate PrefixIsUsed(db: Db, tenant: Id, prefix: string) {
    exists p :: p in db.products && ProductIsThere(db, tenant, p) && db.products[p].skuPrefix == prefix
  }

  predicate IsParent(db: Db, tenant: Id, id: Id) {
    exists c :: c in db.categories && CategoryIsThere(db, tenant, c) && db.categories[c].parent == Some(id)
  }

  predicate IsVaried(db: Db, tenant: Id, id: Id) {
    exists v :: v in db.variants && VariantIsThere(db, tenant, id, v)
  }

  predicate AsksForMissingParent(db: Db, tenant: Id, dto: UpdateCategoryDto) {
    dto.parentId.Value? && dto.parentId.value != "" && !CategoryIsThere(db, tenant, dto.parentId.value)
  }

  function CreateCategoryRefusal(unicode: Slug.Unicode, db: Db, tenant: Id, dto: CreateCategoryDto, newId: Id): Option<CatalogError> {
    var slug := Slug.GenerateSlug(unicode, if Given(dto.slug) then dto.slug.value else dto.name);
    if SlugIsUsed(db, tenant, slug, newId) then Some(SlugNotUnique)
    else if Given(dto.parentId) && !CategoryIsThere(db, tenant, dto.parentId.value) then Some(ParentNotFound)
    else if NameOrSlugIsTaken(db, tenant, dto.name, slug, newId) then Some(SlugNotUnique)
    else None
  }

  function UpdateCategoryRefusal(unicode: Slug.Unicode, db: Db, tenant: Id, id: Id, dto: UpdateCategoryDto): Option<CatalogError> {
    if !CategoryIsThere(db, tenant, id) then Some(NotFound)
    else
      var name := if Given(dto.name) then dto.name.value else db.categories[id].name;
      var slug :=
        if Given(dto.slug) then Slug.GenerateSlug(unicode, dto.slug.value)
        else if Given(dto.name) then Slug.GenerateSlug(unicode, dto.name.value)
        else db.categories[id].slug;
      if SlugIsUsed(db, tenant, slug, id) then Some(SlugNotUnique)
      else if dto.parentId == Value(id) then Some(OwnParent)
      else if AsksForMissingParent(db, tenant, dto) then Some(ParentNotFound)
      else if NameOrSlugIsTaken(db, tenant, name, slug, id) then Some(SlugNotUnique)
      else None
  }

  function CategoryRefusal(unicode: Slug.Unicode, db: Db, command: Command): Option<CatalogError>
    requires command.CategoryCreate? || command.CategoryUpdate? || command.CategoryRemove?
  {
    match command
    case CategoryCreate(tenant, dto, newId) => CreateCategoryRefusal(unicode, db, tenant, dto, newId)
    case CategoryUpdate(tenant, id, dto) => UpdateCategoryRefusal(unicode, db, tenant, id, dto)
    case CategoryRemove(tenant, id) =>
      if !CategoryIsThere(db, tenant, id) then Some(NotFound) else if IsParent(db, tenant, id) then Some(HasChildren) else None
  }

  function ProductRefusal(db: Db, command: Command): Option<CatalogError>
    requires command.ProductCreate? || command.ProductUpdate? || command.ProductRemove?
  {
    match command
    case ProductCreate(tenant, dto, newId) =>
      if !CategoryIsThere(db, tenant, dto.categoryId) then Some(NotFound)
      else if PrefixIsUsed(db, tenant, dto.skuPrefix) then Some(SkuExists)
      else None
    case ProductUpdate(tenant, id, dto) =>
      if !ProductIsThere(db, tenant, id) then Some(NotFound)
      else if Given(dto.skuPrefix) && dto.skuPrefix != Some(db.products[id].skuPrefix) then Some(PrefixIsFixed)
      else if Given(dto.categoryId) && !CategoryIsThere(db, tenant, dto.categoryId.value) then Some(NotFound)
      else None
    case ProductRemove(tenant, id) =>
      if !ProductIsThere(db, tenant, id) then Some(NotFound) else if IsVaried(db, tenant, id) then Some(HasVariants) else None
  }

  function VariantRefusal(db: Db, command: Command): Option<CatalogError>
    requires command.VariantCreate? || command.VariantUpdate? || command.VariantRemove?
  {
    match command
    case VariantCreate(tenant, product, dto, newId) =>
      if !ProductIsThere(db, tenant, product) then Some(NotFound)
      else if SkuIsUsed(db, tenant, dto.sku, newId) then Some(SkuExists)
      else if SkuIsTaken(db, tenant, dto.sku, newId) then Some(SkuNotUnique)
      else None
    case VariantUpdate(tenant, product, id, dto) =>
      if !VariantIsThere(db, tenant, product, id) then Some(NotFound)
      else if Given(dto.sku) && dto.sku != Some(db.variants[id].sku) && SkuIsUsed(db, tenant, dto.sku.value, id) then Some(SkuExists)
      else if SkuIsTaken(db, tenant, if Given(dto.sku) then dto.sku.value else db.variants[id].sku, id) then Some(SkuNotUnique)
      else None
    case VariantRemove(tenant, product, id) =>
      if !VariantIsThere(db, tenant, product, id) then Some(NotFound) else None
  }

  /** Why a command is refused; `None` means that it is accepted. */
  function Refusal(unicode: Slug.Unicode, db: Db, command: Command): Option<CatalogError> {
    if command.CategoryCreate? || command.CategoryUpdate? || command.CategoryRemove? then CategoryRefusal(unicode, db, command)
    else if command.ProductCreate? || command.ProductUpdate? || command.ProductRemove? then ProductRefusal(db, command)
    else VariantRefusal(db, command)
  }

  lemma SlugChecksAgree(db: Db, tenant: Id, slug: string, id: Id)
    ensures SlugTaken(db, tenant, slug, Some(id)) <==> SlugIsUsed(db, tenant, slug, id)
    ensures id !in db.categories ==> (SlugTaken(db, tenant, slug, None) <==> SlugIsUsed(db, tenant, slug, id))
  {
    if c :| c in db.categories && IsLiveCategory(db, tenant, c) && db.categories[c].slug == slug && Some(id) != Some(c) {
      assert c != id && CategoryIsThere(db, tenant, c);
    }
    if c :| c in db.categories && c != id && CategoryIsThere(db, tenant, c) && db.categories[c].slug == slug {
      assert IsLiveCategory(db, tenant, c) && Some(id) != Some(c) && None != Some(c);
    }
    if id !in db.categories {
      if c :| c in db.categories && IsLiveCategory(db, tenant, c) && db.categories[c].slug == slug && None != Some(c) {
        assert c != id && CategoryIsThere(db, tenant, c);
      }
    }
  }

  lemma SkuChecksAgree(db: Db, tenant: Id, sku: string, id: Id)
    ensures SkuTaken(db, tenant, sku, Some(id)) <==> SkuIsUsed(db, tenant, sku, id)
    ensures id !in db.variants ==> (SkuTaken(db, tenant, sku, None) <==> SkuIsUsed(db, tenant, sku, id))
  {
    if v :| v in db.variants && IsLiveVariant(db, tenant, v) && db.variants[v].sku == sku && Some(id) != Some(v) {
      assert v != id && !db.variants[v].deleted;
    }
    if v :| v in db.variants && v != id && db.variants[v].tenant == tenant && !db.variants[v].deleted && db.variants[v].sku == sku {
      assert IsLiveVariant(db, tenant, v) && Some(id) != Some(v) && None != Some(v);
    }
    if id !in db.variants {
      if v :| v in db.variants && IsLiveVariant(db, tenant, v) && db.variants[v].sku == sku && None != Some(v) {
        assert v != id && !db.variants[v].deleted;
      }
    }
  }

  lemma CategoryConstraintsAgree(db: Db, row: Category)
    ensures ViolatesCategoryConstraints(db, row) <==> NameOrSlugIsTaken(db, row.tenant, row.name, row.slug, row.id)
  {
  }

  lemma VariantConstraintsAgree(db: Db, row: Variant)
    ensures ViolatesVariantConstraint(db, row) <==> SkuIsTaken(db, row.tenant, row.sku, row.id)
  {
  }

  lemma CreateCategoryRefusalIsExact(unicode: Slug.Unicode, db: Db, tenant: Id, dto: CreateCategoryDto, newId: Id)
    requires newId !in db.categories
    ensures
      var (refusal, r) := (CreateCategoryRefusal(unicode, db, tenant, dto, newId), CreateCategory(unicode, db, tenant, dto, newId).1);
      if refusal.Some? then r == Err(refusal.value) else r.Ok?
  {
    var slug := Slug.GenerateSlug(unicode, if Truthy(dto.slug) then dto.slug.value else dto.name);
    SlugChecksAgree(db, tenant, slug, newId);
    CategoryConstraintsAgree(
      db, Category(newId, tenant, dto.name, slug, if Truthy(dto.parentId) then dto.parentId else None, false));
  }

  lemma UpdateCategoryRefusalIsExact(unicode: Slug.Unicode, db: Db, tenant: Id, id: Id, dto: UpdateCategoryDto)
    requires Keyed(db)
    ensures
      var (refusal, r) := (UpdateCategoryRefusal(unicode, db, tenant, id, dto), UpdateCategory(unicode, db, tenant, id, dto).1);
      if refusal.Some? then r == Err(refusal.value) else r.Ok?
  {
    if CategoryIsThere(db, tenant, id) {
      var target := Renamed(unicode, db.categories[id], dto);
      RenamedKeepsTheRest(unicode, db.categories[id], dto);
      SlugChecksAgree(db, tenant, target.slug, id);
      CategoryConstraintsAgree(db, target.(parent := NewParent(dto, target.parent)));
    }
  }

  lemma CategoryRefusalIsExact(unicode: Slug.Unicode, db: Db, command: Command)
    requires Keyed(db) && FreshId(db, command)
    requires command.CategoryCreate? || command.CategoryUpdate? || command.CategoryRemove?
    ensures
      var (refusal, reply) := (CategoryRefusal(unicode, db, command), Reply(unicode, db, command));
      if refusal.Some? then reply == Err(refusal.value) else reply.Ok?
  {
    match command
    case CategoryCreate(tenant, dto, newId) => CreateCategoryRefusalIsExact(unicode, db, tenant, dto, newId);
    case CategoryUpdate(tenant, id, dto) => UpdateCategoryRefusalIsExact(unicode, db, tenant, id, dto);
    case CategoryRemove(tenant, id) =>
      assert HasLiveChildren(db, tenant, id) <==> IsParent(db, tenant, id);
  }

  lemma ProductRefusalIsExact(unicode: Slug.Unicode, db: Db, command: Command)
    requires Keyed(db) && FreshId(db, command)
    requires command.ProductCreate? || command.ProductUpdate? || command.ProductRemove?
    ensures
      var (refusal, reply) := (ProductRefusal(db, command), Reply(unicode, db, command));
      if refusal.Some? then reply == Err(refusal.value) else reply.Ok?
  {
    match command
    case ProductCreate(tenant, dto, _) =>
      assert PrefixTaken(db, tenant, dto.skuPrefix) <==> PrefixIsUsed(db, tenant, dto.skuPrefix);
    case ProductUpdate(_, _, _) =>
    case ProductRemove(tenant, id) =>
      assert HasLiveVariants(db, tenant, id) <==> IsVaried(db, tenant, id);
  }

  lemma VariantRefusalIsExact(unicode: Slug.Unicode, db: Db, command: Command)
    requires Keyed(db) && FreshId(db, command)
    requires command.VariantCreate? || command.VariantUpdate? || command.VariantRemove?
    ensures
      var (refusal, reply) := (VariantRefusal(db, command), Reply(unicode, db, command));
      if refusal.Some? then reply == Err(refusal.value) else reply.Ok?
  {
    match command
    case VariantCreate(tenant, product, dto, newId) =>
      SkuChecksAgree(db, tenant, dto.sku, newId);
      VariantConstraintsAgree(db, Variant(newId, tenant, product, dto.sku, dto.price, dto.attributes, false));
    case VariantUpdate(tenant, product, id, dto) =>
      if VariantIsThere(db, tenant, product, id) {
        SkuChecksAgree(db, tenant, if dto.sku.Some? then dto.sku.value else "", id);
        VariantConstraintsAgree(db, EditedVariant(db.variants[id], dto));
      }
    case VariantRemove(_, _, _) =>
  }

  /** A command is refused exactly by these guards, with this error, and accepted otherwise. */
  lemma RefusalsAreExact(unicode: Slug.Unicode, db: Db, command: Command)
    requires Keyed(db) && FreshId(db, command)
    ensures
      var (refusal, reply) := (Refusal(unicode, db, command), Reply(unicode, db, command));
      if refusal.Some? then reply == Err(refusal.value) && Execute(unicode, db, command) == db else reply.Ok?
  {
    if command.CategoryCreate? || command.CategoryUpdate? || command.CategoryRemove? {
      CategoryRefusalIsExact(unicode, db, command);
    } else if command.ProductCreate? || command.ProductUpdate? || command.ProductRemove? {
      ProductRefusalIsExact(unicode, db, command);
    } else {
      VariantRefusalIsExact(unicode, db, command);
    }
    if !IsAccepted(unicode, db, command) {
      RefusedCommandChangesNothing(unicode, db, command);
    }
  }

  // ---------------------------------------------------------------------------------------------
  // What a command gives for a column of a row
  // ---------------------------------------------------------------------------------------------

  function CategoryName(id: Id): Command -> Option<string> {
    (c: Command) =>
      if c.CategoryCreate? && c.newId == id then Some(c.categoryDto.name)
      else if c.CategoryUpdate? && c.id == id && Given(c.categoryChange.name) then c.categoryChange.name
      else None
  }

  /** The slug is made from the given slug, or else from the given name. */
  function CategorySlug(unicode: Slug.Unicode, id: Id): Command -> Option<string> {
    (c: Command) =>
      if c.CategoryCreate? && c.newId == id then
        Some(Slug.GenerateSlug(unicode, if Given(c.categoryDto.slug) then c.categoryDto.slug.value else c.categoryDto.name))
      else if c.CategoryUpdate? && c.id == id && Given(c.categoryChange.slug) then
        Some(Slug.GenerateSlug(unicode, c.categoryChange.slug.value))
      else if c.CategoryUpdate? && c.id == id && Given(c.categoryChange.name) then
        Some(Slug.GenerateSlug(unicode, c.categoryChange.name.value))
      else None
  }

  /** A null or empty parent makes the category a root. */
  function CategoryParent(id: Id): Command -> Option<Option<Id>> {
    (c: Command) =>
      if c.CategoryCreate? && c.newId == id then Some(if Given(c.categoryDto.parentId) then c.categoryDto.parentId else None)
      else if c.CategoryUpdate? && c.id == id && c.categoryChange.parentId != Absent then
        Some(if c.categoryChange.parentId.Value? && c.categoryChange.parentId.value != ""
          then Some(c.categoryChange.parentId.value) else None)
      else None
  }

  function CategoryTenant(id: Id): Command -> Option<Id> {
    (c: Command) => if c.CategoryCreate? && c.newId == id then Some(c.tenant) else None
  }

  function CategoryDeleted(id: Id): Command -> Option<bool> {
    (c: Command) =>
      if c.CategoryCreate? && c.newId == id then Some(false)
      else if c.CategoryRemove? && c.id == id then Some(true)
      else None
  }

  function ProductName(id: Id): Command -> Option<string> {
    (c: Command) =>
      if c.ProductCreate? && c.newId == id then Some(c.productDto.name)
      else if c.ProductUpdate? && c.id == id then c.productChange.name
      else None
  }

  /** A null description clears the column. */
  function ProductDescription(id: Id): Command -> Option<Option<string>> {
    (c: Command) =>
      if c.ProductCreate? && c.newId == id then Some(c.productDto.description)
      else if c.ProductUpdate? && c.id == id && c.productChange.description == Null then Some(None)
      else if c.ProductUpdate? && c.id == id && c.productChange.description.Value? then
        Some(Some(c.productChange.description.value))
      else None
  }

  function ProductCategory(id: Id): Command -> Option<Id> {
    (c: Command) =>
      if c.ProductCreate? && c.newId == id then Some(c.productDto.categoryId)
      else if c.ProductUpdate? && c.id == id && Given(c.productChange.categoryId) then c.productChange.categoryId
      else None
  }

  function ProductActive(id: Id): Command -> Option<bool> {
    (c: Command) =>
      if c.ProductCreate? && c.newId == id then Some(c.productDto.isActive)
      else if c.ProductUpdate? && c.id == id then c.productChange.isActive
      else None
  }

  function ProductPrefix(id: Id): Command -> Option<string> {
    (c: Command) => if c.ProductCreate? && c.newId == id then Some(c.productDto.skuPrefix) else None
  }

  function ProductTenant(id: Id): Command -> Option<Id> {
    (c: Command) => if c.ProductCreate? && c.newId == id then Some(c.tenant) else None
  }

  function ProductDeleted(id: Id): Command -> Option<bool> {
    (c: Command) =>
      if c.ProductCreate? && c.newId == id then Some(false)
      else if c.ProductRemove? && c.id == id then Some(true)
      else None
  }

  function VariantSku(id: Id): Command -> Option<string> {
    (c: Command) =>
      if c.VariantCreate? && c.newId == id then Some(c.variantDto.sku)
      else if c.VariantUpdate? && c.id == id && Given(c.variantChange.sku) then c.variantChange.sku
      else None
  }

  function VariantPrice(id: Id): Command -> Option<int> {
    (c: Command) =>
      if c.VariantCreate? && c.newId == id then Some(c.variantDto.price)
      else if c.VariantUpdate? && c.id == id then c.variantChange.price
      else None
  }

  function VariantAttributes(id: Id): Command -> Option<map<string, string>> {
    (c: Command) =>
      if c.VariantCreate? && c.newId == id then Some(c.variantDto.attributes)
      else if c.VariantUpdate? && c.id == id then c.variantChange.attributes
      else None
  }

  function VariantProduct(id: Id): Command -> Option<Id> {
    (c: Command) => if c.VariantCreate? && c.newId == id then Some(c.product) else None
  }

  function VariantTenant(id: Id): Command -> Option<Id> {
    (c: Command) => if c.VariantCreate? && c.newId == id then Some(c.tenant) else None
  }

  function VariantDeleted(id: Id): Command -> Option<bool> {
    (c: Command) =>
      if c.VariantCreate? && c.newId == id then Some(false)
      else if c.VariantRemove? && c.id == id then Some(true)
      else None
  }

  // ---------------------------------------------------------------------------------------------
  // One command
  // ---------------------------------------------------------------------------------------------

  /** A column after a command: what the command gives if it is accepted and gives something, else as before. */
  function Next<T>(accepted: bool, given: Option<T>, before: Option<T>): Option<T> {
    if accepted && given.Some? then given else before
  }

  /** The row with an identifier, if there is one. */
  function CategoryRow(db: Db, id: Id): Option<Category> {
    if id in db.categories then Some(db.categories[id]) else None
  }

  function ProductRow(db: Db, id: Id): Option<Product> {
    if id in db.products then Some(db.products[id]) else None
  }

  function VariantRow(db: Db, id: Id): Option<Variant> {
    if id in db.variants then Some(db.variants[id]) else None
  }

  function NameOfCategory(row: Option<Category>): Option<string> {
    if row.Some? then Some(row.value.name) else None
  }

  function SlugOfCategory(row: Option<Category>): Option<string> {
    if row.Some? then Some(row.value.slug) else None
  }

  function ParentOfCategory(row: Option<Category>): Option<Option<Id>> {
    if row.Some? then Some(row.value.parent) else None
  }

  function TenantOfCategory(row: Option<Category>): Option<Id> {
    if row.Some? then Some(row.value.tenant) else None
  }

  function DeletedOfCategory(row: Option<Category>): Option<bool> {
    if row.Some? then Some(row.value.deleted) else None
  }

  function NameOfProduct(row: Option<Product>): Option<string> {
    if row.Some? then Some(row.value.name) else None
  }

  function DescriptionOfProduct(row: Option<Product>): Option<Option<string>> {
    if row.Some? then Some(row.value.description) else None
  }

  function CategoryOfProduct(row: Option<Product>): Option<Id> {
    if row.Some? then Some(row.value.category) else None
  }

  function ActiveOfProduct(row: Option<Product>): Option<bool> {
    if row.Some? then Some(row.value.isActive) else None
  }

  function PrefixOfProduct(row: Option<Product>): Option<string> {
    if row.Some? then Some(row.value.skuPrefix) else None
  }

  function TenantOfProduct(row: Option<Product>): Option<Id> {
    if row.Some? then Some(row.value.tenant) else None
  }

  function DeletedOfProduct(row: Option<Product>): Option<bool> {
    if row.Some? then Some(row.value.deleted) else None
  }

  function SkuOfVariant(row: Option<Variant>): Option<string> {
    if row.Some? then Some(row.value.sku) else None
  }

  function PriceOfVariant(row: Option<Variant>): Option<int> {
    if row.Some? then Some(row.value.price) else None
  }

  function AttributesOfVariant(row: Option<Variant>): Option<map<string, string>> {
    if row.Some? then Some(row.value.attributes) else None
  }

  function ProductOfVariant(row: Option<Variant>): Option<Id> {
    if row.Some? then Some(row.value.product) else None
  }

  function TenantOfVariant(row: Option<Variant>): Option<Id> {
    if row.Some? then Some(row.value.tenant) else None
  }

  function DeletedOfVariant(row: Option<Variant>): Option<bool> {
    if row.Some? then Some(row.value.deleted) else None
  }

  /** Every column of the row is what the command gives for it, if it is accepted, or as before. */
  ghost predicate CategoryTakes(
    unicode: Slug.Unicode, id: Id, c: Command, accepted: bool, before: Option<Category>, after: Option<Category>)
  {
    && NameOfCategory(after) == Next(accepted, CategoryName(id)(c), NameOfCategory(before))
    && SlugOfCategory(after) == Next(accepted, CategorySlug(unicode, id)(c), SlugOfCategory(before))
    && ParentOfCategory(after) == Next(accepted, CategoryParent(id)(c), ParentOfCategory(before))
    && TenantOfCategory(after) == Next(accepted, CategoryTenant(id)(c), TenantOfCategory(before))
    && DeletedOfCategory(after) == Next(accepted, CategoryDeleted(id)(c), DeletedOfCategory(before))
  }

  /** Every column of the row is what the command gives for it, if it is accepted, or as before. */
  ghost predicate ProductTakes(
    id: Id, c: Command, accepted: bool, before: Option<Product>, after: Option<Product>)
  {
    && NameOfProduct(after) == Next(accepted, ProductName(id)(c), NameOfProduct(before))
    && DescriptionOfProduct(after) == Next(accepted, ProductDescription(id)(c), DescriptionOfProduct(before))
    && CategoryOfProduct(after) == Next(accepted, ProductCategory(id)(c), CategoryOfProduct(before))
    && ActiveOfProduct(after) == Next(accepted, ProductActive(id)(c), ActiveOfProduct(before))
    && PrefixOfProduct(after) == Next(accepted, ProductPrefix(id)(c), PrefixOfProduct(before))
    && TenantOfProduct(after) == Next(accepted, ProductTenant(id)(c), TenantOfProduct(before))
    && DeletedOfProduct(after) == Next(accepted, ProductDeleted(id)(c), DeletedOfProduct(before))
  }

  /** Every column of the row is what the command gives for it, if it is accepted, or as before. */
  ghost predicate VariantTakes(
    id: Id, c: Command, accepted: bool, before: Option<Variant>, after: Option<Variant>)
  {
    && SkuOfVariant(after) == Next(accepted, VariantSku(id)(c), SkuOfVariant(before))
    && PriceOfVariant(after) == Next(accepted, VariantPrice(id)(c), PriceOfVariant(before))
    && AttributesOfVariant(after) == Next(accepted, VariantAttributes(id)(c), AttributesOfVariant(before))
    && ProductOfVariant(after) == Next(accepted, VariantProduct(id)(c), ProductOfVariant(before))
    && TenantOfVariant(after) == Next(accepted, VariantTenant(id)(c), TenantOfVariant(before))
    && DeletedOfVariant(after) == Next(accepted, VariantDeleted(id)(c), DeletedOfVariant(before))
  }

  lemma NoCategoryIsGiven(unicode: Slug.Unicode, id: Id, c: Command, row: Option<Category>)
    requires !(c.CategoryCreate? || c.CategoryUpdate? || c.CategoryRemove?)
    ensures CategoryTakes(unicode, id, c, true, row, row)
  {
  }

  lemma NoProductIsGiven(id: Id, c: Command, row: Option<Product>)
    requires !(c.ProductCreate? || c.ProductUpdate? || c.ProductRemove?)
    ensures ProductTakes(id, c, true, row, row)
  {
  }

  lemma NoVariantIsGiven(id: Id, c: Command, row: Option<Variant>)
    requires !(c.VariantCreate? || c.VariantUpdate? || c.VariantRemove?)
    ensures VariantTakes(id, c, true, row, row)
  {
  }

  lemma RefusedTakesNothing(unicode: Slug.Unicode, id: Id, c: Command, category: Option<Category>,
                            product: Option<Product>, variant: Option<Variant>)
    ensures CategoryTakes(unicode, id, c, false, category, category)
    ensures ProductTakes(id, c, false, product, product)
    ensures VariantTakes(id, c, false, variant, variant)
  {
  }

  lemma CategoryCreateTakes(unicode: Slug.Unicode, db: Db, tenant: Id, dto: CreateCategoryDto, newId: Id, id: Id)
    requires newId !in db.categories && CreateCategory(unicode, db, tenant, dto, newId).1.Ok?
    ensures
      var db' := CreateCategory(unicode, db, tenant, dto, newId).0;
      CategoryTakes(unicode, id, CategoryCreate(tenant, dto, newId), true, CategoryRow(db, id), CategoryRow(db', id))
  {
  }

  /** The columns of an updated row. */
  lemma UpdatedColumns(unicode: Slug.Unicode, row: Category, dto: UpdateCategoryDto, tenant: Id)
    ensures
      var target := Renamed(unicode, row, dto);
      CategoryTakes(
        unicode, row.id, CategoryUpdate(tenant, row.id, dto), true, Some(row),
        Some(target.(parent := NewParent(dto, target.parent))))
  {
  }

  lemma CategoryUpdateTakes(unicode: Slug.Unicode, db: Db, tenant: Id, target: Id, dto: UpdateCategoryDto, id: Id)
    requires Keyed(db) && UpdateCategory(unicode, db, tenant, target, dto).1.Ok?
    ensures
      var db' := UpdateCategory(unicode, db, tenant, target, dto).0;
      CategoryTakes(unicode, id, CategoryUpdate(tenant, target, dto), true, CategoryRow(db, id), CategoryRow(db', id))
  {
    var row := UpdateCategory(unicode, db, tenant, target, dto).1.value;
    RenamedKeepsTheRest(unicode, db.categories[target], dto);
    assert UpdateCategory(unicode, db, tenant, target, dto).0.categories == db.categories[target := row];
    UpdatedColumns(unicode, db.categories[target], dto, tenant);
  }

  lemma CategoryRemoveTakes(unicode: Slug.Unicode, db: Db, tenant: Id, target: Id, id: Id)
    requires RemoveCategory(db, tenant, target).1.Ok?
    ensures
      var db' := RemoveCategory(db, tenant, target).0;
      CategoryTakes(unicode, id, CategoryRemove(tenant, target), true, CategoryRow(db, id), CategoryRow(db', id))
  {
  }

  lemma ProductCreateTakes(db: Db, tenant: Id, dto: CreateProductDto, newId: Id, id: Id)
    requires newId !in db.products && CreateProduct(db, tenant, dto, newId).1.Ok?
    ensures
      var db' := CreateProduct(db, tenant, dto, newId).0;
      ProductTakes(id, ProductCreate(tenant, dto, newId), true, ProductRow(db, id), ProductRow(db', id))
  {
  }

  lemma ProductUpdateTakes(db: Db, tenant: Id, target: Id, dto: UpdateProductDto, id: Id)
    requires Keyed(db) && UpdateProduct(db, tenant, target, dto).1.Ok?
    ensures
      var db' := UpdateProduct(db, tenant, target, dto).0;
      ProductTakes(id, ProductUpdate(tenant, target, dto), true, ProductRow(db, id), ProductRow(db', id))
  {
  }

  lemma ProductRemoveTakes(db: Db, tenant: Id, target: Id, id: Id)
    requires RemoveProduct(db, tenant, target).1.Ok?
    ensures
      var db' := RemoveProduct(db, tenant, target).0;
      ProductTakes(id, ProductRemove(tenant, target), true, ProductRow(db, id), ProductRow(db', id))
  {
  }

  lemma VariantCreateTakes(db: Db, tenant: Id, product: Id, dto: CreateVariantDto, newId: Id, id: Id)
    requires newId !in db.variants && CreateVariant(db, tenant, product, dto, newId).1.Ok?
    ensures
      var db' := CreateVariant(db, tenant, product, dto, newId).0;
      VariantTakes(id, VariantCreate(tenant, product, dto, newId), true, VariantRow(db, id), VariantRow(db', id))
  {
  }

  lemma VariantUpdateTakes(db: Db, tenant: Id, product: Id, target: Id, dto: UpdateVariantDto, id: Id)
    requires Keyed(db) && UpdateVariant(db, tenant, product, target, dto).1.Ok?
    ensures
      var db' := UpdateVariant(db, tenant, product, target, dto).0;
      VariantTakes(id, VariantUpdate(tenant, product, target, dto), true, VariantRow(db, id), VariantRow(db', id))
  {
  }

  lemma VariantRemoveTakes(db: Db, tenant: Id, product: Id, target: Id, id: Id)
    requires RemoveVariant(db, tenant, product, target).1.Ok?
    ensures
      var db' := RemoveVariant(db, tenant, product, target).0;
      VariantTakes(id, VariantRemove(tenant, product, target), true, VariantRow(db, id), VariantRow(db', id))
  {
  }

  lemma CategoryCommandTakes(unicode: Slug.Unicode, db: Db, c: Command, id: Id)
    requires Keyed(db) && FreshId(db, c) && IsAccepted(unicode, db, c)
    requires c.CategoryCreate? || c.CategoryUpdate? || c.CategoryRemove?
    ensures CategoryTakes(unicode, id, c, true, CategoryRow(db, id), CategoryRow(Execute(unicode, db, c), id))
  {
    match c
    case CategoryCreate(tenant, dto, newId) => CategoryCreateTakes(unicode, db, tenant, dto, newId, id);
    case CategoryUpdate(tenant, target, dto) => CategoryUpdateTakes(unicode, db, tenant, target, dto, id);
    case CategoryRemove(tenant, target) => CategoryRemoveTakes(unicode, db, tenant, target, id);
  }

  lemma ProductCommandTakes(unicode: Slug.Unicode, db: Db, c: Command, id: Id)
    requires Keyed(db) && FreshId(db, c) && IsAccepted(unicode, db, c)
    requires c.ProductCreate? || c.ProductUpdate? || c.ProductRemove?
    ensures ProductTakes(id, c, true, ProductRow(db, id), ProductRow(Execute(unicode, db, c), id))
  {
    match c
    case ProductCreate(tenant, dto, newId) => ProductCreateTakes(db, tenant, dto, newId, id);
    case ProductUpdate(tenant, target, dto) => ProductUpdateTakes(db, tenant, target, dto, id);
    case ProductRemove(tenant, target) => ProductRemoveTakes(db, tenant, target, id);
  }

  lemma VariantCommandTakes(unicode: Slug.Unicode, db: Db, c: Command, id: Id)
    requires Keyed(db) && FreshId(db, c) && IsAccepted(unicode, db, c)
    requires c.VariantCreate? || c.VariantUpdate? || c.VariantRemove?
    ensures VariantTakes(id, c, true, VariantRow(db, id), VariantRow(Execute(unicode, db, c), id))
  {
    match c
    case VariantCreate(tenant, product, dto, newId) => VariantCreateTakes(db, tenant, product, dto, newId, id);
    case VariantUpdate(tenant, product, target, dto) => VariantUpdateTakes(db, tenant, product, target, dto, id);
    case VariantRemove(tenant, product, target) => VariantRemoveTakes(db, tenant, product, target, id);
  }

  lemma CommandTouchesOneTable(unicode: Slug.Unicode, db: Db, c: Command)
    ensures !(c.CategoryCreate? || c.CategoryUpdate? || c.CategoryRemove?) ==> Execute(unicode, db, c).categories == db.categories
    ensures !(c.ProductCreate? || c.ProductUpdate? || c.ProductRemove?) ==> Execute(unicode, db, c).products == db.products
    ensures !(c.VariantCreate? || c.VariantUpdate? || c.VariantRemove?) ==> Execute(unicode, db, c).variants == db.variants
  {
  }

  lemma CommandTakes(unicode: Slug.Unicode, db: Db, c: Command, id: Id)
    requires Keyed(db) && FreshId(db, c)
    ensures
      var (db', accepted) := (Execute(unicode, db, c), Refusal(unicode, db, c) == None);
      && CategoryTakes(unicode, id, c, accepted, CategoryRow(db, id), CategoryRow(db', id))
      && ProductTakes(id, c, accepted, ProductRow(db, id), ProductRow(db', id))
      && VariantTakes(id, c, accepted, VariantRow(db, id), VariantRow(db', id))
  {
    RefusalsAreExact(unicode, db, c);
    CommandTouchesOneTable(unicode, db, c);
    if Refusal(unicode, db, c) == None {
      if c.CategoryCreate? || c.CategoryUpdate? || c.CategoryRemove? {
        CategoryCommandTakes(unicode, db, c, id);
        NoProductIsGiven(id, c, ProductRow(db, id));
        NoVariantIsGiven(id, c, VariantRow(db, id));
      } else if c.ProductCreate? || c.ProductUpdate? || c.ProductRemove? {
        NoCategoryIsGiven(unicode, id, c, CategoryRow(db, id));
        ProductCommandTakes(unicode, db, c, id);
        NoVariantIsGiven(id, c, VariantRow(db, id));
      } else {
        NoCategoryIsGiven(unicode, id, c, CategoryRow(db, id));
        NoProductIsGiven(id, c, ProductRow(db, id));
        VariantCommandTakes(unicode, db, c, id);
      }
    } else {
      RefusedTakesNothing(unicode, id, c, CategoryRow(db, id), ProductRow(db, id), VariantRow(db, id));
    }
  }

  // ---------------------------------------------------------------------------------------------
  // Whole runs
  // ---------------------------------------------------------------------------------------------

  /** What the last accepted command that gives something gives, or what there was at the start. */
  function LastGiven<T>(unicode: Slug.Unicode, db: Db, commands: seq<Command>, given: Command -> Option<T>, start: Option<T>): Option<T> {
    if commands == [] then start
    else
      var before, last := commands[..|commands| - 1], commands[|commands| - 1];
      Next(Refusal(unicode, Run(unicode, db, before), last) == None, given(last), LastGiven(unicode, db, before, given, start))
  }

  ghost predicate CategoryHolds(unicode: Slug.Unicode, db: Db, commands: seq<Command>, id: Id, start: Option<Category>, now: Option<Category>) {
    && NameOfCategory(now) == LastGiven(unicode, db, commands, CategoryName(id), NameOfCategory(start))
    && SlugOfCategory(now) == LastGiven(unicode, db, commands, CategorySlug(unicode, id), SlugOfCategory(start))
    && ParentOfCategory(now) == LastGiven(unicode, db, commands, CategoryParent(id), ParentOfCategory(start))
    && TenantOfCategory(now) == LastGiven(unicode, db, commands, CategoryTenant(id), TenantOfCategory(start))
    && DeletedOfCategory(now) == LastGiven(unicode, db, commands, CategoryDeleted(id), DeletedOfCategory(start))
  }

  ghost predicate ProductHolds(unicode: Slug.Unicode, db: Db, commands: seq<Command>, id: Id, start: Option<Product>, now: Option<Product>) {
    && NameOfProduct(now) == LastGiven(unicode, db, commands, ProductName(id), NameOfProduct(start))
    && DescriptionOfProduct(now) == LastGiven(unicode, db, commands, ProductDescription(id), DescriptionOfProduct(start))
    && CategoryOfProduct(now) == LastGiven(unicode, db, commands, ProductCategory(id), CategoryOfProduct(start))
    && ActiveOfProduct(now) == LastGiven(unicode, db, commands, ProductActive(id), ActiveOfProduct(start))
    && PrefixOfProduct(now) == LastGiven(unicode, db, commands, ProductPrefix(id), PrefixOfProduct(start))
    && TenantOfProduct(now) == LastGiven(unicode, db, commands, ProductTenant(id), TenantOfProduct(start))
    && DeletedOfProduct(now) == LastGiven(unicode, db, commands, ProductDeleted(id), DeletedOfProduct(start))
  }

  ghost predicate VariantHolds(unicode: Slug.Unicode, db: Db, commands: seq<Command>, id: Id, start: Option<Variant>, now: Option<Variant>) {
    && SkuOfVariant(now) == LastGiven(unicode, db, commands, VariantSku(id), SkuOfVariant(start))
    && PriceOfVariant(now) == LastGiven(unicode, db, commands, VariantPrice(id), PriceOfVariant(start))
    && AttributesOfVariant(now) == LastGiven(unicode, db, commands, VariantAttributes(id), AttributesOfVariant(start))
    && ProductOfVariant(now) == LastGiven(unicode, db, commands, VariantProduct(id), ProductOfVariant(start))
    && TenantOfVariant(now) == LastGiven(unicode, db, commands, VariantTenant(id), TenantOfVariant(start))
    && DeletedOfVariant(now) == LastGiven(unicode, db, commands, VariantDeleted(id), DeletedOfVariant(start))
  }

  lemma CategoryOneMore(unicode: Slug.Unicode, db: Db, commands: seq<Command>, id: Id, start: Option<Category>, now: Option<Category>, next: Option<Category>)
    requires commands != []
    requires CategoryHolds(unicode, db, commands[..|commands| - 1], id, start, now)
    requires
      var s := Run(unicode, db, commands[..|commands| - 1]);
      var c := commands[|commands| - 1];
      CategoryTakes(unicode, id, c, Refusal(unicode, s, c) == None, now, next)
    ensures CategoryHolds(unicode, db, commands, id, start, next)
  {
  }

  lemma ProductOneMore(unicode: Slug.Unicode, db: Db, commands: seq<Command>, id: Id, start: Option<Product>, now: Option<Product>, next: Option<Product>)
    requires commands != []
    requires ProductHolds(unicode, db, commands[..|commands| - 1], id, start, now)
    requires
      var s := Run(unicode, db, commands[..|commands| - 1]);
      var c := commands[|commands| - 1];
      ProductTakes(id, c, Refusal(unicode, s, c) == None, now, next)
    ensures ProductHolds(unicode, db, commands, id, start, next)
  {
  }

  lemma VariantOneMore(unicode: Slug.Unicode, db: Db, commands: seq<Command>, id: Id, start: Option<Variant>, now: Option<Variant>, next: Option<Variant>)
    requires commands != []
    requires VariantHolds(unicode, db, commands[..|commands| - 1], id, start, now)
    requires
      var s := Run(unicode, db, commands[..|commands| - 1]);
      var c := commands[|commands| - 1];
      VariantTakes(id, c, Refusal(unicode, s, c) == None, now, next)
    ensures VariantHolds(unicode, db, commands, id, start, next)
  {
  }

  /**
   * After any run every column of every row is the value that the last accepted command gave it,
   * counting the creation, and what it was at the start if no accepted command gave it any.
   */
  lemma {:induction false} ColumnsHoldTheLastGivenValue(unicode: Slug.Unicode, db: Db, commands: seq<Command>, id: Id)
    requires Integrity(db) && FreshIds(unicode, db, commands)
    ensures CategoryHolds(unicode, db, commands, id, CategoryRow(db, id), CategoryRow(Run(unicode, db, commands), id))
    ensures ProductHolds(unicode, db, commands, id, ProductRow(db, id), ProductRow(Run(unicode, db, commands), id))
    ensures VariantHolds(unicode, db, commands, id, VariantRow(db, id), VariantRow(Run(unicode, db, commands), id))
  {
    if commands != [] {
      FreshPrefix(unicode, db, commands);
      var before, c := commands[..|commands| - 1], commands[|commands| - 1];
      ColumnsHoldTheLastGivenValue(unicode, db, before, id);
      RunKeepsIntegrity(unicode, db, before);
      var s := Run(unicode, db, before);
      var s' := Execute(unicode, s, c);
      CommandTakes(unicode, s, c, id);
      CategoryOneMore(unicode, db, commands, id, CategoryRow(db, id), CategoryRow(s, id), CategoryRow(s', id));
      ProductOneMore(unicode, db, commands, id, ProductRow(db, id), ProductRow(s, id), ProductRow(s', id));
      VariantOneMore(unicode, db, commands, id, VariantRow(db, id), VariantRow(s, id), VariantRow(s', id));
    }
  }
}
