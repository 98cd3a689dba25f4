/** What every serial run of catalogue operations keeps. */
module CatalogIntegrity {
  import opened Common
  import opened CatalogModel
  import opened CatalogDb
  import Slug

  ghost predicate Keyed(db: Db) {
    && (forall id :: id in db.categories ==> db.categories[id].id == id && id != "")
    && (forall id :: id in db.products ==> db.products[id].id == id && id != "")
    && (forall id :: id in db.variants ==> db.variants[id].id == id && id != "")
  }

  /** Every live category's parent is another live category of the same tenant. */
  ghost predicate ParentsAreLive(db: Db) {
    forall id :: id in db.categories && !db.categories[id].deleted && db.categories[id].parent.Some? ==>
      db.categories[id].parent.value != id
      && IsLiveCategory(db, db.categories[id].tenant, db.categories[id].parent.value)
  }

  ghost predicate NamesAreUnique(db: Db) {
    forall a, b :: a in db.categories && b in db.categories && a != b && db.categories[a].tenant == db.categories[b].tenant ==>
      db.categories[a].slug != db.categories[b].slug && db.categories[a].name != db.categories[b].name
  }

  ghost predicate SlugsAreNormal(db: Db) {
    forall id :: id in db.categories ==> db.categories[id].slug == "" || Slug.IsSlug(db.categories[id].slug)
  }

  /** Every live variant belongs to a live product of its own tenant. */
  ghost predicate VariantsHaveProducts(db: Db) {
    forall id :: id in db.variants && !db.variants[id].deleted ==>
      IsLiveProduct(db, db.variants[id].tenant, db.variants[id].product)
  }

  predicate ClashingPrefixes(a: Product, b: Product) {
    a.tenant == b.tenant && !a.deleted && !b.deleted && a.skuPrefix == b.skuPrefix
  }

  ghost predicate PrefixesAreUnique(db: Db) {
    forall a, b :: a in db.products && b in db.products && a != b ==> !ClashingPrefixes(db.products[a], db.products[b])
  }

  ghost predicate SkusAreUnique(db: Db) {
    forall a, b :: a in db.variants && b in db.variants && a != b && db.variants[a].tenant == db.variants[b].tenant ==>
      db.variants[a].sku != db.variants[b].sku
  }

  ghost predicate Integrity(db: Db) {
    && Keyed(db)
    && ParentsAreLive(db)
    && NamesAreUnique(db)
    && SlugsAreNormal(db)
    && VariantsHaveProducts(db)
    && PrefixesAreUnique(db)
    && SkusAreUnique(db)
  }

  // ---------------------------------------------------------------------------------------------
  // One operation
  // ---------------------------------------------------------------------------------------------

  lemma ParentsStayLive(db: Db, row: Category)
    requires ParentsAreLive(db) && !row.deleted
    requires row.id in db.categories ==> row.tenant == db.categories[row.id].tenant
    requires row.parent.Some? ==> row.parent.value != row.id && IsLiveCategory(db, row.tenant, row.parent.value)
    ensures ParentsAreLive(db.(categories := db.categories[row.id := row]))
  {
  }

  lemma NamesStayUnique(db: Db, row: Category)
    requires NamesAreUnique(db) && !ViolatesCategoryConstraints(db, row)
    ensures NamesAreUnique(db.(categories := db.categories[row.id := row]))
  {
  }

  lemma SaveCategoryKeeps(db: Db, row: Category)
    requires Integrity(db) && row.id != "" && !row.deleted
    requires row.id in db.categories ==> row.tenant == db.categories[row.id].tenant && !db.categories[row.id].deleted
    requires row.parent.Some? ==> row.parent.value != row.id && IsLiveCategory(db, row.tenant, row.parent.value)
    requires row.slug == "" || Slug.IsSlug(row.slug)
    ensures Integrity(SaveCategory(db, row).0)
  {
    if !ViolatesCategoryConstraints(db, row) {
      ParentsStayLive(db, row);
      NamesStayUnique(db, row);
    }
  }

  lemma CreateCategoryKeeps(unicode: Slug.Unicode, db: Db, tenant: Id, dto: CreateCategoryDto, newId: Id)
    requires Integrity(db) && newId != "" && newId !in db.categories
    ensures Integrity(CreateCategory(unicode, db, tenant, dto, newId).0)
  {
    var text := if Truthy(dto.slug) then dto.slug.value else dto.name;
    var slug := Slug.GenerateSlug(unicode, text);
    Slug.SlugNormalForm(unicode, text);
    if !SlugTaken(db, tenant, slug, None) && !(Truthy(dto.parentId) && !IsLiveCategory(db, tenant, dto.parentId.value)) {
      SaveCategoryKeeps(db, Category(newId, tenant, dto.name, slug, if Truthy(dto.parentId) then dto.parentId else None, false));
    }
  }

  lemma RenamedIsNormal(unicode: Slug.Unicode, row: Category, dto: UpdateCategoryDto)
    requires row.slug == "" || Slug.IsSlug(row.slug)
    ensures
      var target := Renamed(unicode, row, dto);
      && (target.slug == "" || Slug.IsSlug(target.slug))
      && target == row.(name := target.name, slug := target.slug)
  {
    if Truthy(dto.slug) {
      Slug.SlugNormalForm(unicode, dto.slug.value);
    } else if Truthy(dto.name) {
      Slug.SlugNormalForm(unicode, dto.name.value);
    }
  }

  lemma UpdateCategoryKeeps(unicode: Slug.Unicode, db: Db, tenant: Id, id: Id, dto: UpdateCategoryDto)
    requires Integrity(db)
    ensures Integrity(UpdateCategory(unicode, db, tenant, id, dto).0)
  {
    if IsLiveCategory(db, tenant, id) {
      RenamedIsNormal(unicode, db.categories[id], dto);
      var target := Renamed(unicode, db.categories[id], dto);
      if dto.parentId != Value(id)
        && !(dto.parentId.Value? && dto.parentId.value != "" && !IsLiveCategory(db, tenant, dto.parentId.value)) {
        SaveCategoryKeeps(db, target.(parent := NewParent(dto, target.parent)));
      }
    }
  }

  lemma RemoveCategoryKeeps(db: Db, tenant: Id, id: Id)
    requires Integrity(db)
    ensures Integrity(RemoveCategory(db, tenant, id).0)
  {
    var db' := RemoveCategory(db, tenant, id).0;
    if IsLiveCategory(db, tenant, id) && !HasLiveChildren(db, tenant, id) {
      forall c | c in db'.categories && !db'.categories[c].deleted && db'.categories[c].parent.Some?
        ensures db'.categories[c].parent.value != c
        ensures IsLiveCategory(db', db'.categories[c].tenant, db'.categories[c].parent.value)
      {
        assert IsLiveCategory(db, db.categories[c].tenant, c);
        assert IsLiveCategory(db, db.categories[c].tenant, db.categories[c].parent.value);
        assert db.categories[c].parent.value != id;
      }
    }
  }

  /** Saving a product that keeps its tenant, and whose prefix is its own or free. */
  lemma SaveProductKeeps(db: Db, row: Product)
    requires Integrity(db) && row.id != "" && !row.deleted
    requires row.id in db.products ==>
      row.tenant == db.products[row.id].tenant && !db.products[row.id].deleted && row.skuPrefix == db.products[row.id].skuPrefix
    requires row.id !in db.products ==> !PrefixTaken(db, row.tenant, row.skuPrefix)
    ensures Integrity(SaveProduct(db, row).0)
  {
    var db' := SaveProduct(db, row).0;
    forall a, b | a in db'.products && b in db'.products && a != b ensures !ClashingPrefixes(db'.products[a], db'.products[b]) {
      if a in db.products && b in db.products {
        assert !ClashingPrefixes(db.products[a], db.products[b]);
      } else if row.id !in db.products {
        assert forall id :: id in db.products && IsLiveProduct(db, row.tenant, id) ==> db.products[id].skuPrefix != row.skuPrefix;
        assert a in db.products ==> !db.products[a].deleted ==> IsLiveProduct(db, db.products[a].tenant, a);
        assert b in db.products ==> !db.products[b].deleted ==> IsLiveProduct(db, db.products[b].tenant, b);
      }
    }
    forall v | v in db'.variants && !db'.variants[v].deleted
      ensures IsLiveProduct(db', db'.variants[v].tenant, db'.variants[v].product)
    {
      assert IsLiveProduct(db, db.variants[v].tenant, db.variants[v].product);
    }
  }

  lemma RemoveProductKeeps(db: Db, tenant: Id, id: Id)
    requires Integrity(db)
    ensures Integrity(RemoveProduct(db, tenant, id).0)
  {
    var db' := RemoveProduct(db, tenant, id).0;
    if IsLiveProduct(db, tenant, id) && !HasLiveVariants(db, tenant, id) {
      forall v | v in db'.variants && !db'.variants[v].deleted
        ensures IsLiveProduct(db', db'.variants[v].tenant, db'.variants[v].product)
      {
        assert IsLiveProduct(db, db.variants[v].tenant, db.variants[v].product);
        assert IsLiveVariant(db, db.variants[v].tenant, v);
      }
      forall a, b | a in db'.products && b in db'.products && a != b ensures !ClashingPrefixes(db'.products[a], db'.products[b]) {
        assert !ClashingPrefixes(db.products[a], db.products[b]);
      }
    }
  }

  lemma SkusStayUnique(db: Db, row: Variant)
    requires SkusAreUnique(db) && !ViolatesVariantConstraint(db, row)
    ensures SkusAreUnique(db.(variants := db.variants[row.id := row]))
  {
  }

  /** Saving a variant of a live product. */
  lemma SaveVariantKeeps(db: Db, row: Variant)
    requires Integrity(db) && row.id != ""
    requires IsLiveProduct(db, row.tenant, row.product)
    ensures Integrity(SaveVariant(db, row).0)
  {
    if ViolatesVariantConstraint(db, row) {
      return;
    }
    var db' := SaveVariant(db, row).0;
    SkusStayUnique(db, row);
    forall v | v in db'.variants && !db'.variants[v].deleted
      ensures IsLiveProduct(db', db'.variants[v].tenant, db'.variants[v].product)
    {
      assert v != row.id ==> IsLiveProduct(db, db.variants[v].tenant, db.variants[v].product);
    }
  }

  lemma RemoveVariantKeeps(db: Db, tenant: Id, product: Id, id: Id)
    requires Integrity(db)
    ensures Integrity(RemoveVariant(db, tenant, product, id).0)
  {
    var db' := RemoveVariant(db, tenant, product, id).0;
    forall v | v in db'.variants && !db'.variants[v].deleted
      ensures IsLiveProduct(db', db'.variants[v].tenant, db'.variants[v].product)
    {
      assert IsLiveProduct(db, db.variants[v].tenant, db.variants[v].product);
    }
  }

  lemma CreateProductKeeps(db: Db, tenant: Id, dto: CreateProductDto, newId: Id)
    requires Integrity(db) && newId != "" && newId !in db.products
    ensures Integrity(CreateProduct(db, tenant, dto, newId).0)
  {
    if IsLiveCategory(db, tenant, dto.categoryId) && !PrefixTaken(db, tenant, dto.skuPrefix) {
      SaveProductKeeps(
        db, Product(newId, tenant, dto.categoryId, dto.name, dto.description, dto.skuPrefix, dto.isActive, false));
    }
  }

  lemma UpdateProductKeeps(db: Db, tenant: Id, id: Id, dto: UpdateProductDto)
    requires Integrity(db)
    ensures Integrity(UpdateProduct(db, tenant, id, dto).0)
  {
    if IsLiveProduct(db, tenant, id) {
      SaveProductKeeps(db, Edited(db.products[id], dto));
    }
  }

  lemma CreateVariantKeeps(db: Db, tenant: Id, product: Id, dto: CreateVariantDto, newId: Id)
    requires Integrity(db) && newId != ""
    ensures Integrity(CreateVariant(db, tenant, product, dto, newId).0)
  {
    if IsLiveProduct(db, tenant, product) {
      SaveVariantKeeps(db, Variant(newId, tenant, product, dto.sku, dto.price, dto.attributes, false));
    }
  }

  lemma UpdateVariantKeeps(db: Db, tenant: Id, product: Id, id: Id, dto: UpdateVariantDto)
    requires Integrity(db)
    ensures Integrity(UpdateVariant(db, tenant, product, id, dto).0)
  {
    if FindVariant(db, tenant, product, id).Ok? {
      SaveVariantKeeps(db, EditedVariant(db.variants[id], dto));
    }
  }

  lemma ExecuteKeepsIntegrity(unicode: Slug.Unicode, db: Db, command: Command)
    requires Integrity(db) && FreshId(db, command)
    ensures Integrity(Execute(unicode, db, command))
  {
    match command
    case CategoryCreate(tenant, dto, newId) => CreateCategoryKeeps(unicode, db, tenant, dto, newId);
    case CategoryUpdate(tenant, id, dto) => UpdateCategoryKeeps(unicode, db, tenant, id, dto);
    case CategoryRemove(tenant, id) => RemoveCategoryKeeps(db, tenant, id);
    case ProductCreate(tenant, dto, newId) => CreateProductKeeps(db, tenant, dto, newId);
    case ProductUpdate(tenant, id, dto) => UpdateProductKeeps(db, tenant, id, dto);
    case ProductRemove(tenant, id) => RemoveProductKeeps(db, tenant, id);
    case VariantCreate(tenant, product, dto, newId) => CreateVariantKeeps(db, tenant, product, dto, newId);
    case VariantUpdate(tenant, product, id, dto) => UpdateVariantKeeps(db, tenant, product, id, dto);
    case VariantRemove(tenant, product, id) => RemoveVariantKeeps(db, tenant, product, id);
  }

  lemma FreshPrefix(unicode: Slug.Unicode, db: Db, commands: seq<Command>)
    requires commands != [] && FreshIds(unicode, db, commands)
    ensures
      var n := |commands| - 1;
      FreshIds(unicode, db, commands[..n]) && FreshId(Run(unicode, db, commands[..n]), commands[n])
  {
    var prefix := commands[..|commands| - 1];
    forall i | 0 <= i < |prefix| ensures FreshId(Run(unicode, db, prefix[..i]), prefix[i]) {
      assert prefix[..i] == commands[..i];
    }
  }

  /** Every serial run keeps the catalogue's integrity. */
  lemma {:induction false} RunKeepsIntegrity(unicode: Slug.Unicode, db: Db, commands: seq<Command>)
    requires Integrity(db) && FreshIds(unicode, db, commands)
    ensures Integrity(Run(unicode, db, commands))
  {
    if commands != [] {
      FreshPrefix(unicode, db, commands);
      var prefix := commands[..|commands| - 1];
      RunKeepsIntegrity(unicode, db, prefix);
      ExecuteKeepsIntegrity(unicode, Run(unicode, db, prefix), commands[|commands| - 1]);
    }
  }

  // ---------------------------------------------------------------------------------------------
  // What never changes
  // ---------------------------------------------------------------------------------------------

  ghost predicate ProductsEvolve(products: map<Id, Product>, products': map<Id, Product>) {
    forall id :: id in products ==>
      && id in products'
      && products'[id].skuPrefix == products[id].skuPrefix
      && products'[id].tenant == products[id].tenant
      && (products[id].deleted ==> products'[id] == products[id])
  }

  ghost predicate VariantsEvolve(variants: map<Id, Variant>, variants': map<Id, Variant>) {
    forall id :: id in variants ==>
      && id in variants'
      && variants'[id].product == variants[id].product
      && variants'[id].tenant == variants[id].tenant
      && (variants[id].deleted ==> variants'[id] == variants[id])
  }

  ghost predicate CategoriesEvolve(categories: map<Id, Category>, categories': map<Id, Category>) {
    forall id :: id in categories ==>
      && id in categories'
      && categories'[id].tenant == categories[id].tenant
      && (categories[id].deleted ==> categories'[id] == categories[id])
  }

  /** Rows stay; a product keeps its prefix and tenant, a variant its product and tenant, a deletion is final. */
  ghost predicate Evolves(db: Db, db': Db) {
    && ProductsEvolve(db.products, db'.products)
    && VariantsEvolve(db.variants, db'.variants)
    && CategoriesEvolve(db.categories, db'.categories)
  }

  lemma EverythingStays(db: Db)
    ensures Evolves(db, db)
  {
  }

  lemma SaveCategoryEvolves(db: Db, row: Category)
    requires row.id in db.categories ==> db.categories[row.id].tenant == row.tenant && !db.categories[row.id].deleted
    ensures Evolves(db, SaveCategory(db, row).0)
  {
    EverythingStays(db);
  }

  lemma CreateCategoryEvolves(unicode: Slug.Unicode, db: Db, tenant: Id, dto: CreateCategoryDto, newId: Id)
    requires newId !in db.categories
    ensures Evolves(db, CreateCategory(unicode, db, tenant, dto, newId).0)
  {
    var slug := Slug.GenerateSlug(unicode, if Truthy(dto.slug) then dto.slug.value else dto.name);
    SaveCategoryEvolves(db, Category(newId, tenant, dto.name, slug, if Truthy(dto.parentId) then dto.parentId else None, false));
  }

  lemma RenamedKeepsTheRest(unicode: Slug.Unicode, row: Category, dto: UpdateCategoryDto)
    ensures
      var target := Renamed(unicode, row, dto);
      target == row.(name := target.name, slug := target.slug)
  {
  }

  lemma UpdateCategoryEvolves(unicode: Slug.Unicode, db: Db, tenant: Id, id: Id, dto: UpdateCategoryDto)
    requires Keyed(db)
    ensures Evolves(db, UpdateCategory(unicode, db, tenant, id, dto).0)
  {
    if IsLiveCategory(db, tenant, id) {
      var target := Renamed(unicode, db.categories[id], dto);
      RenamedKeepsTheRest(unicode, db.categories[id], dto);
      SaveCategoryEvolves(db, target.(parent := NewParent(dto, target.parent)));
    }
    EverythingStays(db);
  }

  lemma RemoveCategoryEvolves(db: Db, tenant: Id, id: Id)
    ensures Evolves(db, RemoveCategory(db, tenant, id).0)
  {
  }

  lemma CreateProductEvolves(db: Db, tenant: Id, dto: CreateProductDto, newId: Id)
    requires newId !in db.products
    ensures Evolves(db, CreateProduct(db, tenant, dto, newId).0)
  {
  }

  lemma UpdateProductEvolves(db: Db, tenant: Id, id: Id, dto: UpdateProductDto)
    requires Keyed(db)
    ensures Evolves(db, UpdateProduct(db, tenant, id, dto).0)
  {
    EverythingStays(db);
    if IsLiveProduct(db, tenant, id) {
      var row := Edited(db.products[id], dto);
      assert ProductsEvolve(db.products, db.products[row.id := row]);
    }
  }

  lemma RemoveProductEvolves(db: Db, tenant: Id, id: Id)
    ensures Evolves(db, RemoveProduct(db, tenant, id).0)
  {
  }

  lemma SaveVariantEvolves(db: Db, row: Variant)
    requires row.id in db.variants ==>
      var before := db.variants[row.id];
      before.product == row.product && before.tenant == row.tenant && !before.deleted
    ensures Evolves(db, SaveVariant(db, row).0)
  {
    EverythingStays(db);
    if SaveVariant(db, row).1.Ok? {
      assert VariantsEvolve(db.variants, db.variants[row.id := row]);
    }
  }

  lemma CreateVariantEvolves(db: Db, tenant: Id, product: Id, dto: CreateVariantDto, newId: Id)
    requires newId !in db.variants
    ensures Evolves(db, CreateVariant(db, tenant, product, dto, newId).0)
  {
    SaveVariantEvolves(db, Variant(newId, tenant, product, dto.sku, dto.price, dto.attributes, false));
    EverythingStays(db);
  }

  lemma UpdateVariantEvolves(db: Db, tenant: Id, product: Id, id: Id, dto: UpdateVariantDto)
    requires Keyed(db)
    ensures Evolves(db, UpdateVariant(db, tenant, product, id, dto).0)
  {
    if FindVariant(db, tenant, product, id).Ok? {
      SaveVariantEvolves(db, EditedVariant(db.variants[id], dto));
    }
  }

  lemma RemoveVariantEvolves(db: Db, tenant: Id, product: Id, id: Id)
    ensures Evolves(db, RemoveVariant(db, tenant, product, id).0)
  {
  }

  lemma ExecuteEvolves(unicode: Slug.Unicode, db: Db, command: Command)
    requires Keyed(db) && FreshId(db, command)
    ensures Evolves(db, Execute(unicode, db, command))
  {
    match command
    case CategoryCreate(tenant, dto, newId) => CreateCategoryEvolves(unicode, db, tenant, dto, newId);
    case CategoryUpdate(tenant, id, dto) => UpdateCategoryEvolves(unicode, db, tenant, id, dto);
    case CategoryRemove(tenant, id) => RemoveCategoryEvolves(db, tenant, id);
    case ProductCreate(tenant, dto, newId) => CreateProductEvolves(db, tenant, dto, newId);
    case ProductUpdate(tenant, id, dto) => UpdateProductEvolves(db, tenant, id, dto);
    case ProductRemove(tenant, id) => RemoveProductEvolves(db, tenant, id);
    case VariantCreate(tenant, product, dto, newId) => CreateVariantEvolves(db, tenant, product, dto, newId);
    case VariantUpdate(tenant, product, id, dto) => UpdateVariantEvolves(db, tenant, product, id, dto);
    case VariantRemove(tenant, product, id) => RemoveVariantEvolves(db, tenant, product, id);
  }

  lemma {:induction false} RunEvolves(unicode: Slug.Unicode, db: Db, commands: seq<Command>)
    requires Integrity(db) && FreshIds(unicode, db, commands)
    ensures Evolves(db, Run(unicode, db, commands))
  {
    if commands != [] {
      FreshPrefix(unicode, db, commands);
      var prefix := commands[..|commands| - 1];
      RunEvolves(unicode, db, prefix);
      RunKeepsIntegrity(unicode, db, prefix);
      ExecuteEvolves(unicode, Run(unicode, db, prefix), commands[|commands| - 1]);
    }
  }
}
