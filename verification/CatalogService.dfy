/** The category, product and variant services: reads through the cache, writes that invalidate it. */
module CatalogService {
  import opened Common
  import opened CatalogModel
  import opened CatalogDb
  import opened CatalogIntegrity
  import opened CategoryTree
  import opened CacheKeys
  import opened CacheService
  import opened CatalogCache
  import BuildTree

  /** The clock, and whether the reads and the sets of one operation reach the key store. */
  datatype Moment = Moment(now: int, getFails: bool, setFails: bool)

  /** A set that succeeded or failed. */
  function AfterSet(engine: Engine, store: Store<CacheValue>, key: CacheKey, value: CacheValue, moment: Moment): Store<CacheValue> {
    if moment.setFails then store
    else store[Text(key, engine.hash) := Entry(Some(value), moment.now + TtlOf(key))]
  }

  /** A read that reaches the key store finds an entry that has not expired. */
  predicate Hits(engine: Engine, store: Store<CacheValue>, key: CacheKey, moment: Moment) {
    !moment.getFails && Holds(engine, store, key) && moment.now < store[Text(key, engine.hash)].expiresAt
  }

  /** After a category write: the entity's key and both collections of the tenant are gone. */
  ghost predicate CategoryInvalidated(engine: Engine, store: Store<CacheValue>, tenant: Id, id: Id) {
    && Text(CategoryKey(tenant, id), engine.hash) !in store
    && Purged(store, CategoriesPattern(tenant))
    && Purged(store, ProductsPattern(tenant))
  }

  ghost predicate ProductInvalidated(engine: Engine, store: Store<CacheValue>, tenant: Id, id: Id) {
    Text(ProductKey(tenant, id), engine.hash) !in store && Purged(store, ProductsPattern(tenant))
  }

  /** Nothing else is removed: no other entity, no other family, no other tenant. */
  ghost predicate SparesTheRest(before: Store<CacheValue>, after: Store<CacheValue>, tenant: Id, own: string) {
    forall text ::
      (text in before && text != own
       && !GlobMatches(CategoriesPattern(tenant), text) && !GlobMatches(ProductsPattern(tenant), text)) ==> text in after
  }

  lemma OtherAnswersSurviveVariantWrites(engine: Engine, db: Db, db': Db, key: CacheKey, value: CacheValue)
    requires db'.categories == db.categories && db'.products == db.products
    ensures Fresh(engine, db', key, value) <==> Fresh(engine, db, key, value)
  {
    match key
    case CategoryKey(_, _) =>
    case CategoryListKey(other, _) => assert CategoriesOf(db', other) == CategoriesOf(db, other);
    case CategoryTreeKey(other) => assert LiveCategoriesOf(db', other) == LiveCategoriesOf(db, other);
    case ProductKey(_, _) =>
    case ProductListKey(other, _) => assert ProductsOf(db', other) == ProductsOf(db, other);
    case UserKey(_, _) =>
  }

  lemma VariantsAreNotCached(engine: Engine, db: Db, db': Db, store: Store<CacheValue>)
    requires Coherent(engine, db, store) && db'.categories == db.categories && db'.products == db.products
    ensures Coherent(engine, db', store)
  {
    forall key: CacheKey | IsTenantId(key.tenant) && Holds(engine, store, key)
      ensures Fresh(engine, db', key, ValueAt(engine, store, key))
    {
      OtherAnswersSurviveVariantWrites(engine, db, db', key, ValueAt(engine, store, key));
    }
  }

  lemma AfterSetStaysCoherent(
    engine: Engine, db: Db, store: Store<CacheValue>, key: CacheKey, value: CacheValue, moment: Moment)
    requires InjectiveHash(engine.hash) && Coherent(engine, db, store)
    requires IsTenantId(key.tenant) && Fresh(engine, db, key, value)
    ensures Coherent(engine, db, AfterSet(engine, store, key, value, moment))
  {
    SetStaysCoherent(engine, db, store, key, value, moment.now + TtlOf(key));
  }

  class Catalog {
    var db: Db
    const cache: Cache<CacheValue>
    const engine: Engine

    /** The invariant between operations. */
    ghost predicate Valid()
      reads this, cache
    {
      && Assumptions(engine)
      && Integrity(db)
      && Coherent(engine, db, cache.store)
    }

    constructor (engine: Engine)
      requires Assumptions(engine)
      ensures Valid() && db == Db(map[], map[], map[]) && fresh(cache) && this.engine == engine
    {
      this.engine := engine;
      db := Db(map[], map[], map[]);
      cache := new Cache();
    }

    // -------------------------------------------------------------------------------------------
    // The cache
    // -------------------------------------------------------------------------------------------

    /** A hit is what the query would return. */
    method Cached(key: CacheKey, moment: Moment) returns (value: Option<CacheValue>)
      requires Valid() && IsTenantId(key.tenant)
      ensures value.Some? <==> Hits(engine, cache.store, key, moment)
      ensures value.Some? ==> Fresh(engine, db, key, value.value)
    {
      value := cache.Get(Text(key, engine.hash), moment.now, moment.getFails);
      assert value.Some? ==> Holds(engine, cache.store, key);
    }

    method Remember(key: CacheKey, value: CacheValue, moment: Moment)
      requires Valid() && IsTenantId(key.tenant) && Fresh(engine, db, key, value)
      modifies cache
      ensures Valid()
      ensures cache.store == AfterSet(engine, old(cache.store), key, value, moment)
      ensures !moment.setFails ==>
        && Holds(engine, cache.store, key) && ValueAt(engine, cache.store, key) == value
        && cache.store[Text(key, engine.hash)].expiresAt ==
             moment.now + if key.CategoryKey? || key.CategoryListKey? || key.CategoryTreeKey? then 1800 else 300
    {
      AfterSetStaysCoherent(engine, db, cache.store, key, value, moment);
      cache.Set(Text(key, engine.hash), value, moment.now, TtlOf(key), moment.setFails);
    }

    /** Removes exactly the keys that match. */
    method Purge(pattern: string)
      requires Assumptions(engine)
      modifies cache
      ensures Purged(cache.store, pattern) && SubStore(cache.store, old(cache.store))
      ensures forall text :: text in old(cache.store) && !GlobMatches(pattern, text) ==> text in cache.store
    {
      var script := engine.scan(cache.store, pattern);
      assert QuietTraversal(cache.store, pattern, script);
      NobodyElseActed(cache.store, script, |script|);
      ghost var done := cache.DelByPattern(pattern, script, |script|);
      assert forall text :: !WrittenByOthers(script, text);
    }

    method InvalidateCollections(tenant: Id)
      requires Assumptions(engine)
      modifies cache
      ensures SubStore(cache.store, old(cache.store))
      ensures Purged(cache.store, CategoriesPattern(tenant)) && Purged(cache.store, ProductsPattern(tenant))
      ensures forall text ::
        text in old(cache.store)
        && !GlobMatches(CategoriesPattern(tenant), text) && !GlobMatches(ProductsPattern(tenant), text) ==>
          text in cache.store
    {
      Purge(CategoriesPattern(tenant));
      Purge(ProductsPattern(tenant));
    }

    // -------------------------------------------------------------------------------------------
    // Category reads
    // -------------------------------------------------------------------------------------------

    method FindOneCategory(tenant: Id, id: Id, moment: Moment) returns (r: Result<Category, CatalogError>)
      requires Valid() && IsTenantId(tenant)
      modifies cache
      ensures Valid() && r == FindCategory(db, tenant, id)
      ensures cache.store ==
        if Hits(engine, old(cache.store), CategoryKey(tenant, id), moment) || r.Err? then old(cache.store)
        else AfterSet(engine, old(cache.store), CategoryKey(tenant, id), CategoryValue(r.value), moment)
    {
      var key := CategoryKey(tenant, id);
      var cached := Cached(key, moment);
      if cached.Some? {
        return Ok(cached.value.category);
      }
      r := FindCategory(db, tenant, id);
      if r.Ok? {
        Remember(key, CategoryValue(r.value), moment);
      }
    }

    method FindAllCategories(tenant: Id, query: string, moment: Moment) returns (page: Page<Category>)
      requires Valid() && IsTenantId(tenant)
      modifies cache
      ensures Valid() && page == engine.listCategories(CategoriesOf(db, tenant), query)
      ensures cache.store ==
        if Hits(engine, old(cache.store), CategoryListKey(tenant, query), moment) then old(cache.store)
        else AfterSet(engine, old(cache.store), CategoryListKey(tenant, query), CategoryPageValue(page), moment)
    {
      var key := CategoryListKey(tenant, query);
      var cached := Cached(key, moment);
      if cached.Some? {
        return cached.value.categoryPage;
      }
      page := engine.listCategories(CategoriesOf(db, tenant), query);
      Remember(key, CategoryPageValue(page), moment);
    }

    method FindCategoryTree(tenant: Id, moment: Moment) returns (r: Result<seq<Tree>, CatalogError>)
      requires Valid() && IsTenantId(tenant)
      modifies cache
      ensures Valid() && r == FindTree(engine, db, tenant)
      ensures cache.store ==
        if Hits(engine, old(cache.store), CategoryTreeKey(tenant), moment) || r.Err? then old(cache.store)
        else AfterSet(engine, old(cache.store), CategoryTreeKey(tenant), TreeValue(r.value), moment)
    {
      var key := CategoryTreeKey(tenant);
      var cached := Cached(key, moment);
      if cached.Some? {
        return Ok(cached.value.trees);
      }
      var result := engine.byName(LiveCategoriesOf(db, tenant));
      if |result| == 0 {
        return Err(NotFound);
      }
      assert KeyedRows(LiveCategoriesOf(db, tenant));
      var tree := BuildTree.BuildAndSerialise(result);
      Remember(key, TreeValue(tree), moment);
      r := Ok(tree);
    }

    // -------------------------------------------------------------------------------------------
    // Category writes
    // -------------------------------------------------------------------------------------------

    /** What follows a successful creation; no key of a new row can be cached. */
    method CategoryCreated(tenant: Id, newId: Id, written: Db)
      requires Valid() && IsTenantId(tenant) && Integrity(written)
      requires newId !in db.categories && OnlyCategoryChanged(db, written, tenant, newId)
      modifies this`db, cache
      ensures Valid() && db == written
      ensures Purged(cache.store, CategoriesPattern(tenant)) && Purged(cache.store, ProductsPattern(tenant))
      ensures SparesTheRest(old(cache.store), cache.store, tenant, Text(CategoryKey(tenant, newId), engine.hash))
    {
      ghost var was, store := db, cache.store;
      db := written;
      InvalidateCollections(tenant);
      CategoryInvalidationSuffices(engine, was, db, tenant, newId, store, cache.store);
    }

    method CreateCategory(tenant: Id, dto: CreateCategoryDto, newId: Id) returns (r: Result<Category, CatalogError>)
      requires Valid() && IsTenantId(tenant) && newId != "" && newId !in db.categories
      modifies this`db, cache
      ensures Valid()
      ensures (db, r) == CatalogDb.CreateCategory(engine.unicode, old(db), tenant, dto, newId)
      ensures r.Ok? ==> Purged(cache.store, CategoriesPattern(tenant)) && Purged(cache.store, ProductsPattern(tenant))
      ensures SparesTheRest(old(cache.store), cache.store, tenant, Text(CategoryKey(tenant, newId), engine.hash))
    {
      CreateCategoryKeeps(engine.unicode, db, tenant, dto, newId);
      var slug := Slug.GenerateSlug(engine.unicode, if Truthy(dto.slug) then dto.slug.value else dto.name);
      if SlugTaken(db, tenant, slug, None) {
        return Err(SlugNotUnique);
      }
      if Truthy(dto.parentId) && !IsLiveCategory(db, tenant, dto.parentId.value) {
        return Err(ParentNotFound);
      }
      var row := Category(newId, tenant, dto.name, slug, if Truthy(dto.parentId) then dto.parentId else None, false);
      var written := SaveCategory(db, row);
      assert written == CatalogDb.CreateCategory(engine.unicode, db, tenant, dto, newId);
      r := written.1;
      if r.Ok? {
        CategoryCreated(tenant, newId, written.0);
      }
    }

    /** What follows a successful save or removal: the new contents, and the invalidation. */
    method CategoryWritten(tenant: Id, id: Id, written: Db)
      requires Valid() && IsTenantId(tenant) && Integrity(written)
      requires OnlyCategoryChanged(db, written, tenant, id)
      modifies this`db, cache
      ensures Valid() && db == written
      ensures CategoryInvalidated(engine, cache.store, tenant, id)
      ensures SparesTheRest(old(cache.store), cache.store, tenant, Text(CategoryKey(tenant, id), engine.hash))
    {
      ghost var was, store := db, cache.store;
      db := written;
      cache.Del(Text(CategoryKey(tenant, id), engine.hash), false);
      InvalidateCollections(tenant);
      CategoryInvalidationSuffices(engine, was, db, tenant, id, store, cache.store);
    }

    method Rename(row: Category, dto: UpdateCategoryDto) returns (target: Category)
      ensures target == Renamed(engine.unicode, row, dto)
    {
      target := row;
      if Truthy(dto.name) {
        target := target.(name := dto.name.value);
      }
      if Truthy(dto.slug) {
        target := target.(slug := Slug.GenerateSlug(engine.unicode, dto.slug.value));
      } else if Truthy(dto.name) {
        target := target.(slug := Slug.GenerateSlug(engine.unicode, dto.name.value));
      }
    }

    method UpdateCategory(tenant: Id, id: Id, dto: UpdateCategoryDto, moment: Moment) returns (r: Result<Category, CatalogError>)
      requires Valid() && IsTenantId(tenant)
      modifies this`db, cache
      ensures Valid()
      ensures (db, r) == CatalogDb.UpdateCategory(engine.unicode, old(db), tenant, id, dto)
      ensures r.Ok? ==> CategoryInvalidated(engine, cache.store, tenant, id)
      ensures SparesTheRest(old(cache.store), cache.store, tenant, Text(CategoryKey(tenant, id), engine.hash))
    {
      UpdateCategoryKeeps(engine.unicode, db, tenant, id, dto);
      var found := FindOneCategory(tenant, id, moment);
      if found.Err? {
        return Err(NotFound);
      }
      var target := Rename(found.value, dto);
      if SlugTaken(db, tenant, target.slug, Some(id)) {
        return Err(SlugNotUnique);
      }
      if dto.parentId != Absent {
        if dto.parentId == Value(id) {
          return Err(OwnParent);
        }
        if dto.parentId.Value? && dto.parentId.value != "" {
          if !IsLiveCategory(db, tenant, dto.parentId.value) {
            return Err(ParentNotFound);
          }
          target := target.(parent := Some(dto.parentId.value));
        } else {
          target := target.(parent := None);
        }
      }
      var written := SaveCategory(db, target);
      r := written.1;
      assert written == CatalogDb.UpdateCategory(engine.unicode, db, tenant, id, dto);
      if r.Ok? {
        CategoryWritesTouchOneRow(engine.unicode, db, tenant, id, dto);
        CategoryWritten(tenant, id, written.0);
      }
    }

    method RemoveCategory(tenant: Id, id: Id, moment: Moment) returns (r: Result<(), CatalogError>)
      requires Valid() && IsTenantId(tenant)
      modifies this`db, cache
      ensures Valid()
      ensures (db, r) == CatalogDb.RemoveCategory(old(db), tenant, id)
      ensures r.Ok? ==> CategoryInvalidated(engine, cache.store, tenant, id)
      ensures SparesTheRest(old(cache.store), cache.store, tenant, Text(CategoryKey(tenant, id), engine.hash))
    {
      RemoveCategoryKeeps(db, tenant, id);
      var found := FindOneCategory(tenant, id, moment);
      if found.Err? {
        return Err(NotFound);
      }
      if HasLiveChildren(db, tenant, id) {
        return Err(HasChildren);
      }
      var target := found.value;
      CategoryWritten(tenant, id, db.(categories := db.categories[target.id := db.categories[target.id].(deleted := true)]));
      r := Ok(());
    }

    // -------------------------------------------------------------------------------------------
    // Products
    // -------------------------------------------------------------------------------------------

    method FindOneProduct(tenant: Id, id: Id, moment: Moment) returns (r: Result<Product, CatalogError>)
      requires Valid() && IsTenantId(tenant)
      modifies cache
      ensures Valid() && r == FindProduct(db, tenant, id)
      ensures cache.store ==
        if Hits(engine, old(cache.store), ProductKey(tenant, id), moment) || r.Err? then old(cache.store)
        else AfterSet(engine, old(cache.store), ProductKey(tenant, id), ProductValue(r.value), moment)
    {
      var key := ProductKey(tenant, id);
      var cached := Cached(key, moment);
      if cached.Some? {
        return Ok(cached.value.product);
      }
      r := FindProduct(db, tenant, id);
      if r.Ok? {
        Remember(key, ProductValue(r.value), moment);
      }
    }

    method FindAllProducts(tenant: Id, query: string, moment: Moment) returns (page: Page<Product>)
      requires Valid() && IsTenantId(tenant)
      modifies cache
      ensures Valid() && page == engine.listProducts(ProductsOf(db, tenant), query)
      ensures cache.store ==
        if Hits(engine, old(cache.store), ProductListKey(tenant, query), moment) then old(cache.store)
        else AfterSet(engine, old(cache.store), ProductListKey(tenant, query), ProductPageValue(page), moment)
    {
      var key := ProductListKey(tenant, query);
      var cached := Cached(key, moment);
      if cached.Some? {
        return cached.value.productPage;
      }
      page := engine.listProducts(ProductsOf(db, tenant), query);
      Remember(key, ProductPageValue(page), moment);
    }

    method CreateProduct(tenant: Id, dto: CreateProductDto, newId: Id, moment: Moment) returns (r: Result<Product, CatalogError>)
      requires Valid() && IsTenantId(tenant) && newId != "" && newId !in db.products
      modifies this`db, cache
      ensures Valid()
      ensures (db, r) == CatalogDb.CreateProduct(old(db), tenant, dto, newId)
      ensures r.Ok? ==> Purged(cache.store, ProductsPattern(tenant))
      ensures SparesTheRest(old(cache.store), cache.store, tenant, Text(ProductKey(tenant, newId), engine.hash))
    {
      CreateProductKeeps(db, tenant, dto, newId);
      var category := FindOneCategory(tenant, dto.categoryId, moment);
      if category.Err? {
        return Err(NotFound);
      }
      if PrefixTaken(db, tenant, dto.skuPrefix) {
        return Err(SkuExists);
      }
      var row := Product(newId, tenant, dto.categoryId, dto.name, dto.description, dto.skuPrefix, dto.isActive, false);
      ghost var was, store := db, cache.store;
      var written := SaveProduct(db, row);
      db, r := written.0, written.1;
      Purge(ProductsPattern(tenant));
      ProductInvalidationSuffices(engine, was, db, tenant, newId, store, cache.store);
    }

    method AssignFields(row: Product, dto: UpdateProductDto) returns (product: Product)
      ensures product == Edited(row, dto)
    {
      product := row;
      if Truthy(dto.categoryId) {
        product := product.(category := dto.categoryId.value);
      }
      if dto.name.Some? {
        product := product.(name := dto.name.value);
      }
      if dto.description != Absent {
        product := product.(description := if dto.description.Value? then Some(dto.description.value) else None);
      }
      if dto.isActive.Some? {
        product := product.(isActive := dto.isActive.value);
      }
    }

    method ProductWritten(tenant: Id, id: Id, written: Db)
      requires Valid() && IsTenantId(tenant) && Integrity(written)
      requires OnlyProductChanged(db, written, tenant, id)
      modifies this`db, cache
      ensures Valid() && db == written
      ensures ProductInvalidated(engine, cache.store, tenant, id)
      ensures SparesTheRest(old(cache.store), cache.store, tenant, Text(ProductKey(tenant, id), engine.hash))
    {
      ghost var was, store := db, cache.store;
      db := written;
      cache.Del(Text(ProductKey(tenant, id), engine.hash), false);
      Purge(ProductsPattern(tenant));
      ProductInvalidationSuffices(engine, was, db, tenant, id, store, cache.store);
    }

    method UpdateProduct(tenant: Id, id: Id, dto: UpdateProductDto, moment: Moment) returns (r: Result<Product, CatalogError>)
      requires Valid() && IsTenantId(tenant)
      modifies this`db, cache
      ensures Valid()
      ensures (db, r) == CatalogDb.UpdateProduct(old(db), tenant, id, dto)
      ensures r.Ok? ==> ProductInvalidated(engine, cache.store, tenant, id)
      ensures SparesTheRest(old(cache.store), cache.store, tenant, Text(ProductKey(tenant, id), engine.hash))
    {
      UpdateProductKeeps(db, tenant, id, dto);
      var found := FindOneProduct(tenant, id, moment);
      if found.Err? {
        return Err(NotFound);
      }
      var product := found.value;
      if Truthy(dto.skuPrefix) && dto.skuPrefix.value != product.skuPrefix {
        return Err(PrefixIsFixed);
      }
      if Truthy(dto.categoryId) {
        var category := FindOneCategory(tenant, dto.categoryId.value, moment);
        if category.Err? {
          return Err(NotFound);
        }
      }
      product := AssignFields(product, dto);
      var written := SaveProduct(db, product);
      assert written == CatalogDb.UpdateProduct(db, tenant, id, dto);
      ProductWritesTouchOneRow(db, tenant, id, dto);
      ProductWritten(tenant, id, written.0);
      r := written.1;
    }

    method RemoveProduct(tenant: Id, id: Id, moment: Moment) returns (r: Result<(), CatalogError>)
      requires Valid() && IsTenantId(tenant)
      modifies this`db, cache
      ensures Valid()
      ensures (db, r) == CatalogDb.RemoveProduct(old(db), tenant, id)
      ensures r.Ok? ==> ProductInvalidated(engine, cache.store, tenant, id)
      ensures SparesTheRest(old(cache.store), cache.store, tenant, Text(ProductKey(tenant, id), engine.hash))
    {
      RemoveProductKeeps(db, tenant, id);
      var found := FindOneProduct(tenant, id, moment);
      if found.Err? {
        return Err(NotFound);
      }
      var product := found.value;
      if HasLiveVariants(db, tenant, product.id) {
        return Err(HasVariants);
      }
      ProductWritten(tenant, id, db.(products := db.products[product.id := db.products[product.id].(deleted := true)]));
      r := Ok(());
    }

    // -------------------------------------------------------------------------------------------
    // Variants: not cached
    // -------------------------------------------------------------------------------------------

    method CreateVariant(tenant: Id, product: Id, dto: CreateVariantDto, newId: Id) returns (r: Result<Variant, CatalogError>)
      requires Valid() && newId != "" && newId !in db.variants
      modifies this`db
      ensures Valid()
      ensures (db, r) == CatalogDb.CreateVariant(old(db), tenant, product, dto, newId)
    {
      CreateVariantKeeps(db, tenant, product, dto, newId);
      if FindProduct(db, tenant, product).Err? {
        return Err(NotFound);
      }
      if SkuTaken(db, tenant, dto.sku, None) {
        return Err(SkuExists);
      }
      var row := Variant(newId, tenant, product, dto.sku, dto.price, dto.attributes, false);
      var written := SaveVariant(db, row);
      VariantsAreNotCached(engine, db, written.0, cache.store);
      db, r := written.0, written.1;
    }

    method AssignVariantFields(row: Variant, dto: UpdateVariantDto) returns (variant: Variant)
      ensures variant == EditedVariant(row, dto.(sku := None))
    {
      variant := row;
      if dto.price.Some? {
        variant := variant.(price := dto.price.value);
      }
      if dto.attributes.Some? {
        variant := variant.(attributes := dto.attributes.value);
      }
    }

    method UpdateVariant(tenant: Id, product: Id, id: Id, dto: UpdateVariantDto) returns (r: Result<Variant, CatalogError>)
      requires Valid()
      modifies this`db
      ensures Valid()
      ensures (db, r) == CatalogDb.UpdateVariant(old(db), tenant, product, id, dto)
    {
      UpdateVariantKeeps(db, tenant, product, id, dto);
      var found := FindVariant(db, tenant, product, id);
      if found.Err? {
        return Err(NotFound);
      }
      var variant := found.value;
      if Truthy(dto.sku) && dto.sku.value != variant.sku {
        if SkuTaken(db, tenant, dto.sku.value, Some(id)) {
          return Err(SkuExists);
        }
        variant := variant.(sku := dto.sku.value);
      }
      variant := AssignVariantFields(variant, dto);
      var written := SaveVariant(db, variant);
      assert written == CatalogDb.UpdateVariant(db, tenant, product, id, dto);
      VariantsAreNotCached(engine, db, written.0, cache.store);
      db, r := written.0, written.1;
    }

    method RemoveVariant(tenant: Id, product: Id, id: Id) returns (r: Result<(), CatalogError>)
      requires Valid()
      modifies this`db
      ensures Valid()
      ensures (db, r) == CatalogDb.RemoveVariant(old(db), tenant, product, id)
    {
      RemoveVariantKeeps(db, tenant, product, id);
      var found := FindVariant(db, tenant, product, id);
      if found.Err? {
        return Err(NotFound);
      }
      var variant := found.value;
      var written := db.(variants := db.variants[variant.id := db.variants[variant.id].(deleted := true)]);
      VariantsAreNotCached(engine, db, written, cache.store);
      db := written;
      r := Ok(());
    }
  }
}
