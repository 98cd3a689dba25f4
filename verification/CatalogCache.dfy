/** What it means that the catalogue's cache agrees with its database, and why invalidation keeps it so. */
module CatalogCache {
  import opened Common
  import opened CatalogModel
  import opened CatalogDb
  import opened CatalogIntegrity
  import opened CategoryTree
  import CategoryLife
  import opened CacheKeys
  import opened CacheService
  import Slug

  datatype Page<T> = Page(rows: seq<T>, totalItems: nat)

  datatype CacheValue =
    | CategoryValue(category: Category)
    | CategoryPageValue(categoryPage: Page<Category>)
    | TreeValue(trees: seq<Tree>)
    | ProductValue(product: Product)
    | ProductPageValue(productPage: Page<Product>)
    | UserValue(text: string)

  /**
   * The foreign parts: Unicode tables, the digest of list queries, the database's list queries over
   * one tenant's rows, its ordering by name, and the key store's SCAN.
   */
  datatype Engine = Engine(
    unicode: Slug.Unicode,
    hash: string -> string,
    listCategories: (map<Id, Category>, string) -> Page<Category>,
    listProducts: (map<Id, Product>, string) -> Page<Product>,
    byName: map<Id, Category> -> seq<Category>,
    scan: (Store<CacheValue>, string) -> seq<Reply<CacheValue>>)

  /** Tenant identifiers are generated: they hold no colon and no glob character. */
  predicate IsTenantId(tenant: Id) {
    ColonFree(tenant) && IsPlain(tenant)
  }

  /** All rows of a tenant, soft-deleted ones included. */
  function CategoriesOf(db: Db, tenant: Id): (rows: map<Id, Category>)
    ensures forall id :: id in rows <==> id in db.categories && db.categories[id].tenant == tenant
    ensures forall id :: id in rows ==> rows[id] == db.categories[id]
  {
    map id | id in db.categories && db.categories[id].tenant == tenant :: db.categories[id]
  }

  function ProductsOf(db: Db, tenant: Id): (rows: map<Id, Product>)
    ensures forall id :: id in rows <==> id in db.products && db.products[id].tenant == tenant
    ensures forall id :: id in rows ==> rows[id] == db.products[id]
  {
    map id | id in db.products && db.products[id].tenant == tenant :: db.products[id]
  }

  function LiveCategoriesOf(db: Db, tenant: Id): (rows: map<Id, Category>)
    ensures forall id :: id in rows <==>
      id in db.categories && db.categories[id].tenant == tenant && !db.categories[id].deleted
    ensures forall id :: id in rows ==> rows[id] == db.categories[id]
  {
    map id | id in db.categories && IsLiveCategory(db, tenant, id) :: db.categories[id]
  }

  /** A listing holds each of the rows once. */
  ghost predicate ListsRows(rows: map<Id, Category>, list: seq<Category>) {
    && UniqueIds(list)
    && (forall id :: id in rows ==> Listed(list, id))
    && (forall i :: 0 <= i < |list| ==> list[i].id in rows && rows[list[i].id] == list[i])
  }

  /** SCAN when nobody else uses the key store meanwhile. */
  ghost predicate QuietTraversal(store: Store<CacheValue>, pattern: string, script: seq<Reply<CacheValue>>) {
    && FullTraversal(store, pattern, script)
    && forall i :: 0 <= i < |script| ==> script[i].others == Change(map[], {})
  }

  /** Rows are stored under their own identifiers. */
  ghost predicate KeyedRows(rows: map<Id, Category>) {
    forall id :: id in rows ==> rows[id].id == id
  }

  /** What is assumed of the foreign parts. */
  ghost predicate Assumptions(engine: Engine) {
    && InjectiveHash(engine.hash)
    && (forall rows :: KeyedRows(rows) ==> ListsRows(rows, engine.byName(rows)))
    && (forall store, pattern :: QuietTraversal(store, pattern, engine.scan(store, pattern)))
  }

  /** The tree of a tenant; a tenant without live categories has none. */
  function FindTree(engine: Engine, db: Db, tenant: Id): Result<seq<Tree>, CatalogError> {
    var rows := engine.byName(LiveCategoriesOf(db, tenant));
    if rows == [] then Err(NotFound) else Ok(Forest(rows))
  }

  /** The database's listing by name is a listing of the tenant's live categories. */
  lemma ByNameIsAListing(engine: Engine, db: Db, tenant: Id)
    requires Assumptions(engine) && Keyed(db)
    ensures CategoryLife.IsListing(db, tenant, engine.byName(LiveCategoriesOf(db, tenant)))
  {
    var rows := LiveCategoriesOf(db, tenant);
    var list := engine.byName(rows);
    assert KeyedRows(rows);
    forall id | id in db.categories && IsLiveCategory(db, tenant, id) ensures Listed(list, id) {
      assert id in rows;
    }
  }

  /**
   * After any run that moves no category into its own subtree, a tenant with a live category is
   * served a tree that shows every live category exactly once and nothing else; any other tenant
   * gets the not-found answer.
   */
  lemma ServedTreeIsComplete(engine: Engine, start: Db, commands: seq<Command>, tenant: Id, id: Id)
    requires Assumptions(engine) && Integrity(start) && FreshIds(engine.unicode, start, commands)
    requires CategoryLife.CycleFree(start) && CategoryLife.NeverIntoItself(engine.unicode, start, commands)
    ensures
      var db := Run(engine.unicode, start, commands);
      var tree := FindTree(engine, db, tenant);
      && (IsLiveCategory(db, tenant, id) ==> tree.Ok?)
      && (tree.Ok? ==> exists c :: c in db.categories && IsLiveCategory(db, tenant, c))
      && (tree.Ok? ==> OccurrencesIn(tree.value, id) == if IsLiveCategory(db, tenant, id) then 1 else 0)
  {
    var db := Run(engine.unicode, start, commands);
    var list := engine.byName(LiveCategoriesOf(db, tenant));
    RunKeepsIntegrity(engine.unicode, start, commands);
    ByNameIsAListing(engine, db, tenant);
    CategoryLife.TreeIsComplete(engine.unicode, start, commands, tenant, list, id);
    if list != [] {
      assert IsLiveCategory(db, tenant, list[0].id);
    }
  }

  /** The value is what a query of this key returns now. */
  predicate Fresh(engine: Engine, db: Db, key: CacheKey, value: CacheValue) {
    match key
    case CategoryKey(tenant, id) => value.CategoryValue? && FindCategory(db, tenant, id) == Ok(value.category)
    case CategoryListKey(tenant, query) =>
      value == CategoryPageValue(engine.listCategories(CategoriesOf(db, tenant), query))
    case CategoryTreeKey(tenant) => value.TreeValue? && FindTree(engine, db, tenant) == Ok(value.trees)
    case ProductKey(tenant, id) => value.ProductValue? && FindProduct(db, tenant, id) == Ok(value.product)
    case ProductListKey(tenant, query) =>
      value == ProductPageValue(engine.listProducts(ProductsOf(db, tenant), query))
    case UserKey(_, _) => true
  }

  predicate Holds(engine: Engine, store: Store<CacheValue>, key: CacheKey) {
    Text(key, engine.hash) in store && store[Text(key, engine.hash)].value.Some?
  }

  function ValueAt(engine: Engine, store: Store<CacheValue>, key: CacheKey): CacheValue
    requires Holds(engine, store, key)
  {
    store[Text(key, engine.hash)].value.value
  }

  /** Everything stored under a catalogue key, expired or not, is what a query returns now. */
  ghost predicate Coherent(engine: Engine, db: Db, store: Store<CacheValue>) {
    forall key: CacheKey ::
      IsTenantId(key.tenant) && Holds(engine, store, key) ==> Fresh(engine, db, key, ValueAt(engine, store, key))
  }

  // ---------------------------------------------------------------------------------------------
  // Steps on the store
  // ---------------------------------------------------------------------------------------------

  ghost predicate SubStore(part: Store<CacheValue>, store: Store<CacheValue>) {
    forall text :: text in part ==> text in store && part[text] == store[text]
  }

  lemma SetStaysCoherent(engine: Engine, db: Db, store: Store<CacheValue>, key: CacheKey, value: CacheValue, expiresAt: int)
    requires InjectiveHash(engine.hash) && Coherent(engine, db, store)
    requires IsTenantId(key.tenant) && Fresh(engine, db, key, value)
    ensures Coherent(engine, db, store[Text(key, engine.hash) := Entry(Some(value), expiresAt)])
  {
    var store' := store[Text(key, engine.hash) := Entry(Some(value), expiresAt)];
    forall k: CacheKey | IsTenantId(k.tenant) && Holds(engine, store', k)
      ensures Fresh(engine, db, k, ValueAt(engine, store', k))
    {
      if Text(k, engine.hash) == Text(key, engine.hash) {
        TextsAreInjective(k, key, engine.hash);
      } else {
        assert Holds(engine, store, k);
      }
    }
  }

  /** Only the rows of one tenant's one category differ. */
  ghost predicate OnlyCategoryChanged(db: Db, db': Db, tenant: Id, id: Id) {
    && db'.products == db.products
    && (forall c :: c != id ==> (c in db'.categories <==> c in db.categories))
    && (forall c :: c != id && c in db.categories ==> db'.categories[c] == db.categories[c])
    && (id in db.categories ==> db.categories[id].tenant == tenant)
    && (id in db'.categories ==> db'.categories[id].tenant == tenant)
  }

  ghost predicate OnlyProductChanged(db: Db, db': Db, tenant: Id, id: Id) {
    && db'.categories == db.categories
    && (forall p :: p != id ==> (p in db'.products <==> p in db.products))
    && (forall p :: p != id && p in db.products ==> db'.products[p] == db.products[p])
    && (id in db.products ==> db.products[id].tenant == tenant)
    && (id in db'.products ==> db'.products[id].tenant == tenant)
  }

  /** Each write changes one row of its own tenant. */
  lemma CategoryWritesTouchOneRow(unicode: Slug.Unicode, db: Db, tenant: Id, id: Id, dto: UpdateCategoryDto)
    requires Keyed(db)
    ensures OnlyCategoryChanged(db, CatalogDb.UpdateCategory(unicode, db, tenant, id, dto).0, tenant, id)
         || CatalogDb.UpdateCategory(unicode, db, tenant, id, dto).1.Err?
    ensures OnlyCategoryChanged(db, CatalogDb.RemoveCategory(db, tenant, id).0, tenant, id)
         || CatalogDb.RemoveCategory(db, tenant, id).1.Err?
  {
    if IsLiveCategory(db, tenant, id) {
      RenamedKeepsTheRest(unicode, db.categories[id], dto);
    }
  }

  lemma ProductWritesTouchOneRow(db: Db, tenant: Id, id: Id, dto: UpdateProductDto)
    requires Keyed(db)
    ensures OnlyProductChanged(db, CatalogDb.UpdateProduct(db, tenant, id, dto).0, tenant, id)
         || CatalogDb.UpdateProduct(db, tenant, id, dto).1.Err?
    ensures OnlyProductChanged(db, CatalogDb.RemoveProduct(db, tenant, id).0, tenant, id)
         || CatalogDb.RemoveProduct(db, tenant, id).1.Err?
  {
  }

  lemma OtherTenantsKeepTheirLiveCategories(db: Db, db': Db, tenant: Id, id: Id, other: Id)
    requires OnlyCategoryChanged(db, db', tenant, id) && other != tenant
    ensures LiveCategoriesOf(db', other) == LiveCategoriesOf(db, other)
  {
    forall c ensures c in LiveCategoriesOf(db', other) <==> c in LiveCategoriesOf(db, other) {
    }
  }

  lemma OtherTenantsKeepTheirCategories(db: Db, db': Db, tenant: Id, id: Id, other: Id)
    requires OnlyCategoryChanged(db, db', tenant, id) && other != tenant
    ensures CategoriesOf(db', other) == CategoriesOf(db, other)
    ensures LiveCategoriesOf(db', other) == LiveCategoriesOf(db, other)
  {
    forall c ensures c in CategoriesOf(db', other) <==> c in CategoriesOf(db, other) {
    }
    assert CategoriesOf(db', other) == CategoriesOf(db, other);
    OtherTenantsKeepTheirLiveCategories(db, db', tenant, id, other);
  }

  lemma OtherTenantsKeepTheirProducts(db: Db, db': Db, tenant: Id, id: Id, other: Id)
    requires OnlyProductChanged(db, db', tenant, id) && other != tenant
    ensures ProductsOf(db', other) == ProductsOf(db, other)
  {
    forall p ensures p in ProductsOf(db', other) <==> p in ProductsOf(db, other) {
    }
  }

  /** The keys whose answer a write to a category can change: its own, and its tenant's category collections. */
  lemma OtherAnswersSurviveCategoryWrites(
    engine: Engine, db: Db, db': Db, tenant: Id, id: Id, key: CacheKey, value: CacheValue)
    requires OnlyCategoryChanged(db, db', tenant, id)
    requires key != CategoryKey(tenant, id) && !InCategoryCollections(key, tenant)
    ensures Fresh(engine, db', key, value) <==> Fresh(engine, db, key, value)
  {
    match key
    case CategoryKey(_, _) =>
    case CategoryListKey(other, _) => OtherTenantsKeepTheirCategories(db, db', tenant, id, other);
    case CategoryTreeKey(other) => OtherTenantsKeepTheirCategories(db, db', tenant, id, other);
    case ProductKey(_, _) =>
    case ProductListKey(_, _) =>
    case UserKey(_, _) =>
  }

  lemma OtherAnswersSurviveProductWrites(
    engine: Engine, db: Db, db': Db, tenant: Id, id: Id, key: CacheKey, value: CacheValue)
    requires OnlyProductChanged(db, db', tenant, id)
    requires key != ProductKey(tenant, id) && !InProductCollections(key, tenant)
    ensures Fresh(engine, db', key, value) <==> Fresh(engine, db, key, value)
  {
    match key
    case CategoryKey(_, _) =>
    case CategoryListKey(_, _) =>
    case CategoryTreeKey(other) => assert LiveCategoriesOf(db', other) == LiveCategoriesOf(db, other);
    case ProductKey(_, _) =>
    case ProductListKey(other, _) => OtherTenantsKeepTheirProducts(db, db', tenant, id, other);
    case UserKey(_, _) =>
  }

  /** No key of the store matches the pattern any more. */
  ghost predicate Purged(store: Store<CacheValue>, pattern: string) {
    forall text :: text in store ==> !GlobMatches(pattern, text)
  }

  /** Deleting the entity's key and the collection patterns is enough after a category write. */
  lemma CategoryInvalidationSuffices(
    engine: Engine, db: Db, db': Db, tenant: Id, id: Id, store: Store<CacheValue>, after: Store<CacheValue>)
    requires Coherent(engine, db, store) && SubStore(after, store) && IsTenantId(tenant)
    requires OnlyCategoryChanged(db, db', tenant, id)
    requires id in db.categories ==> Text(CategoryKey(tenant, id), engine.hash) !in after
    requires Purged(after, CategoriesPattern(tenant))
    ensures Coherent(engine, db', after)
  {
    forall key: CacheKey | IsTenantId(key.tenant) && Holds(engine, after, key)
      ensures Fresh(engine, db', key, ValueAt(engine, after, key))
    {
      assert Holds(engine, store, key);
      assert Fresh(engine, db, key, ValueAt(engine, store, key));
      PatternsMatchExactlyTheirFamily(tenant, key, engine.hash);
      OtherAnswersSurviveCategoryWrites(engine, db, db', tenant, id, key, ValueAt(engine, store, key));
    }
  }

  lemma ProductInvalidationSuffices(
    engine: Engine, db: Db, db': Db, tenant: Id, id: Id, store: Store<CacheValue>, after: Store<CacheValue>)
    requires Coherent(engine, db, store) && SubStore(after, store) && IsTenantId(tenant)
    requires OnlyProductChanged(db, db', tenant, id)
    requires id in db.products ==> Text(ProductKey(tenant, id), engine.hash) !in after
    requires Purged(after, ProductsPattern(tenant))
    ensures Coherent(engine, db', after)
  {
    forall key: CacheKey | IsTenantId(key.tenant) && Holds(engine, after, key)
      ensures Fresh(engine, db', key, ValueAt(engine, after, key))
    {
      assert Holds(engine, store, key);
      assert Fresh(engine, db, key, ValueAt(engine, store, key));
      PatternsMatchExactlyTheirFamily(tenant, key, engine.hash);
      OtherAnswersSurviveProductWrites(engine, db, db', tenant, id, key, ValueAt(engine, store, key));
    }
  }

  /** When nobody else acts, nothing else happens during a scan. */
  lemma {:induction false} NobodyElseActed(store: Store<CacheValue>, script: seq<Reply<CacheValue>>, n: nat)
    requires n <= |script| && forall i :: 0 <= i < |script| ==> script[i].others == Change(map[], {})
    ensures OthersOnly(store, script, n) == store
  {
    if n > 0 {
      NobodyElseActed(store, script, n - 1);
    }
  }

  // ---------------------------------------------------------------------------------------------
  // The assumptions can be met
  // ---------------------------------------------------------------------------------------------

  ghost function Enumerate(items: set<string>): (list: seq<string>)
    ensures forall x :: x in list <==> x in items
    ensures forall i, j :: 0 <= i < j < |list| ==> list[i] != list[j]
  {
    if items == {} then []
    else
      var x :| x in items;
      [x] + Enumerate(items - {x})
  }

  ghost function Listing(rows: map<Id, Category>): seq<Category> {
    var ids := Enumerate(rows.Keys);
    seq(|ids|, i requires 0 <= i < |ids| => rows[ids[i]])
  }

  /** One call that returns everything. */
  ghost function OneCall(store: Store<CacheValue>, pattern: string): seq<Reply<CacheValue>> {
    [Reply(Change(map[], {}), Enumerate(set text | text in store && GlobMatches(pattern, text)), "0")]
  }

  lemma OneCallIsATraversal(store: Store<CacheValue>, pattern: string)
    ensures QuietTraversal(store, pattern, OneCall(store, pattern))
  {
    var script := OneCall(store, pattern);
    forall key | key in store && GlobMatches(pattern, key)
      ensures exists i :: 0 <= i < |script| && (Returns(script[i], key) || TouchedByOthers(script[i], key))
    {
      assert Returns(script[0], key);
    }
  }

  lemma ListingListsRows(rows: map<Id, Category>)
    requires KeyedRows(rows)
    ensures ListsRows(rows, Listing(rows))
  {
    var ids := Enumerate(rows.Keys);
    forall id | id in rows ensures Listed(Listing(rows), id) {
      var i :| 0 <= i < |ids| && ids[i] == id;
      assert Listing(rows)[i].id == id;
    }
  }

  lemma AssumptionsCanBeMet(engine: Engine)
    ensures Assumptions(engine.(hash := text => text, byName := rows => Listing(rows), scan := (store, pattern) => OneCall(store, pattern)))
  {
    var met := engine.(hash := text => text, byName := rows => Listing(rows), scan := (store, pattern) => OneCall(store, pattern));
    forall rows | KeyedRows(rows) ensures ListsRows(rows, met.byName(rows)) {
      ListingListsRows(rows);
    }
    forall store, pattern ensures QuietTraversal(store, pattern, met.scan(store, pattern)) {
      OneCallIsATraversal(store, pattern);
    }
  }
}
