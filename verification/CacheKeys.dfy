/** Cache keys: the families, their texts, and what the invalidation patterns match. */
module CacheKeys {
  import opened Common

  const TTL_DEFAULT: nat := 300
  const TTL_PRODUCT: nat := 300
  const TTL_CATEGORY: nat := 1800
  const TTL_USER: nat := 300

  datatype CacheKey =
    | CategoryKey(tenant: Id, id: Id)
    | CategoryListKey(tenant: Id, query: string)
    | CategoryTreeKey(tenant: Id)
    | ProductKey(tenant: Id, id: Id)
    | ProductListKey(tenant: Id, query: string)
    | UserKey(tenant: Id, id: Id)

  function TtlOf(key: CacheKey): nat {
    match key
    case CategoryKey(_, _) => TTL_CATEGORY
    case CategoryListKey(_, _) => TTL_CATEGORY
    case CategoryTreeKey(_) => TTL_CATEGORY
    case ProductKey(_, _) => TTL_PRODUCT
    case ProductListKey(_, _) => TTL_PRODUCT
    case UserKey(_, _) => TTL_USER
  }

  /** The part of the text after the tenant. */
  function Suffix(key: CacheKey, hash: string -> string): string {
    match key
    case CategoryKey(_, id) => "category:" + id
    case CategoryListKey(_, query) => "categories:list:" + hash(query)
    case CategoryTreeKey(_) => "categories:tree"
    case ProductKey(_, id) => "product:" + id
    case ProductListKey(_, query) => "products:list:" + hash(query)
    case UserKey(_, id) => "user:" + id
  }

  /** The text of a key; `hash` digests the query of a list. */
  function Text(key: CacheKey, hash: string -> string): string {
    "t:" + (key.tenant + ":" + Suffix(key, hash))
  }

  function CategoriesPattern(tenant: Id): string {
    "t:" + (tenant + ":" + "categories:") + "*"
  }

  function ProductsPattern(tenant: Id): string {
    "t:" + (tenant + ":" + "products:") + "*"
  }

  /** The texts of the keys and of the patterns. */
  lemma TextsAreAsStored(tenant: Id, id: Id, query: string, hash: string -> string)
    ensures Text(CategoryKey(tenant, id), hash) == "t:" + (tenant + ":" + ("category:" + id))
    ensures Text(CategoryListKey(tenant, query), hash) == "t:" + (tenant + ":" + ("categories:list:" + hash(query)))
    ensures Text(CategoryTreeKey(tenant), hash) == "t:" + (tenant + ":" + "categories:tree")
    ensures Text(ProductKey(tenant, id), hash) == "t:" + (tenant + ":" + ("product:" + id))
    ensures Text(ProductListKey(tenant, query), hash) == "t:" + (tenant + ":" + ("products:list:" + hash(query)))
    ensures Text(UserKey(tenant, id), hash) == "t:" + (tenant + ":" + ("user:" + id))
    ensures CategoriesPattern(tenant) == "t:" + (tenant + ":" + "categories:") + "*"
    ensures ProductsPattern(tenant) == "t:" + (tenant + ":" + "products:") + "*"
  {
  }

  ghost predicate InjectiveHash(hash: string -> string) {
    forall a, b :: hash(a) == hash(b) ==> a == b
  }

  // ---------------------------------------------------------------------------------------------
  // Glob patterns
  // ---------------------------------------------------------------------------------------------

  /** Redis patterns made of `*`, `?` and ordinary characters; brackets and escapes are not part of this model. */
  predicate GlobMatches(pattern: string, text: string)
    decreases |pattern| + |text|
  {
    if pattern == "" then text == ""
    else if pattern[0] == '*' then
      GlobMatches(pattern[1..], text) || (text != "" && GlobMatches(pattern, text[1..]))
    else
      text != "" && (pattern[0] == '?' || pattern[0] == text[0]) && GlobMatches(pattern[1..], text[1..])
  }

  predicate IsPlain(text: string) {
    forall i :: 0 <= i < |text| ==> text[i] != '*' && text[i] != '?'
  }

  lemma {:induction false} StarMatchesEverything(text: string)
    ensures GlobMatches("*", text)
  {
    if text != "" {
      StarMatchesEverything(text[1..]);
    }
  }

  /** A plain text followed by a star matches exactly the texts that start with it. */
  lemma {:induction false} PrefixPattern(prefix: string, text: string)
    requires IsPlain(prefix)
    ensures GlobMatches(prefix + "*", text) <==> prefix <= text
  {
    if prefix == "" {
      StarMatchesEverything(text);
      assert prefix + "*" == "*";
    } else {
      assert (prefix + "*")[1..] == prefix[1..] + "*";
      if text != "" {
        PrefixPattern(prefix[1..], text[1..]);
        assert prefix <= text <==> prefix[0] == text[0] && prefix[1..] <= text[1..];
      }
    }
  }

  // ---------------------------------------------------------------------------------------------
  // Families
  // ---------------------------------------------------------------------------------------------

  predicate InCategoryCollections(key: CacheKey, tenant: Id) {
    key.tenant == tenant && (key.CategoryListKey? || key.CategoryTreeKey?)
  }

  predicate InProductCollections(key: CacheKey, tenant: Id) {
    key.tenant == tenant && key.ProductListKey?
  }

  lemma PrefixBehind(head: string, a: string, b: string)
    ensures head + a <= head + b <==> a <= b
  {
    assert (head + a)[|head|..] == a && (head + b)[|head|..] == b;
    if head + a <= head + b {
      assert head + b == head + a + (head + b)[|head + a|..];
      assert b == a + (head + b)[|head + a|..];
    }
    if a <= b {
      assert head + b == head + a + b[|a|..];
    }
  }

  lemma JoinedPrefix(a: string, x: string, b: string, y: string)
    requires ColonFree(a) && ColonFree(b)
    ensures a + ":" + x <= b + ":" + y <==> a == b && x <= y
  {
    var short, long := a + ":" + x, b + ":" + y;
    if short <= long {
      var rest := x + long[|short|..];
      assert long == a + ":" + rest;
      JoinIsInjective(a, rest, b, y);
    }
    if a == b {
      PrefixBehind(a + ":", x, y);
    }
  }

  lemma SameTenantPrefix(tenant: Id, part: string, key: CacheKey, hash: string -> string)
    requires ColonFree(tenant) && ColonFree(key.tenant)
    ensures "t:" + (tenant + ":" + part) <= Text(key, hash) <==> tenant == key.tenant && part <= Suffix(key, hash)
  {
    PrefixBehind("t:", tenant + ":" + part, key.tenant + ":" + Suffix(key, hash));
    JoinedPrefix(tenant, part, key.tenant, Suffix(key, hash));
  }

  /** A pattern for one part of one tenant's keys. */
  lemma PartPattern(tenant: Id, part: string, key: CacheKey, hash: string -> string)
    requires ColonFree(tenant) && IsPlain(tenant) && IsPlain(part) && ColonFree(key.tenant)
    ensures GlobMatches("t:" + (tenant + ":" + part) + "*", Text(key, hash))
       <==> tenant == key.tenant && part <= Suffix(key, hash)
  {
    var prefix := "t:" + (tenant + ":" + part);
    assert IsPlain("t:") && IsPlain(":");
    assert IsPlain(prefix);
    PrefixPattern(prefix, Text(key, hash));
    SameTenantPrefix(tenant, part, key, hash);
  }

  lemma CategoriesPrefix(key: CacheKey, hash: string -> string)
    ensures "categories:" <= Suffix(key, hash) <==> key.CategoryListKey? || key.CategoryTreeKey?
  {
    var suffix := Suffix(key, hash);
    match key
    case CategoryKey(_, _) => assert suffix[7] == 'y';
    case CategoryListKey(_, _) => assert suffix == "categories:" + ("list:" + hash(key.query));
    case CategoryTreeKey(_) => assert suffix == "categories:" + "tree";
    case ProductKey(_, _) => assert suffix[0] == 'p';
    case ProductListKey(_, _) => assert suffix[0] == 'p';
    case UserKey(_, _) => assert suffix[0] == 'u';
  }

  lemma ProductsPrefix(key: CacheKey, hash: string -> string)
    ensures "products:" <= Suffix(key, hash) <==> key.ProductListKey?
  {
    var suffix := Suffix(key, hash);
    match key
    case CategoryKey(_, _) => assert suffix[0] == 'c';
    case CategoryListKey(_, _) => assert suffix[0] == 'c';
    case CategoryTreeKey(_) => assert suffix[0] == 'c';
    case ProductKey(_, _) => assert suffix[7] == ':';
    case ProductListKey(_, _) => assert suffix == "products:" + ("list:" + hash(key.query));
    case UserKey(_, _) => assert suffix[0] == 'u';
  }

  /**
   * The invalidation patterns hit exactly the collection keys of their own tenant: every list and
   * tree, no single entity, no other family, no other tenant.
   */
  lemma PatternsMatchExactlyTheirFamily(tenant: Id, key: CacheKey, hash: string -> string)
    requires ColonFree(tenant) && IsPlain(tenant) && ColonFree(key.tenant)
    ensures GlobMatches(CategoriesPattern(tenant), Text(key, hash)) <==> InCategoryCollections(key, tenant)
    ensures GlobMatches(ProductsPattern(tenant), Text(key, hash)) <==> InProductCollections(key, tenant)
  {
    PartPattern(tenant, "categories:", key, hash);
    CategoriesPrefix(key, hash);
    PartPattern(tenant, "products:", key, hash);
    ProductsPrefix(key, hash);
  }

  // ---------------------------------------------------------------------------------------------
  // Different keys have different texts
  // ---------------------------------------------------------------------------------------------

  /** Cuts a family prefix off. */
  lemma SamePrefix(prefix: string, a: string, b: string)
    requires prefix + a == prefix + b
    ensures a == b
  {
    assert (prefix + a)[|prefix|..] == a && (prefix + b)[|prefix|..] == b;
  }

  /** The family of a key can be read off its text. */
  function FamilyOf(suffix: string): nat {
    if "category:" <= suffix then 0
    else if "categories:list:" <= suffix then 1
    else if "categories:tree" <= suffix then 2
    else if "product:" <= suffix then 3
    else if "products:list:" <= suffix then 4
    else 5
  }

  lemma FamiliesAreDisjoint(key: CacheKey, hash: string -> string)
    ensures FamilyOf(Suffix(key, hash)) ==
      match key
      case CategoryKey(_, _) => 0
      case CategoryListKey(_, _) => 1
      case CategoryTreeKey(_) => 2
      case ProductKey(_, _) => 3
      case ProductListKey(_, _) => 4
      case UserKey(_, _) => 5
  {
    var suffix := Suffix(key, hash);
    match key
    case CategoryKey(_, _) =>
    case CategoryListKey(_, _) => assert suffix[7] == 'i';
    case CategoryTreeKey(_) => assert suffix[7] == 'i' && suffix[11] == 't';
    case ProductKey(_, _) => assert suffix[0] == 'p';
    case ProductListKey(_, _) => assert suffix[0] == 'p' && suffix[7] == 's';
    case UserKey(_, _) => assert suffix[0] == 'u';
  }

  /** Keys of tenants without colons never share a text, whatever the identifiers, if query digests do not collide. */
  lemma TextsAreInjective(a: CacheKey, b: CacheKey, hash: string -> string)
    requires ColonFree(a.tenant) && ColonFree(b.tenant) && InjectiveHash(hash)
    requires Text(a, hash) == Text(b, hash)
    ensures a == b
  {
    SamePrefix("t:", a.tenant + ":" + Suffix(a, hash), b.tenant + ":" + Suffix(b, hash));
    JoinIsInjective(a.tenant, Suffix(a, hash), b.tenant, Suffix(b, hash));
    FamiliesAreDisjoint(a, hash);
    FamiliesAreDisjoint(b, hash);
    match a
    case CategoryKey(_, id) => SamePrefix("category:", id, b.id);
    case CategoryListKey(_, query) => SamePrefix("categories:list:", hash(query), hash(b.query));
    case CategoryTreeKey(_) =>
    case ProductKey(_, id) => SamePrefix("product:", id, b.id);
    case ProductListKey(_, query) => SamePrefix("products:list:", hash(query), hash(b.query));
    case UserKey(_, id) => SamePrefix("user:", id, b.id);
  }
}
