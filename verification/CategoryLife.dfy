/** The category hierarchy over whole runs: when does the tree show every live category? */
module CategoryLife {
  import opened Common
  import opened CatalogModel
  import opened CatalogDb
  import opened CatalogIntegrity
  import opened ParentGraph
  import opened CategoryTree
  import Slug

  /** The parent pointers of a tenant's live categories. */
  ghost function LiveParents(db: Db, tenant: Id): Parents {
    map id | id in db.categories && IsLiveCategory(db, tenant, id) :: ParentOf(db.categories[id])
  }

  /** No cycles: every live category's parent chain ends at a live category without a parent. */
  ghost predicate CycleFree(db: Db) {
    forall tenant :: AllGrounded(LiveParents(db, tenant))
  }

  /** `id` is `top` or one of its descendants. */
  ghost predicate WithinSubtree(db: Db, tenant: Id, top: Id, id: Id) {
    exists n: nat :: Below(LiveParents(db, tenant), top, id, n)
  }

  /**
   * The update asks to put a live category below one of its own descendants, under a name and slug
   * that are free.  All of this can be looked up before the call.
   */
  ghost predicate MovesIntoItself(unicode: Slug.Unicode, db: Db, command: Command) {
    && command.CategoryUpdate?
    && command.categoryChange.parentId.Value?
    && var to := command.categoryChange.parentId.value;
       && to != ""
       && to != command.id
       && IsLiveCategory(db, command.tenant, command.id)
       && WithinSubtree(db, command.tenant, command.id, to)
       && !ViolatesCategoryConstraints(db, Renamed(unicode, db.categories[command.id], command.categoryChange))
  }

  // ---------------------------------------------------------------------------------------------
  // One operation
  // ---------------------------------------------------------------------------------------------

  lemma StoredPointer(db: Db, row: Category, tenant: Id)
    requires !row.deleted
    requires row.id in db.categories ==> IsLiveCategory(db, row.tenant, row.id)
    ensures
      LiveParents(db.(categories := db.categories[row.id := row]), tenant) ==
      if tenant == row.tenant then LiveParents(db, tenant)[row.id := ParentOf(row)] else LiveParents(db, tenant)
  {
    var after := LiveParents(db.(categories := db.categories[row.id := row]), tenant);
    forall id | id != row.id ensures id in after <==> id in LiveParents(db, tenant) {
    }
  }

  lemma SaveMovesOnePointer(db: Db, row: Category, tenant: Id)
    requires !row.deleted
    requires row.id in db.categories ==> IsLiveCategory(db, row.tenant, row.id)
    ensures
      LiveParents(SaveCategory(db, row).0, tenant) ==
      if tenant == row.tenant && SaveCategory(db, row).1.Ok? then LiveParents(db, tenant)[row.id := ParentOf(row)]
      else LiveParents(db, tenant)
  {
    StoredPointer(db, row, tenant);
  }

  lemma RemoveDropsOnePointer(db: Db, tenant: Id, id: Id, other: Id)
    ensures
      LiveParents(RemoveCategory(db, tenant, id).0, other) ==
      if other == tenant && RemoveCategory(db, tenant, id).1.Ok? then LiveParents(db, tenant) - {id}
      else LiveParents(db, other)
  {
    var db' := RemoveCategory(db, tenant, id).0;
    var expected :=
      if other == tenant && RemoveCategory(db, tenant, id).1.Ok? then LiveParents(db, tenant) - {id}
      else LiveParents(db, other);
    assert LiveParents(db', other).Keys == expected.Keys;
    assert LiveParents(db', other) == expected;
  }

  lemma CreateKeepsCycleFree(unicode: Slug.Unicode, db: Db, tenant: Id, dto: CreateCategoryDto, newId: Id)
    requires CycleFree(db) && newId !in db.categories
    ensures CycleFree(CreateCategory(unicode, db, tenant, dto, newId).0)
  {
    var slug := Slug.GenerateSlug(unicode, if Truthy(dto.slug) then dto.slug.value else dto.name);
    var row := Category(newId, tenant, dto.name, slug, if Truthy(dto.parentId) then dto.parentId else None, false);
    if !SlugTaken(db, tenant, slug, None) && !(Truthy(dto.parentId) && !IsLiveCategory(db, tenant, dto.parentId.value)) {
      AddKeepsAllGrounded(LiveParents(db, tenant), newId, ParentOf(row));
      forall t ensures AllGrounded(LiveParents(SaveCategory(db, row).0, t)) {
        SaveMovesOnePointer(db, row, t);
      }
    }
  }

  lemma RemoveKeepsCycleFree(db: Db, tenant: Id, id: Id)
    requires CycleFree(db)
    ensures CycleFree(RemoveCategory(db, tenant, id).0)
  {
    if RemoveCategory(db, tenant, id).1.Ok? {
      forall c | c in LiveParents(db, tenant) ensures LiveParents(db, tenant)[c] != Some(id) {
        assert IsLiveCategory(db, tenant, c);
      }
      RemoveKeepsAllGrounded(LiveParents(db, tenant), id);
    }
    forall t ensures AllGrounded(LiveParents(RemoveCategory(db, tenant, id).0, t)) {
      RemoveDropsOnePointer(db, tenant, id, t);
    }
  }

  /** Same pointer, same graph; a pointer to the top; or a pointer below another live category. */
  lemma RepointKeepsCycleFree(parents: Parents, id: Id, to: Option<Id>)
    requires AllGrounded(parents) && id in parents
    requires to.Some? ==> to == parents[id] || to.value in parents
    ensures
      AllGrounded(parents[id := to]) <==>
      to == parents[id] || to.None? || !exists n: nat :: Below(parents, id, to.value, n)
  {
    if to == parents[id] {
      assert parents[id := to] == parents;
    } else if to.None? {
      MoveToTheTopKeepsAllGrounded(parents, id);
    } else {
      var m: nat :| AtDepth(parents, to.value, m);
      MoveKeepsAllGroundedExactlyWhenNotBelow(parents, id, to.value, m);
      if n: nat :| Below(parents, id, to.value, n) {
        DepthIsUnique(parents, to.value, n, m);
      }
      assert id in Chain(parents, to.value, m) ==> Below(parents, id, to.value, m);
    }
  }

  /** Nobody's declared parent lies in its own subtree when there are no cycles. */
  lemma ParentIsNotBelow(parents: Parents, id: Id, n: nat)
    requires AllGrounded(parents) && id in parents && parents[id].Some?
    ensures !Below(parents, id, parents[id].value, n)
  {
    if Below(parents, id, parents[id].value, n) {
      ChainMembersAreHigher(parents, parents[id].value, n, id);
      var m: nat :| m <= n && AtDepth(parents, id, m);
      DepthIsUnique(parents, id, m, n + 1);
      assert false;
    }
  }

  ghost predicate OnePointerMoved(db: Db, db': Db, tenant: Id, id: Id, to: Option<Id>) {
    && LiveParents(db', tenant) == LiveParents(db, tenant)[id := to]
    && forall t :: t != tenant ==> LiveParents(db', t) == LiveParents(db, t)
  }

  lemma DeclaredParentIsOutside(db: Db, tenant: Id, id: Id)
    requires CycleFree(db) && IsLiveCategory(db, tenant, id) && ParentOf(db.categories[id]).Some?
    ensures !WithinSubtree(db, tenant, id, ParentOf(db.categories[id]).value)
  {
    var parents := LiveParents(db, tenant);
    forall n: nat ensures !Below(parents, id, parents[id].value, n) {
      ParentIsNotBelow(parents, id, n);
    }
  }

  lemma MovedPointerKeepsCycleFree(db: Db, db': Db, tenant: Id, id: Id, to: Option<Id>)
    requires CycleFree(db) && OnePointerMoved(db, db', tenant, id, to) && IsLiveCategory(db, tenant, id)
    requires to.Some? ==> to == LiveParents(db, tenant)[id] || to.value in LiveParents(db, tenant)
    ensures CycleFree(db') <==> to.None? || !WithinSubtree(db, tenant, id, to.value)
  {
    var parents := LiveParents(db, tenant);
    RepointKeepsCycleFree(parents, id, to);
    if to.Some? && to == parents[id] {
      DeclaredParentIsOutside(db, tenant, id);
    }
    assert CycleFree(db') <==> AllGrounded(LiveParents(db', tenant));
  }

  /** An accepted update changes one pointer of one tenant. */
  lemma UpdateMovesOnePointer(unicode: Slug.Unicode, db: Db, tenant: Id, id: Id, dto: UpdateCategoryDto, to: Option<Id>)
    requires Keyed(db) && UpdateCategory(unicode, db, tenant, id, dto).1.Ok?
    requires to == ParentOf(db.categories[id].(parent := NewParent(dto, db.categories[id].parent)))
    ensures IsLiveCategory(db, tenant, id)
    ensures to.Some? ==> to == LiveParents(db, tenant)[id] || to.value in LiveParents(db, tenant)
    ensures OnePointerMoved(db, UpdateCategory(unicode, db, tenant, id, dto).0, tenant, id, to)
  {
    var target := Renamed(unicode, db.categories[id], dto);
    RenamedKeepsTheRest(unicode, db.categories[id], dto);
    var row := target.(parent := NewParent(dto, target.parent));
    forall t ensures LiveParents(SaveCategory(db, row).0, t) == if t == tenant then LiveParents(db, tenant)[id := to] else LiveParents(db, t) {
      SaveMovesOnePointer(db, row, t);
    }
  }

  lemma SlugCheckIsCovered(db: Db, row: Category)
    ensures SlugTaken(db, row.tenant, row.slug, Some(row.id)) ==> ViolatesCategoryConstraints(db, row)
  {
    if SlugTaken(db, row.tenant, row.slug, Some(row.id)) {
      var other :| other in db.categories && IsLiveCategory(db, row.tenant, other)
                && db.categories[other].slug == row.slug && Some(row.id) != Some(other);
      assert other != row.id;
    }
  }

  lemma SameConstraints(db: Db, row: Category, moved: Category)
    requires moved == row.(parent := moved.parent)
    ensures ViolatesCategoryConstraints(db, row) <==> ViolatesCategoryConstraints(db, moved)
  {
  }

  /** Live rows are among those that the constraints of the table cover, so the slug check adds nothing to them. */
  lemma AcceptedMoves(unicode: Slug.Unicode, db: Db, tenant: Id, id: Id, dto: UpdateCategoryDto)
    requires Keyed(db) && IsLiveCategory(db, tenant, id)
    requires dto.parentId.Value? && dto.parentId.value != "" && IsLiveCategory(db, tenant, dto.parentId.value)
    ensures
      UpdateCategory(unicode, db, tenant, id, dto).1.Ok? <==>
      dto.parentId.value != id && !ViolatesCategoryConstraints(db, Renamed(unicode, db.categories[id], dto))
  {
    var target := Renamed(unicode, db.categories[id], dto);
    RenamedKeepsTheRest(unicode, db.categories[id], dto);
    SlugCheckIsCovered(db, target);
    SameConstraints(db, target, target.(parent := NewParent(dto, target.parent)));
  }

  lemma SubtreesAreLive(db: Db, tenant: Id, top: Id, id: Id)
    requires WithinSubtree(db, tenant, top, id)
    ensures IsLiveCategory(db, tenant, id)
  {
    var n: nat :| Below(LiveParents(db, tenant), top, id, n);
  }

  /** The guards are exact: such an update is accepted, and an accepted move below the category passes them. */
  lemma MovesIntoItselfAreAccepted(unicode: Slug.Unicode, db: Db, tenant: Id, id: Id, dto: UpdateCategoryDto)
    requires Keyed(db)
    ensures MovesIntoItself(unicode, db, CategoryUpdate(tenant, id, dto)) <==>
      && UpdateCategory(unicode, db, tenant, id, dto).1.Ok?
      && dto.parentId.Value? && dto.parentId.value != ""
      && WithinSubtree(db, tenant, id, dto.parentId.value)
  {
    if IsLiveCategory(db, tenant, id) && dto.parentId.Value? && dto.parentId.value != ""
      && WithinSubtree(db, tenant, id, dto.parentId.value)
    {
      SubtreesAreLive(db, tenant, id, dto.parentId.value);
      AcceptedMoves(unicode, db, tenant, id, dto);
    }
  }

  lemma UpdateKeepsCycleFree(unicode: Slug.Unicode, db: Db, tenant: Id, id: Id, dto: UpdateCategoryDto)
    requires Keyed(db) && CycleFree(db)
    ensures
      CycleFree(UpdateCategory(unicode, db, tenant, id, dto).0) <==>
      !MovesIntoItself(unicode, db, CategoryUpdate(tenant, id, dto))
  {
    MovesIntoItselfAreAccepted(unicode, db, tenant, id, dto);
    if UpdateCategory(unicode, db, tenant, id, dto).1.Ok? {
      var to := ParentOf(db.categories[id].(parent := NewParent(dto, db.categories[id].parent)));
      UpdateMovesOnePointer(unicode, db, tenant, id, dto, to);
      MovedPointerKeepsCycleFree(db, UpdateCategory(unicode, db, tenant, id, dto).0, tenant, id, to);
      if ParentOf(db.categories[id]).Some? {
        DeclaredParentIsOutside(db, tenant, id);
      }
    }
  }

  lemma OtherCommandsLeaveCategories(unicode: Slug.Unicode, db: Db, command: Command)
    requires !command.CategoryCreate? && !command.CategoryUpdate? && !command.CategoryRemove?
    ensures forall tenant :: LiveParents(Execute(unicode, db, command), tenant) == LiveParents(db, tenant)
  {
    var db' := Execute(unicode, db, command);
    assert db'.categories == db.categories;
    forall tenant ensures LiveParents(db', tenant) == LiveParents(db, tenant) {
      assert LiveParents(db', tenant).Keys == LiveParents(db, tenant).Keys;
    }
  }

  /**
   * The exact condition under which an operation keeps the hierarchy free of cycles: it is not a
   * move of a category below one of its descendants.  The original only refuses the category itself.
   */
  lemma ExecuteKeepsCycleFreeExactly(unicode: Slug.Unicode, db: Db, command: Command)
    requires Keyed(db) && FreshId(db, command) && CycleFree(db)
    ensures CycleFree(Execute(unicode, db, command)) <==> !MovesIntoItself(unicode, db, command)
  {
    match command
    case CategoryCreate(tenant, dto, newId) => CreateKeepsCycleFree(unicode, db, tenant, dto, newId);
    case CategoryUpdate(tenant, id, dto) => UpdateKeepsCycleFree(unicode, db, tenant, id, dto);
    case CategoryRemove(tenant, id) => RemoveKeepsCycleFree(db, tenant, id);
    case _ => OtherCommandsLeaveCategories(unicode, db, command);
  }

  // ---------------------------------------------------------------------------------------------
  // Whole runs
  // ---------------------------------------------------------------------------------------------

  /** No operation of the run moves a category into its own subtree. */
  ghost predicate NeverIntoItself(unicode: Slug.Unicode, db: Db, commands: seq<Command>) {
    forall i :: 0 <= i < |commands| ==> !MovesIntoItself(unicode, Run(unicode, db, commands[..i]), commands[i])
  }

  lemma {:induction false} RunKeepsCycleFree(unicode: Slug.Unicode, db: Db, commands: seq<Command>)
    requires Integrity(db) && FreshIds(unicode, db, commands) && CycleFree(db)
    requires NeverIntoItself(unicode, db, commands)
    ensures CycleFree(Run(unicode, db, commands))
  {
    if commands != [] {
      FreshPrefix(unicode, db, commands);
      var n := |commands| - 1;
      var prefix := commands[..n];
      forall i | 0 <= i < n ensures !MovesIntoItself(unicode, Run(unicode, db, prefix[..i]), prefix[i]) {
        assert prefix[..i] == commands[..i];
      }
      RunKeepsCycleFree(unicode, db, prefix);
      RunKeepsIntegrity(unicode, db, prefix);
      ExecuteKeepsCycleFreeExactly(unicode, Run(unicode, db, prefix), commands[n]);
    }
  }

  // ---------------------------------------------------------------------------------------------
  // The tree
  // ---------------------------------------------------------------------------------------------

  /** The tenant's live categories, each once, in any order. */
  ghost predicate IsListing(db: Db, tenant: Id, list: seq<Category>) {
    && (forall i :: 0 <= i < |list| ==> IsLiveCategory(db, tenant, list[i].id) && db.categories[list[i].id] == list[i])
    && (forall id :: id in db.categories && IsLiveCategory(db, tenant, id) ==> Listed(list, id))
    && UniqueIds(list)
  }

  lemma ListingGivesTheGraph(db: Db, tenant: Id, list: seq<Category>)
    requires IsListing(db, tenant, list)
    ensures ParentMap(list) == LiveParents(db, tenant)
  {
    ParentMapIsExact(list);
    assert ParentMap(list).Keys == LiveParents(db, tenant).Keys by {
      forall id ensures id in ParentMap(list) <==> id in LiveParents(db, tenant) {
      }
    }
    forall id | id in ParentMap(list) ensures ParentMap(list)[id] == LiveParents(db, tenant)[id] {
      var i :| 0 <= i < |list| && list[i].id == id;
    }
  }

  /** The tree shows a category, and then exactly once, just when it is live and not on or below a cycle. */
  lemma TreeShowsTheGrounded(db: Db, tenant: Id, list: seq<Category>, id: Id)
    requires IsListing(db, tenant, list)
    ensures OccurrencesIn(Forest(list), id) == if Grounded(LiveParents(db, tenant), id) then 1 else 0
    ensures Grounded(LiveParents(db, tenant), id) ==> IsLiveCategory(db, tenant, id)
  {
    ListingGivesTheGraph(db, tenant, list);
    ForestIsExact(list);
  }

  /**
   * After any run that moves no category into its own subtree, the tree of every tenant lists every
   * live category exactly once and nothing else.
   */
  lemma TreeIsComplete(unicode: Slug.Unicode, db: Db, commands: seq<Command>, tenant: Id, list: seq<Category>, id: Id)
    requires Integrity(db) && FreshIds(unicode, db, commands) && CycleFree(db)
    requires NeverIntoItself(unicode, db, commands)
    requires IsListing(Run(unicode, db, commands), tenant, list)
    ensures OccurrencesIn(Forest(list), id) == if IsLiveCategory(Run(unicode, db, commands), tenant, id) then 1 else 0
  {
    RunKeepsCycleFree(unicode, db, commands);
    TreeShowsTheGrounded(Run(unicode, db, commands), tenant, list, id);
  }

  lemma BothAreUngrounded(parents: Parents, id: Id, to: Id, m: nat)
    requires Below(parents, id, to, m)
    ensures !Grounded(parents[id := Some(to)], id) && !Grounded(parents[id := Some(to)], to)
  {
    var changed := parents[id := Some(to)];
    forall n: nat ensures !AtDepth(changed, id, n) {
      MoveBelowItselfClosesACycle(parents, id, to, m, n);
    }
    forall n: nat ensures !AtDepth(changed, to, n) {
      MoveBelowItselfClosesACycle(parents, id, to, m, n);
    }
  }

  /** A category moved into its own subtree is live but no longer in the tree, and neither is its new parent. */
  lemma MovedIntoItselfVanishes(unicode: Slug.Unicode, db: Db, command: Command, list: seq<Category>)
    requires Keyed(db) && CycleFree(db) && MovesIntoItself(unicode, db, command)
    requires IsListing(Execute(unicode, db, command), command.tenant, list)
    ensures IsLiveCategory(Execute(unicode, db, command), command.tenant, command.id)
    ensures OccurrencesIn(Forest(list), command.id) == 0
    ensures OccurrencesIn(Forest(list), command.categoryChange.parentId.value) == 0
  {
    var tenant, id, dto := command.tenant, command.id, command.categoryChange;
    var to := dto.parentId.value;
    MovesIntoItselfAreAccepted(unicode, db, tenant, id, dto);
    var parents := LiveParents(db, tenant);
    var db' := Execute(unicode, db, command);
    UpdateMovesOnePointer(unicode, db, tenant, id, dto, Some(to));
    var changed := parents[id := Some(to)];
    assert LiveParents(db', tenant) == changed;
    var m: nat :| Below(parents, id, to, m);
    BothAreUngrounded(parents, id, to, m);
    TreeShowsTheGrounded(db', tenant, list, id);
    TreeShowsTheGrounded(db', tenant, list, to);
  }

  /** A root with one child. */
  function TwoLevels(tenant: Id): Db {
    Db(
      map["a" := Category("a", tenant, "A", "a", None, false), "b" := Category("b", tenant, "B", "b", Some("a"), false)],
      map[],
      map[])
  }

  lemma OneWordIsASlug(word: string)
    requires Slug.IsWord(word)
    ensures Slug.IsSlug(word)
  {
    assert Slug.AreWords([word]) && Slug.Join([word]) == word;
  }

  lemma TwoLevelsAreSound(tenant: Id)
    ensures Integrity(TwoLevels(tenant))
  {
    OneWordIsASlug("a");
    OneWordIsASlug("b");
  }

  lemma TwoLevelsAreCycleFree(tenant: Id)
    ensures CycleFree(TwoLevels(tenant)) && WithinSubtree(TwoLevels(tenant), tenant, "a", "b")
  {
    var db := TwoLevels(tenant);
    forall t ensures AllGrounded(LiveParents(db, t)) {
      var parents := LiveParents(db, t);
      assert "a" in parents ==> AtDepth(parents, "a", 0);
      assert "b" in parents ==> AtDepth(parents, "b", 1);
    }
    var parents := LiveParents(db, tenant);
    assert AtDepth(parents, "a", 0) && AtDepth(parents, "b", 1);
    assert "a" in Chain(parents, "a", 0) && "a" in Chain(parents, "b", 1);
    assert Below(parents, "a", "b", 1);
  }

  /** The move is accepted: a root goes below its own child. */
  lemma RootMovedBelowItsChild(unicode: Slug.Unicode, tenant: Id)
    ensures
      var move := CategoryUpdate(tenant, "a", UpdateCategoryDto(None, None, Value("b")));
      Integrity(TwoLevels(tenant)) && CycleFree(TwoLevels(tenant)) && MovesIntoItself(unicode, TwoLevels(tenant), move)
  {
    TwoLevelsAreSound(tenant);
    TwoLevelsAreCycleFree(tenant);
  }
}
