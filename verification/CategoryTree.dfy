/** `buildTree`: a forest over mutable nodes from a list of categories with arbitrary parent pointers. */
module CategoryTree {
  import opened Common
  import opened CatalogModel
  import opened ParentGraph

  // ---------------------------------------------------------------------------------------------
  // The forest as a value
  // ---------------------------------------------------------------------------------------------

  datatype Tree = Tree(category: Category, children: seq<Tree>)

  ghost predicate UniqueIds(categories: seq<Category>) {
    forall i, j :: 0 <= i < j < |categories| ==> categories[i].id != categories[j].id
  }

  /** The categories that declare `id` as their parent, in input order. */
  function ChildrenOf(categories: seq<Category>, id: Id): seq<Category> {
    if categories == [] then []
    else
      var last := categories[|categories| - 1];
      ChildrenOf(categories[..|categories| - 1], id) + if ParentOf(last) == Some(id) then [last] else []
  }

  /** The categories without a parent, in input order. */
  function RootsOf(categories: seq<Category>): seq<Category> {
    if categories == [] then []
    else
      var last := categories[|categories| - 1];
      RootsOf(categories[..|categories| - 1]) + if ParentOf(last) == None then [last] else []
  }

  function ParentMap(categories: seq<Category>): Parents {
    if categories == [] then map[]
    else
      var last := categories[|categories| - 1];
      ParentMap(categories[..|categories| - 1])[last.id := ParentOf(last)]
  }

  /** A tree cut off below `fuel` levels. */
  function Grow(categories: seq<Category>, category: Category, fuel: nat): Tree
    decreases fuel, 0
  {
    Tree(category, if fuel == 0 then [] else GrowAll(categories, ChildrenOf(categories, category.id), fuel - 1))
  }

  function GrowAll(categories: seq<Category>, list: seq<Category>, fuel: nat): seq<Tree>
    decreases fuel, |list|
  {
    if list == [] then []
    else GrowAll(categories, list[..|list| - 1], fuel) + [Grow(categories, list[|list| - 1], fuel)]
  }

  /** No chain of a list is longer than the list, so nothing is cut off here: see ForestIsExact. */
  function Forest(categories: seq<Category>): seq<Tree> {
    GrowAll(categories, RootsOf(categories), |categories|)
  }

  /** Every node of the tree has all its declared children below it, in input order. */
  ghost predicate Whole(categories: seq<Category>, tree: Tree) {
    var children := ChildrenOf(categories, tree.category.id);
    && |tree.children| == |children|
    && (forall i :: 0 <= i < |children| ==> tree.children[i].category == children[i])
    && (forall child :: child in tree.children ==> Whole(categories, child))
  }

  /** How often a category occurs in a tree, at any depth. */
  function Occurrences(tree: Tree, id: Id): nat {
    (if tree.category.id == id then 1 else 0) + OccurrencesIn(tree.children, id)
  }

  function OccurrencesIn(trees: seq<Tree>, id: Id): nat {
    if trees == [] then 0
    else OccurrencesIn(trees[..|trees| - 1], id) + Occurrences(trees[|trees| - 1], id)
  }

  // ---------------------------------------------------------------------------------------------
  // Selections of a list
  // ---------------------------------------------------------------------------------------------

  ghost predicate Listed(categories: seq<Category>, id: Id) {
    exists i :: 0 <= i < |categories| && categories[i].id == id
  }

  lemma {:induction false} ParentMapKeys(categories: seq<Category>)
    ensures forall id :: id in ParentMap(categories) <==> Listed(categories, id)
  {
    if categories != [] {
      var prefix, last := categories[..|categories| - 1], categories[|categories| - 1];
      ParentMapKeys(prefix);
      forall id ensures id in ParentMap(categories) <==> Listed(categories, id) {
        if Listed(prefix, id) {
          var i :| 0 <= i < |prefix| && prefix[i].id == id;
          assert categories[i].id == id;
        }
      }
    }
  }

  lemma {:induction false} ParentMapValue(categories: seq<Category>, i: nat)
    requires UniqueIds(categories) && i < |categories|
    ensures categories[i].id in ParentMap(categories)
    ensures ParentMap(categories)[categories[i].id] == ParentOf(categories[i])
  {
    if i < |categories| - 1 {
      ParentMapValue(categories[..|categories| - 1], i);
    }
  }

  lemma {:induction false} ParentMapSize(categories: seq<Category>)
    requires UniqueIds(categories)
    ensures |ParentMap(categories)| == |categories|
  {
    if categories != [] {
      var prefix, last := categories[..|categories| - 1], categories[|categories| - 1];
      ParentMapSize(prefix);
      ParentMapKeys(prefix);
      assert !Listed(prefix, last.id);
    }
  }

  lemma ParentMapIsExact(categories: seq<Category>)
    requires UniqueIds(categories)
    ensures forall id :: id in ParentMap(categories) <==> Listed(categories, id)
    ensures forall i :: 0 <= i < |categories| ==>
      categories[i].id in ParentMap(categories) && ParentMap(categories)[categories[i].id] == ParentOf(categories[i])
  {
    ParentMapKeys(categories);
    forall i | 0 <= i < |categories|
      ensures categories[i].id in ParentMap(categories) && ParentMap(categories)[categories[i].id] == ParentOf(categories[i])
    {
      ParentMapValue(categories, i);
    }
  }

  lemma {:induction false} ChildrenAreSelected(categories: seq<Category>, id: Id)
    requires UniqueIds(categories)
    ensures UniqueIds(ChildrenOf(categories, id))
    ensures forall c :: c in ChildrenOf(categories, id) <==> c in categories && ParentOf(c) == Some(id)
  {
    if categories != [] {
      var prefix, last := categories[..|categories| - 1], categories[|categories| - 1];
      ChildrenAreSelected(prefix, id);
      forall c | c in ChildrenOf(prefix, id) ensures c.id != last.id {
        assert c in prefix;
      }
    }
  }

  lemma {:induction false} RootsAreSelected(categories: seq<Category>)
    requires UniqueIds(categories)
    ensures UniqueIds(RootsOf(categories))
    ensures forall c :: c in RootsOf(categories) <==> c in categories && ParentOf(c) == None
  {
    if categories != [] {
      var prefix, last := categories[..|categories| - 1], categories[|categories| - 1];
      RootsAreSelected(prefix);
      forall c | c in RootsOf(prefix) ensures c.id != last.id {
        assert c in prefix;
      }
    }
  }

  lemma {:induction false} ChildrenOfBoth(a: seq<Category>, b: seq<Category>, id: Id)
    ensures ChildrenOf(a + b, id) == ChildrenOf(a, id) + ChildrenOf(b, id)
  {
    if b == [] {
      assert a + b == a;
    } else {
      ChildrenOfBoth(a, b[..|b| - 1], id);
      assert (a + b)[..|a + b| - 1] == a + b[..|b| - 1];
    }
  }

  lemma {:induction false} RootsOfBoth(a: seq<Category>, b: seq<Category>)
    ensures RootsOf(a + b) == RootsOf(a) + RootsOf(b)
  {
    if b == [] {
      assert a + b == a;
    } else {
      RootsOfBoth(a, b[..|b| - 1]);
      assert (a + b)[..|a + b| - 1] == a + b[..|b| - 1];
    }
  }

  /**
   * Roots and siblings keep the input order: selecting from a list put together of two is selecting
   * from both, and a single category is selected or not.
   */
  lemma SelectionsKeepTheOrder(a: seq<Category>, b: seq<Category>, c: Category, id: Id)
    ensures ChildrenOf(a + b, id) == ChildrenOf(a, id) + ChildrenOf(b, id)
    ensures RootsOf(a + b) == RootsOf(a) + RootsOf(b)
    ensures ChildrenOf([c], id) == if c.parent == Some(id) && id != "" then [c] else []
    ensures RootsOf([c]) == if c.parent == None || c.parent == Some("") then [c] else []
  {
    ChildrenOfBoth(a, b, id);
    RootsOfBoth(a, b);
  }

  /** All of the list sits at the same depth of the parent graph. */
  ghost predicate Level(categories: seq<Category>, list: seq<Category>, depth: nat) {
    && UniqueIds(list)
    && forall c :: c in list ==> c in categories && AtDepth(ParentMap(categories), c.id, depth)
  }

  lemma LevelOfLast(categories: seq<Category>, list: seq<Category>, depth: nat)
    requires list != [] && Level(categories, list, depth)
    ensures Level(categories, list[..|list| - 1], depth)
    ensures list[|list| - 1] in categories && AtDepth(ParentMap(categories), list[|list| - 1].id, depth)
  {
    assert list[|list| - 1] in list;
  }

  lemma RootsAreLevelZero(categories: seq<Category>)
    requires UniqueIds(categories)
    ensures Level(categories, RootsOf(categories), 0)
  {
    ParentMapIsExact(categories);
    RootsAreSelected(categories);
  }

  lemma ChildrenAreOneLevelDown(categories: seq<Category>, category: Category, depth: nat)
    requires UniqueIds(categories) && AtDepth(ParentMap(categories), category.id, depth)
    ensures Level(categories, ChildrenOf(categories, category.id), depth + 1)
  {
    ParentMapIsExact(categories);
    ChildrenAreSelected(categories, category.id);
  }

  /** A list at some depth still has fuel left. */
  lemma FuelIsLeft(categories: seq<Category>, id: Id, depth: nat, fuel: nat)
    requires UniqueIds(categories) && AtDepth(ParentMap(categories), id, depth) && depth + fuel >= |categories|
    ensures fuel > 0
  {
    ParentMapSize(categories);
    DepthIsBounded(ParentMap(categories), id, depth);
  }

  // ---------------------------------------------------------------------------------------------
  // The forest is whole and lists every grounded category exactly once
  // ---------------------------------------------------------------------------------------------

  lemma {:induction false} GrowIsWhole(categories: seq<Category>, category: Category, depth: nat, fuel: nat)
    requires UniqueIds(categories) && AtDepth(ParentMap(categories), category.id, depth)
    requires depth + fuel >= |categories|
    ensures Whole(categories, Grow(categories, category, fuel))
    decreases fuel, 0
  {
    FuelIsLeft(categories, category.id, depth, fuel);
    ChildrenAreOneLevelDown(categories, category, depth);
    GrowAllIsWhole(categories, ChildrenOf(categories, category.id), depth + 1, fuel - 1);
  }

  lemma {:induction false} GrowAllIsWhole(categories: seq<Category>, list: seq<Category>, depth: nat, fuel: nat)
    requires UniqueIds(categories) && Level(categories, list, depth) && depth + fuel >= |categories|
    ensures
      var trees := GrowAll(categories, list, fuel);
      && |trees| == |list|
      && (forall i :: 0 <= i < |list| ==> trees[i].category == list[i])
      && (forall tree :: tree in trees ==> Whole(categories, tree))
    decreases fuel, |list|
  {
    if list != [] {
      LevelOfLast(categories, list, depth);
      GrowAllIsWhole(categories, list[..|list| - 1], depth, fuel);
      GrowIsWhole(categories, list[|list| - 1], depth, fuel);
    }
  }

  lemma OccurrencesUnfold(categories: seq<Category>, category: Category, fuel: nat, x: Id)
    requires fuel > 0
    ensures Occurrences(Grow(categories, category, fuel), x)
         == (if category.id == x then 1 else 0)
            + OccurrencesIn(GrowAll(categories, ChildrenOf(categories, category.id), fuel - 1), x)
  {
  }

  lemma OccurrencesInLast(categories: seq<Category>, list: seq<Category>, fuel: nat, x: Id)
    requires list != []
    ensures OccurrencesIn(GrowAll(categories, list, fuel), x)
         == OccurrencesIn(GrowAll(categories, list[..|list| - 1], fuel), x)
            + Occurrences(Grow(categories, list[|list| - 1], fuel), x)
  {
    var trees := GrowAll(categories, list, fuel);
    assert trees == GrowAll(categories, list[..|list| - 1], fuel) + [Grow(categories, list[|list| - 1], fuel)];
    assert trees[..|trees| - 1] == GrowAll(categories, list[..|list| - 1], fuel);
  }

  /** `x` sits at depth `n`; a list at depth `depth` covers it just when it holds its ancestor at that depth. */
  ghost predicate Covers(categories: seq<Category>, list: seq<Category>, depth: nat, x: Id, n: nat)
    requires AtDepth(ParentMap(categories), x, n)
  {
    depth <= n && Listed(list, Ancestor(ParentMap(categories), x, n, n - depth))
  }

  lemma ChildListed(categories: seq<Category>, id: Id, child: Id)
    requires UniqueIds(categories) && child in ParentMap(categories)
    ensures Listed(ChildrenOf(categories, id), child) <==> ParentMap(categories)[child] == Some(id)
  {
    ParentMapIsExact(categories);
    ChildrenAreSelected(categories, id);
    var i :| 0 <= i < |categories| && categories[i].id == child;
    if ParentMap(categories)[child] == Some(id) {
      assert categories[i] in ChildrenOf(categories, id);
    }
    if Listed(ChildrenOf(categories, id), child) {
      var k :| 0 <= k < |ChildrenOf(categories, id)| && ChildrenOf(categories, id)[k].id == child;
      assert ChildrenOf(categories, id)[k] in categories;
    }
  }

  lemma ChildCovers(categories: seq<Category>, id: Id, depth: nat, x: Id, n: nat)
    requires UniqueIds(categories) && AtDepth(ParentMap(categories), x, n) && depth < n
    ensures Covers(categories, ChildrenOf(categories, id), depth + 1, x, n)
       <==> id == Ancestor(ParentMap(categories), x, n, n - depth)
  {
    AncestorsAreLinked(ParentMap(categories), x, n, n - depth - 1);
    ChildListed(categories, id, Ancestor(ParentMap(categories), x, n, n - depth - 1));
  }

  /** A node is the category itself, or one of its children covers it, or it is elsewhere. */
  lemma NodeOrChildren(categories: seq<Category>, id: Id, depth: nat, x: Id, n: nat)
    requires UniqueIds(categories) && AtDepth(ParentMap(categories), id, depth) && AtDepth(ParentMap(categories), x, n)
    ensures
      (if id == x then 1 else 0) + (if Covers(categories, ChildrenOf(categories, id), depth + 1, x, n) then 1 else 0)
      == if depth <= n && id == Ancestor(ParentMap(categories), x, n, n - depth) then 1 else 0
  {
    if id == x {
      DepthIsUnique(ParentMap(categories), x, n, depth);
    }
    if depth < n {
      ChildCovers(categories, id, depth, x, n);
    }
  }

  lemma ListedInLast(list: seq<Category>, id: Id)
    requires list != [] && UniqueIds(list)
    ensures Listed(list, id) <==> Listed(list[..|list| - 1], id) || list[|list| - 1].id == id
    ensures !(Listed(list[..|list| - 1], id) && list[|list| - 1].id == id)
  {
  }

  lemma CoversInLast(categories: seq<Category>, list: seq<Category>, depth: nat, x: Id, n: nat)
    requires list != [] && UniqueIds(list) && AtDepth(ParentMap(categories), x, n)
    ensures
      var before := Covers(categories, list[..|list| - 1], depth, x, n);
      var atLast := depth <= n && list[|list| - 1].id == Ancestor(ParentMap(categories), x, n, n - depth);
      (Covers(categories, list, depth, x, n) <==> before || atLast) && !(before && atLast)
  {
    if depth <= n {
      ListedInLast(list, Ancestor(ParentMap(categories), x, n, n - depth));
    }
  }

  lemma {:induction false} OccurrencesInGrowAll(
    categories: seq<Category>, list: seq<Category>, depth: nat, fuel: nat, x: Id, n: nat)
    requires UniqueIds(categories) && Level(categories, list, depth) && depth + fuel >= |categories|
    requires AtDepth(ParentMap(categories), x, n)
    ensures OccurrencesIn(GrowAll(categories, list, fuel), x) == if Covers(categories, list, depth, x, n) then 1 else 0
    decreases fuel, |list|
  {
    if list != [] {
      LevelOfLast(categories, list, depth);
      OccurrencesInLast(categories, list, fuel, x);
      OccurrencesInGrowAll(categories, list[..|list| - 1], depth, fuel, x, n);
      OccurrencesInGrow(categories, list[|list| - 1], depth, fuel, x, n);
      CoversInLast(categories, list, depth, x, n);
    }
  }

  lemma {:induction false} OccurrencesInGrow(
    categories: seq<Category>, category: Category, depth: nat, fuel: nat, x: Id, n: nat)
    requires UniqueIds(categories) && category in categories && depth + fuel >= |categories|
    requires AtDepth(ParentMap(categories), category.id, depth) && AtDepth(ParentMap(categories), x, n)
    ensures Occurrences(Grow(categories, category, fuel), x)
         == if depth <= n && category.id == Ancestor(ParentMap(categories), x, n, n - depth) then 1 else 0
    decreases fuel, 0
  {
    FuelIsLeft(categories, category.id, depth, fuel);
    ChildrenAreOneLevelDown(categories, category, depth);
    OccurrencesInGrowAll(categories, ChildrenOf(categories, category.id), depth + 1, fuel - 1, x, n);
    OccurrencesUnfold(categories, category, fuel, x);
    NodeOrChildren(categories, category.id, depth, x, n);
  }

  lemma GroundedIsAnother(parents: Parents, id: Id, depth: nat, x: Id)
    requires AtDepth(parents, id, depth) && !Grounded(parents, x)
    ensures id != x
  {
  }

  lemma OccurrencesInLeaf(categories: seq<Category>, category: Category, x: Id)
    ensures Occurrences(Grow(categories, category, 0), x) == if category.id == x then 1 else 0
  {
  }

  /** Nothing that is not grounded occurs anywhere. */
  lemma {:induction false} UngroundedNeverOccur(
    categories: seq<Category>, list: seq<Category>, depth: nat, fuel: nat, x: Id)
    requires UniqueIds(categories) && Level(categories, list, depth) && !Grounded(ParentMap(categories), x)
    ensures OccurrencesIn(GrowAll(categories, list, fuel), x) == 0
    decreases fuel, |list|
  {
    if list != [] {
      LevelOfLast(categories, list, depth);
      OccurrencesInLast(categories, list, fuel, x);
      UngroundedNeverOccur(categories, list[..|list| - 1], depth, fuel, x);
      UngroundedNeverOccurInTree(categories, list[|list| - 1], depth, fuel, x);
    }
  }

  lemma {:induction false} UngroundedNeverOccurInTree(
    categories: seq<Category>, category: Category, depth: nat, fuel: nat, x: Id)
    requires UniqueIds(categories) && AtDepth(ParentMap(categories), category.id, depth)
    requires !Grounded(ParentMap(categories), x)
    ensures Occurrences(Grow(categories, category, fuel), x) == 0
    decreases fuel, 0
  {
    GroundedIsAnother(ParentMap(categories), category.id, depth, x);
    if fuel == 0 {
      OccurrencesInLeaf(categories, category, x);
    } else {
      OccurrencesUnfold(categories, category, fuel, x);
      ChildrenAreOneLevelDown(categories, category, depth);
      UngroundedNeverOccur(categories, ChildrenOf(categories, category.id), depth + 1, fuel - 1, x);
    }
  }

  lemma GroundedCoveredByRoots(categories: seq<Category>, x: Id, n: nat)
    requires UniqueIds(categories) && AtDepth(ParentMap(categories), x, n)
    ensures Covers(categories, RootsOf(categories), 0, x, n)
  {
    ParentMapIsExact(categories);
    RootsAreSelected(categories);
    var top := Ancestor(ParentMap(categories), x, n, n);
    var i :| 0 <= i < |categories| && categories[i].id == top;
    assert categories[i] in RootsOf(categories);
  }

  /**
   * For any list with unique identifiers and any parent pointers, cycles and missing parents
   * included: the forest holds each category whose parent chain ends at a parentless category of the
   * list exactly once and no other category; its roots are the parentless categories in input order;
   * and below every node are all its declared children, in input order.
   */
  lemma ForestIsExact(categories: seq<Category>)
    requires UniqueIds(categories)
    ensures forall id :: OccurrencesIn(Forest(categories), id) == if Grounded(ParentMap(categories), id) then 1 else 0
    ensures |Forest(categories)| == |RootsOf(categories)|
    ensures forall i :: 0 <= i < |Forest(categories)| ==>
      Forest(categories)[i].category == RootsOf(categories)[i] && Whole(categories, Forest(categories)[i])
  {
    RootsAreLevelZero(categories);
    forall id ensures OccurrencesIn(Forest(categories), id) == if Grounded(ParentMap(categories), id) then 1 else 0 {
      if Grounded(ParentMap(categories), id) {
        var n: nat :| AtDepth(ParentMap(categories), id, n);
        OccurrencesInGrowAll(categories, RootsOf(categories), 0, |categories|, id, n);
        GroundedCoveredByRoots(categories, id, n);
      } else {
        UngroundedNeverOccur(categories, RootsOf(categories), 0, |categories|, id);
      }
    }
    GrowAllIsWhole(categories, RootsOf(categories), 0, |categories|);
  }
}
