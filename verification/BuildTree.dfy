/** `buildTree` over the heap: nodes in a map, pushed into each other's children. */
module BuildTree {
  import opened Common
  import opened CatalogModel
  import opened CategoryTree

  class Node {
    const category: Category
    var children: seq<Node>

    constructor (category: Category)
      ensures this.category == category && children == []
    {
      this.category := category;
      children := [];
    }
  }

  type NodeMap = map<Id, Node>

  predicate AllListed(nodes: NodeMap, list: seq<Category>) {
    forall i :: 0 <= i < |list| ==> list[i].id in nodes
  }

  /** The nodes that stand for the categories of a list. */
  function NodesOf(nodes: NodeMap, list: seq<Category>): seq<Node>
    requires AllListed(nodes, list)
  {
    seq(|list|, i requires 0 <= i < |list| => nodes[list[i].id])
  }

  /** A map keeps the last value stored under a key. */
  function LastWith(categories: seq<Category>, id: Id): Option<Category> {
    if categories == [] then None
    else if categories[|categories| - 1].id == id then Some(categories[|categories| - 1])
    else LastWith(categories[..|categories| - 1], id)
  }

  lemma {:induction false} ChildrenAreListed(nodes: NodeMap, categories: seq<Category>, id: Id)
    requires AllListed(nodes, categories)
    ensures AllListed(nodes, ChildrenOf(categories, id))
  {
    if categories != [] {
      ChildrenAreListed(nodes, categories[..|categories| - 1], id);
    }
  }

  lemma {:induction false} RootsAreListed(nodes: NodeMap, categories: seq<Category>)
    requires AllListed(nodes, categories)
    ensures AllListed(nodes, RootsOf(categories))
  {
    if categories != [] {
      RootsAreListed(nodes, categories[..|categories| - 1]);
    }
  }

  ghost predicate Injective(nodes: NodeMap) {
    forall a, b :: a in nodes && b in nodes && a != b ==> nodes[a] != nodes[b]
  }

  /** One node per identifier, holding the last category stored under it. */
  ghost predicate Indexed(nodes: NodeMap, categories: seq<Category>) {
    && AllListed(nodes, categories)
    && Injective(nodes)
    && (forall id :: id in nodes ==> LastWith(categories, id) == Some(nodes[id].category))
  }

  /** Every node's children are the nodes of the categories that declare it, in input order. */
  ghost predicate Linked(nodes: NodeMap, categories: seq<Category>)
    requires AllListed(nodes, categories)
    reads nodes.Values
  {
    forall id :: id in nodes ==>
      && AllListed(nodes, ChildrenOf(categories, id))
      && nodes[id].children == NodesOf(nodes, ChildrenOf(categories, id))
  }

  lemma PushOne(nodes: NodeMap, list: seq<Category>, last: Category)
    requires AllListed(nodes, list) && last.id in nodes
    ensures AllListed(nodes, list + [last])
    ensures NodesOf(nodes, list + [last]) == NodesOf(nodes, list) + [nodes[last.id]]
  {
  }

  method IndexNodes(categories: seq<Category>) returns (nodes: NodeMap)
    ensures Indexed(nodes, categories)
    ensures forall id :: id in nodes ==> fresh(nodes[id]) && nodes[id].children == []
  {
    nodes := map[];
    for i := 0 to |categories|
      invariant Indexed(nodes, categories[..i])
      invariant forall id :: id in nodes ==> fresh(nodes[id]) && nodes[id].children == []
    {
      var node := new Node(categories[i]);
      nodes := nodes[categories[i].id := node];
      assert categories[..i + 1][..i] == categories[..i];
    }
    assert categories[..|categories|] == categories;
  }

  method PushChild(nodes: NodeMap, parentId: Id, child: Node)
    requires Injective(nodes) && parentId in nodes
    modifies nodes[parentId]
    ensures forall id :: id in nodes ==>
      nodes[id].children == old(nodes[id].children) + if id == parentId then [child] else []
  {
    var parentNode := nodes[parentId];
    parentNode.children := parentNode.children + [child];
  }

  lemma LinkOne(nodes: NodeMap, before: seq<Category>, category: Category)
    requires AllListed(nodes, before) && category.id in nodes
    ensures AllListed(nodes, before + [category])
    ensures forall id :: id in nodes ==>
      && AllListed(nodes, ChildrenOf(before, id)) && AllListed(nodes, ChildrenOf(before + [category], id))
      && NodesOf(nodes, ChildrenOf(before + [category], id)) ==
         NodesOf(nodes, ChildrenOf(before, id)) + if ParentOf(category) == Some(id) then [nodes[category.id]] else []
  {
    assert (before + [category])[..|before|] == before;
    forall id | id in nodes
      ensures AllListed(nodes, ChildrenOf(before, id)) && AllListed(nodes, ChildrenOf(before + [category], id))
      ensures NodesOf(nodes, ChildrenOf(before + [category], id)) ==
        NodesOf(nodes, ChildrenOf(before, id)) + if ParentOf(category) == Some(id) then [nodes[category.id]] else []
    {
      ChildrenAreListed(nodes, before, id);
      PushOne(nodes, ChildrenOf(before, id), category);
    }
  }

  lemma RootOne(nodes: NodeMap, before: seq<Category>, category: Category)
    requires AllListed(nodes, RootsOf(before)) && category.id in nodes
    ensures AllListed(nodes, RootsOf(before + [category]))
    ensures NodesOf(nodes, RootsOf(before + [category])) ==
      NodesOf(nodes, RootsOf(before)) + if ParentOf(category) == None then [nodes[category.id]] else []
  {
    assert (before + [category])[..|before|] == before;
    PushOne(nodes, RootsOf(before), category);
  }

  /** One round of the second loop: the category goes below its parent, to the roots, or nowhere. */
  method Attach(nodes: NodeMap, ghost before: seq<Category>, category: Category, roots: seq<Node>)
    returns (newRoots: seq<Node>)
    requires Injective(nodes) && AllListed(nodes, before) && category.id in nodes && Linked(nodes, before)
    requires AllListed(nodes, RootsOf(before)) && roots == NodesOf(nodes, RootsOf(before))
    modifies nodes.Values
    ensures AllListed(nodes, before + [category]) && Linked(nodes, before + [category])
    ensures AllListed(nodes, RootsOf(before + [category])) && newRoots == NodesOf(nodes, RootsOf(before + [category]))
  {
    var node := nodes[category.id];
    newRoots := roots;
    if category.parent.Some? && category.parent.value != "" {
      var parentId := category.parent.value;
      if parentId in nodes {
        PushChild(nodes, parentId, node);
      }
    } else {
      newRoots := roots + [node];
    }
    LinkOne(nodes, before, category);
    RootOne(nodes, before, category);
  }

  lemma NothingIsLinked(nodes: NodeMap, categories: seq<Category>)
    requires forall id :: id in nodes ==> nodes[id].children == []
    ensures Linked(nodes, [])
  {
  }

  method LinkNodes(nodes: NodeMap, categories: seq<Category>) returns (roots: seq<Node>)
    requires Injective(nodes) && AllListed(nodes, categories) && Linked(nodes, [])
    modifies nodes.Values
    ensures Linked(nodes, categories)
    ensures AllListed(nodes, RootsOf(categories)) && roots == NodesOf(nodes, RootsOf(categories))
  {
    roots := [];
    ghost var before: seq<Category> := [];
    for i := 0 to |categories|
      invariant before == categories[..i]
      invariant AllListed(nodes, before) && Linked(nodes, before)
      invariant AllListed(nodes, RootsOf(before)) && roots == NodesOf(nodes, RootsOf(before))
    {
      roots := Attach(nodes, before, categories[i], roots);
      before := before + [categories[i]];
    }
    assert before == categories;
  }

  // ---------------------------------------------------------------------------------------------
  // The heap structure below the roots is exactly the forest of CategoryTree
  // ---------------------------------------------------------------------------------------------

  /** The node and everything reachable from it, laid out as the tree. */
  ghost predicate Mirrors(heap: set<Node>, node: Node, tree: Tree)
    reads heap
    decreases tree
  {
    && node in heap
    && node.category == tree.category
    && |node.children| == |tree.children|
    && forall i :: 0 <= i < |tree.children| ==> Mirrors(heap, node.children[i], tree.children[i])
  }

  lemma {:induction false} LastIsTheOne(categories: seq<Category>, i: nat)
    requires UniqueIds(categories) && i < |categories|
    ensures LastWith(categories, categories[i].id) == Some(categories[i])
  {
    if i < |categories| - 1 {
      LastIsTheOne(categories[..|categories| - 1], i);
    }
  }

  lemma {:induction false} NodesMirrorWholeTrees(nodes: NodeMap, categories: seq<Category>, tree: Tree)
    requires UniqueIds(categories) && Indexed(nodes, categories) && Linked(nodes, categories)
    requires tree.category in categories && Whole(categories, tree)
    ensures tree.category.id in nodes && Mirrors(nodes.Values, nodes[tree.category.id], tree)
    decreases tree
  {
    var i :| 0 <= i < |categories| && categories[i] == tree.category;
    LastIsTheOne(categories, i);
    var id := tree.category.id;
    ChildrenAreSelected(categories, id);
    forall k | 0 <= k < |tree.children| ensures Mirrors(nodes.Values, nodes[id].children[k], tree.children[k]) {
      assert tree.children[k] in tree.children;
      assert ChildrenOf(categories, id)[k] in ChildrenOf(categories, id);
      NodesMirrorWholeTrees(nodes, categories, tree.children[k]);
    }
  }

  lemma RootsMirrorTheForest(nodes: NodeMap, categories: seq<Category>, roots: seq<Node>)
    requires UniqueIds(categories) && Indexed(nodes, categories) && Linked(nodes, categories)
    requires AllListed(nodes, RootsOf(categories)) && roots == NodesOf(nodes, RootsOf(categories))
    ensures |roots| == |Forest(categories)|
    ensures forall i :: 0 <= i < |roots| ==> Mirrors(nodes.Values, roots[i], Forest(categories)[i])
  {
    ForestIsExact(categories);
    RootsAreSelected(categories);
    forall i | 0 <= i < |roots| ensures Mirrors(nodes.Values, roots[i], Forest(categories)[i]) {
      assert RootsOf(categories)[i] in RootsOf(categories);
      NodesMirrorWholeTrees(nodes, categories, Forest(categories)[i]);
    }
  }

  /**
   * The forest that the nodes form is returned by its roots.  No assumption is made on the list; with
   * repeated identifiers the map keeps the last category, as the original does.
   */
  method Build(categories: seq<Category>) returns (roots: seq<Node>, ghost nodes: NodeMap)
    ensures Indexed(nodes, categories) && Linked(nodes, categories)
    ensures AllListed(nodes, RootsOf(categories)) && roots == NodesOf(nodes, RootsOf(categories))
    ensures forall id :: id in nodes ==> fresh(nodes[id])
    ensures UniqueIds(categories) ==>
      && |roots| == |Forest(categories)|
      && forall i :: 0 <= i < |roots| ==> Mirrors(nodes.Values, roots[i], Forest(categories)[i])
  {
    var index := IndexNodes(categories);
    NothingIsLinked(index, categories);
    roots := LinkNodes(index, categories);
    nodes := index;
    if UniqueIds(categories) {
      RootsMirrorTheForest(nodes, categories, roots);
    }
  }

  // ---------------------------------------------------------------------------------------------
  // Reading the nodes back, as the JSON text of the response does
  // ---------------------------------------------------------------------------------------------

  /** Ends although the heap may hold cycles: none is reachable from a node that mirrors a tree. */
  method Serialise(ghost heap: set<Node>, node: Node, ghost tree: Tree) returns (text: Tree)
    requires Mirrors(heap, node, tree)
    ensures text == tree
    decreases tree
  {
    var children: seq<Tree> := [];
    for i := 0 to |node.children|
      invariant children == tree.children[..i]
    {
      var child := Serialise(heap, node.children[i], tree.children[i]);
      children := children + [child];
    }
    text := Tree(node.category, children);
  }

  method SerialiseAll(ghost heap: set<Node>, roots: seq<Node>, ghost trees: seq<Tree>) returns (texts: seq<Tree>)
    requires |roots| == |trees| && forall i :: 0 <= i < |roots| ==> Mirrors(heap, roots[i], trees[i])
    ensures texts == trees
  {
    texts := [];
    for i := 0 to |roots|
      invariant texts == trees[..i]
    {
      var text := Serialise(heap, roots[i], trees[i]);
      texts := texts + [text];
    }
  }

  /** The tree a client receives, for any list with unique identifiers. */
  method BuildAndSerialise(categories: seq<Category>) returns (trees: seq<Tree>)
    requires UniqueIds(categories)
    ensures trees == Forest(categories)
  {
    var roots, nodes := Build(categories);
    trees := SerialiseAll(nodes.Values, roots, Forest(categories));
  }
}
