/** Parent pointers as a map: any graph with at most one parent per node, cycles and dangling pointers included. */
module ParentGraph {
  import opened Common

  type Parents = map<Id, Option<Id>>

  /** The parent chain of `id` reaches a node without a parent in `n` steps, without leaving the map. */
  predicate AtDepth(parents: Parents, id: Id, n: nat)
    decreases n
  {
    id in parents &&
    match parents[id]
    case None => n == 0
    case Some(parent) => n > 0 && AtDepth(parents, parent, n - 1)
  }

  ghost predicate Grounded(parents: Parents, id: Id) {
    exists n: nat :: AtDepth(parents, id, n)
  }

  lemma {:induction false} DepthIsUnique(parents: Parents, id: Id, n: nat, m: nat)
    requires AtDepth(parents, id, n) && AtDepth(parents, id, m)
    ensures n == m
    decreases n
  {
    if n > 0 {
      DepthIsUnique(parents, parents[id].value, n - 1, m - 1);
    }
  }

  /** The nodes on the chain, the node itself included. */
  ghost function Chain(parents: Parents, id: Id, n: nat): set<Id>
    requires AtDepth(parents, id, n)
    decreases n
  {
    if n == 0 then {id} else {id} + Chain(parents, parents[id].value, n - 1)
  }

  lemma {:induction false} ChainMembersAreHigher(parents: Parents, id: Id, n: nat, x: Id)
    requires AtDepth(parents, id, n) && x in Chain(parents, id, n)
    ensures x in parents && exists m: nat :: m <= n && AtDepth(parents, x, m)
    decreases n
  {
    if x != id {
      ChainMembersAreHigher(parents, parents[id].value, n - 1, x);
      var m: nat :| m <= n - 1 && AtDepth(parents, x, m);
      assert m <= n;
    }
  }

  lemma {:induction false} ChainHasNoRepeats(parents: Parents, id: Id, n: nat)
    requires AtDepth(parents, id, n)
    ensures |Chain(parents, id, n)| == n + 1 && Chain(parents, id, n) <= parents.Keys
    decreases n
  {
    if n > 0 {
      var parent := parents[id].value;
      ChainHasNoRepeats(parents, parent, n - 1);
      if id in Chain(parents, parent, n - 1) {
        ChainMembersAreHigher(parents, parent, n - 1, id);
        var m: nat :| m <= n - 1 && AtDepth(parents, id, m);
        DepthIsUnique(parents, id, n, m);
        assert false;
      }
    }
  }

  /** A chain that ends visits no node twice, so it is shorter than the map is large. */
  lemma DepthIsBounded(parents: Parents, id: Id, n: nat)
    requires AtDepth(parents, id, n)
    ensures n < |parents|
  {
    ChainHasNoRepeats(parents, id, n);
    SubsetIsNoLarger(Chain(parents, id, n), parents.Keys);
  }

  /** The `k`-th node up the chain. */
  ghost function Ancestor(parents: Parents, id: Id, n: nat, k: nat): (ancestor: Id)
    requires AtDepth(parents, id, n) && k <= n
    ensures AtDepth(parents, ancestor, n - k)
    decreases n
  {
    if k == 0 then id else Ancestor(parents, parents[id].value, n - 1, k - 1)
  }

  lemma {:induction false} AncestorsAreLinked(parents: Parents, id: Id, n: nat, k: nat)
    requires AtDepth(parents, id, n) && k < n
    ensures
      var child := Ancestor(parents, id, n, k);
      parents[child] == Some(Ancestor(parents, id, n, k + 1))
    decreases n
  {
    if k > 0 {
      AncestorsAreLinked(parents, parents[id].value, n - 1, k - 1);
    }
  }

  // ---------------------------------------------------------------------------------------------
  // Changing one parent pointer
  // ---------------------------------------------------------------------------------------------

  /** A node hangs below itself or below the node `top`: `top` is on its parent chain. */
  ghost predicate Below(parents: Parents, top: Id, id: Id, n: nat) {
    AtDepth(parents, id, n) && top in Chain(parents, id, n)
  }

  lemma {:induction false} ChainsAwayFromANodeIgnoreIt(parents: Parents, moved: Id, to: Option<Id>, id: Id, n: nat)
    requires AtDepth(parents, id, n) && moved !in Chain(parents, id, n)
    ensures AtDepth(parents[moved := to], id, n)
    ensures Chain(parents[moved := to], id, n) == Chain(parents, id, n)
    decreases n
  {
    if n > 0 {
      ChainsAwayFromANodeIgnoreIt(parents, moved, to, parents[id].value, n - 1);
    }
  }

  /** The converse direction: a chain that avoids the node in the changed map is the old chain. */
  lemma GroundedAfterMove(parents: Parents, moved: Id, to: Option<Id>, m: nat)
    requires moved in parents
    requires to.Some? ==> AtDepth(parents, to.value, m) && moved !in Chain(parents, to.value, m)
    ensures Grounded(parents[moved := to], moved)
  {
    var changed := parents[moved := to];
    if to.None? {
      assert AtDepth(changed, moved, 0);
    } else {
      ChainsAwayFromANodeIgnoreIt(parents, moved, to, to.value, m);
      assert AtDepth(changed, moved, m + 1);
    }
  }

  lemma {:induction false} NodesFollowTheMove(parents: Parents, moved: Id, to: Option<Id>, id: Id, n: nat)
    requires AtDepth(parents, id, n) && Grounded(parents[moved := to], moved)
    ensures Grounded(parents[moved := to], id)
    decreases n
  {
    var changed := parents[moved := to];
    if id != moved {
      if n == 0 {
        assert AtDepth(changed, id, 0);
      } else {
        NodesFollowTheMove(parents, moved, to, parents[id].value, n - 1);
        var k: nat :| AtDepth(changed, parents[id].value, k);
        assert AtDepth(changed, id, k + 1);
      }
    }
  }

  /** Going up from `id` one meets `moved`, on the old chain and therefore on the changed one. */
  lemma {:induction false} StepsUpTo(changed: Parents, parents: Parents, moved: Id, id: Id, m: nat, n: nat) returns (k: nat)
    requires moved in changed && changed == parents[moved := changed[moved]]
    requires AtDepth(parents, id, m) && moved in Chain(parents, id, m) && AtDepth(changed, id, n)
    ensures k <= n && AtDepth(changed, moved, k)
    decreases n
  {
    if id == moved {
      k := n;
    } else {
      k := StepsUpTo(changed, parents, moved, parents[id].value, m - 1, n - 1);
    }
  }

  lemma {:induction false} MoveBelowItselfClosesACycle(parents: Parents, moved: Id, to: Id, m: nat, n: nat)
    requires AtDepth(parents, to, m) && moved in Chain(parents, to, m)
    ensures !AtDepth(parents[moved := Some(to)], moved, n)
    ensures !AtDepth(parents[moved := Some(to)], to, n)
    decreases n
  {
    var changed := parents[moved := Some(to)];
    if AtDepth(changed, moved, n) {
      assert AtDepth(changed, to, n - 1);
      MoveBelowItselfClosesACycle(parents, moved, to, m, n - 1);
      assert false;
    }
    if AtDepth(changed, to, n) {
      var k := StepsUpTo(changed, parents, moved, to, m, n);
      MoveBelowItselfClosesACycle(parents, moved, to, m, k - 1);
      assert false;
    }
  }

  ghost predicate AllGrounded(parents: Parents) {
    forall id :: id in parents ==> Grounded(parents, id)
  }

  /**
   * The exact condition: giving a node of a cycle-free graph a new parent inside the graph keeps the
   * graph cycle-free just when the new parent is neither the node itself nor one of its descendants.
   */
  lemma MoveKeepsAllGroundedExactlyWhenNotBelow(parents: Parents, moved: Id, to: Id, m: nat)
    requires AllGrounded(parents) && moved in parents && AtDepth(parents, to, m)
    ensures AllGrounded(parents[moved := Some(to)]) <==> moved !in Chain(parents, to, m)
  {
    var changed := parents[moved := Some(to)];
    if moved in Chain(parents, to, m) {
      assert !Grounded(changed, moved) by {
        forall n: nat ensures !AtDepth(changed, moved, n) {
          MoveBelowItselfClosesACycle(parents, moved, to, m, n);
        }
      }
    } else {
      GroundedAfterMove(parents, moved, Some(to), m);
      forall id | id in changed ensures Grounded(changed, id) {
        if id in parents {
          var n: nat :| AtDepth(parents, id, n);
          NodesFollowTheMove(parents, moved, Some(to), id, n);
        }
      }
    }
  }

  /** Making a node a root never closes a cycle. */
  lemma MoveToTheTopKeepsAllGrounded(parents: Parents, moved: Id)
    requires AllGrounded(parents) && moved in parents
    ensures AllGrounded(parents[moved := None])
  {
    GroundedAfterMove(parents, moved, None, 0);
    forall id | id in parents ensures Grounded(parents[moved := None], id) {
      var n: nat :| AtDepth(parents, id, n);
      NodesFollowTheMove(parents, moved, None, id, n);
    }
  }

  /** Adding a node nobody points at, under a node of the graph or at the top. */
  lemma AddKeepsAllGrounded(parents: Parents, added: Id, to: Option<Id>)
    requires AllGrounded(parents) && added !in parents
    requires to.Some? ==> to.value in parents
    ensures AllGrounded(parents[added := to])
  {
    var changed := parents[added := to];
    forall id | id in parents ensures Grounded(changed, id) {
      var n: nat :| AtDepth(parents, id, n);
      ChainHasNoRepeats(parents, id, n);
      ChainsAwayFromANodeIgnoreIt(parents, added, to, id, n);
    }
    if to.Some? {
      var n: nat :| AtDepth(changed, to.value, n);
      assert AtDepth(changed, added, n + 1);
    } else {
      assert AtDepth(changed, added, 0);
    }
  }

  lemma {:induction false} ChainsAvoidTheRemoved(parents: Parents, removed: Id, id: Id, n: nat)
    requires AtDepth(parents, id, n) && id != removed
    requires forall x :: x in parents ==> parents[x] != Some(removed)
    ensures AtDepth(parents - {removed}, id, n)
    decreases n
  {
    if n > 0 {
      ChainsAvoidTheRemoved(parents, removed, parents[id].value, n - 1);
    }
  }

  /** Taking away a node that nobody points at. */
  lemma RemoveKeepsAllGrounded(parents: Parents, removed: Id)
    requires AllGrounded(parents) && removed in parents
    requires forall id :: id in parents ==> parents[id] != Some(removed)
    ensures AllGrounded(parents - {removed})
  {
    forall id | id in parents - {removed} ensures Grounded(parents - {removed}, id) {
      var n: nat :| AtDepth(parents, id, n);
      ChainsAvoidTheRemoved(parents, removed, id, n);
    }
  }
}
