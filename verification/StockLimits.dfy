/** Two results that show how far the stock theorems reach: the five-request bound and the version check are both needed. */
module StockLimits {
  import opened Common
  import opened StockModel
  import opened StockMachine
  import opened StockTheorems

  // ---------------------------------------------------------------------------------------------
  // Six requests on a row are enough to make one of them give up
  // ---------------------------------------------------------------------------------------------

  ghost predicate WantsOneUnit(s: State, c: nat, tenant: Id, key: Key) {
    && c in s.clients
    && s.clients[c].req == Request(tenant, Deduct, key, 1)
    && Validates(s.dir, s.clients[c].req)
  }

  ghost predicate Stocked(table: Table, tenant: Id, key: Key, units: int) {
    key in table && table[key].tenant == tenant && table[key].levels.available == units
  }

  /** The victim reads, the rival reads and commits, the victim's save is refused. */
  function Round(victim: nat, rival: nat): seq<nat> {
    [rival] + [victim] + [rival] + [rival] + [victim]
  }

  lemma RoundCostsTheVictimAnAttempt(s: State, victim: nat, rival: nat, tenant: Id, key: Key, units: int, attempt: nat)
    requires victim != rival && units >= 2
    requires WantsOneUnit(s, victim, tenant, key) && WantsOneUnit(s, rival, tenant, key)
    requires Stocked(s.table, tenant, key, units)
    requires s.clients[victim].phase == Ready(attempt) && s.clients[rival].phase == Fresh
    ensures
      var s' := Run(s, Round(victim, rival));
      && s'.dir == s.dir && s'.clients.Keys == s.clients.Keys
      && (forall c :: c in s.clients ==> s'.clients[c].req == s.clients[c].req)
      && (forall c :: c in s.clients && c != victim && c != rival ==> s'.clients[c] == s.clients[c])
      && Stocked(s'.table, tenant, key, units - 1)
      && (if attempt == MAX_ATTEMPTS then GaveUp(s'.clients[victim])
          else s'.clients[victim].phase == Ready(attempt + 1))
  {
    var s1 := Step(s, rival);
    var s2 := Step(s1, victim);
    var s3 := Step(s2, rival);
    var s4 := Step(s3, rival);
    var s5 := Step(s4, victim);
    assert Run(s, Round(victim, rival)) == s5 by {
      RunOne(s, rival);
      RunOne(s1, victim);
      RunOne(s2, rival);
      RunOne(s3, rival);
      RunOne(s4, victim);
      RunConcat(s, [rival], [victim]);
      RunConcat(s, [rival] + [victim], [rival]);
      RunConcat(s, [rival] + [victim] + [rival], [rival]);
      RunConcat(s, [rival] + [victim] + [rival] + [rival], [victim]);
    }
    var row := s.table[key];
    var draft := Draft(Some(row), row.levels, Levels(units - 1, row.levels.reserved), row.threshold);
    assert s2.clients[victim].phase == Holding(attempt, draft, |s.log|);
    assert s3.clients[rival].phase == Holding(1, draft, |s.log|);
    assert s4.table[key] == row.(levels := draft.after, version := row.version + 1);
    assert Save(s.clients[victim].req, draft, s4.table) == Rejected(VersionMismatch);
  }

  lemma {:induction false} RoundsAddUp(start: State, victim: nat, rivals: seq<nat>, tenant: Id, key: Key, n: nat)
    returns (schedule: seq<nat>)
    requires Initial(start) && n <= |rivals| == MAX_ATTEMPTS
    requires victim !in rivals && forall i, j :: 0 <= i < j < |rivals| ==> rivals[i] != rivals[j]
    requires WantsOneUnit(start, victim, tenant, key)
    requires forall i :: 0 <= i < |rivals| ==> WantsOneUnit(start, rivals[i], tenant, key)
    requires key in start.table && Stocked(start.table, tenant, key, start.table[key].levels.available)
    requires start.table[key].levels.available > MAX_ATTEMPTS
    ensures
      var s := Run(start, schedule);
      && s.dir == start.dir && s.clients.Keys == start.clients.Keys
      && (forall c :: c in s.clients ==> s.clients[c].req == start.clients[c].req)
      && (forall i :: n <= i < |rivals| ==> rivals[i] in s.clients && s.clients[rivals[i]] == start.clients[rivals[i]])
      && Stocked(s.table, tenant, key, start.table[key].levels.available - n)
      && (if n == MAX_ATTEMPTS then GaveUp(s.clients[victim]) else s.clients[victim].phase == Ready(n + 1))
  {
    if n == 0 {
      schedule := [victim];
      RunOne(start, victim);
    } else {
      var before := RoundsAddUp(start, victim, rivals, tenant, key, n - 1);
      var s := Run(start, before);
      var rival := rivals[n - 1];
      RoundCostsTheVictimAnAttempt(s, victim, rival, tenant, key, start.table[key].levels.available - (n - 1), n);
      schedule := before + Round(victim, rival);
      RunConcat(start, before, Round(victim, rival));
    }
  }

  /** The bound of FiveRequestsAllGetThrough is exact: a sixth request for a unit may give up although stock is left. */
  lemma SixRequestsCanStarveOne(start: State, victim: nat, rivals: seq<nat>, tenant: Id, key: Key)
    requires Initial(start) && |rivals| == MAX_ATTEMPTS
    requires victim !in rivals && forall i, j :: 0 <= i < j < |rivals| ==> rivals[i] != rivals[j]
    requires WantsOneUnit(start, victim, tenant, key)
    requires forall i :: 0 <= i < |rivals| ==> WantsOneUnit(start, rivals[i], tenant, key)
    requires key in start.table && start.table[key].tenant == tenant
    requires start.table[key].levels.available > MAX_ATTEMPTS
    ensures exists schedule ::
      var s := Run(start, schedule);
      victim in s.clients && GaveUp(s.clients[victim]) && LevelsAt(s.table, key).available >= 1
  {
    var schedule := RoundsAddUp(start, victim, rivals, tenant, key, MAX_ATTEMPTS);
    var s := Run(start, schedule);
    assert victim in s.clients && GaveUp(s.clients[victim]) && LevelsAt(s.table, key).available >= 1;
  }

  // ---------------------------------------------------------------------------------------------
  // Without the version check the same code oversells
  // ---------------------------------------------------------------------------------------------

  /** A save that writes the edited entity without looking at the version of the row. */
  function BlindSave(req: Request, draft: Draft, table: Table): Table
    requires draft.loaded.Some?
  {
    table[req.key := draft.loaded.value.(levels := draft.after, version := draft.loaded.value.version + 1)]
  }

  /**
   * Two deductions of `n` units that both read before either saves.  With the version check exactly
   * one is stored, so the units leaving the row are the units handed out; blindly written, both
   * requests succeed and `n` units are handed out twice.
   */
  lemma VersionCheckIsNeeded(table: Table, tenant: Id, key: Key, n: Quantity)
    requires key in table && table[key].tenant == tenant && table[key].levels.available >= n
    ensures
      var req := Request(tenant, Deduct, key, n);
      Load(req, table).Drafted? && Load(req, table).draft.loaded.Some?
    ensures
      var req := Request(tenant, Deduct, key, n);
      var draft := Load(req, table).draft;
      && Save(req, draft, table).Stored?
      && Save(req, draft, table[key := Save(req, draft, table).row]) == Rejected(VersionMismatch)
      && LevelsAt(BlindSave(req, draft, BlindSave(req, draft, table)), key).available
         == LevelsAt(table, key).available - n
  {
  }
}
