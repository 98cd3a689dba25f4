/** Exactly when an insert can fail, and exactly when it can fail although the request alone would succeed. */
module StockRaces {
  import opened Common
  import opened StockModel
  import opened StockHistory
  import opened StockMachine

  predicate Replenishes(start: State, c: nat, key: Key) {
    && c in start.clients
    && start.clients[c].req.kind.Replenish?
    && start.clients[c].req.key == key
    && Validates(start.dir, start.clients[c].req)
  }

  /** The request ends with the error that its insert met an existing row. */
  ghost predicate InsertFails(start: State, schedule: seq<nat>, c: nat) {
    var s := Run(start, schedule);
    c in s.clients && s.clients[c].phase.Failed? && s.clients[c].phase.error == DuplicateRow
  }

  /** The same, although run alone at that moment the request would have topped the row up. */
  ghost predicate InsertFailsNeedlessly(start: State, schedule: seq<nat>, c: nat) {
    var s := Run(start, schedule);
    && InsertFails(start, schedule, c)
    && Serial(start.dir, start.table, s.log)
    && s.clients[c].phase.at <= |s.log|
    && ExecuteAlone(start.dir, s.clients[c].req, TableAt(start.dir, start.table, s.log, s.clients[c].phase.at)).Ok?
  }

  /** Another client that may create the row first. */
  ghost predicate HasRival(start: State, c: nat, key: Key) {
    exists d :: d in start.clients && d != c && Replenishes(start, d, key)
  }

  /** The same within the tenant. */
  ghost predicate HasRivalOfTheTenant(start: State, c: nat, key: Key, tenant: Id) {
    exists d :: d in start.clients && d != c && Replenishes(start, d, key) && start.clients[d].req.tenant == tenant
  }

  // ---------------------------------------------------------------------------------------------
  // Who created a row, and whose it is
  // ---------------------------------------------------------------------------------------------

  lemma TableAtTheStart(dir: Directory, start: Table, log: seq<Commit>)
    requires Serial(dir, start, log)
    ensures TableAt(dir, start, log, 0) == start
  {
    assert log[..0] == [];
  }

  lemma CommitKeepsTenant(dir: Directory, start: Table, log: seq<Commit>, key: Key, i: nat)
    requires Serial(dir, start, log) && i < |log| && key in TableAt(dir, start, log, i)
    ensures key in TableAt(dir, start, log, i + 1)
    ensures TableAt(dir, start, log, i + 1)[key].tenant == TableAt(dir, start, log, i)[key].tenant
  {
    TableSteps(dir, start, log, i);
  }

  lemma {:induction false} RowsKeepTheirTenant(dir: Directory, start: Table, log: seq<Commit>, key: Key, i: nat)
    requires Serial(dir, start, log) && i <= |log| && key in start
    ensures key in TableAt(dir, start, log, i) && TableAt(dir, start, log, i)[key].tenant == start[key].tenant
  {
    TableAtTheStart(dir, start, log);
    if i > 0 {
      RowsKeepTheirTenant(dir, start, log, key, i - 1);
      CommitKeepsTenant(dir, start, log, key, i - 1);
    }
  }

  /** A row that was not there at the start was created by a replenishment of its tenant. */
  lemma {:induction false} Creator(dir: Directory, start: Table, log: seq<Commit>, key: Key, i: nat) returns (j: nat)
    requires Serial(dir, start, log) && i <= |log| && key !in start && key in TableAt(dir, start, log, i)
    ensures j < i && On(log[j], key) && log[j].req.kind.Replenish?
    ensures log[j].req.tenant == TableAt(dir, start, log, i)[key].tenant
  {
    TableAtTheStart(dir, start, log);
    if key in TableAt(dir, start, log, i - 1) {
      j := Creator(dir, start, log, key, i - 1);
      CommitKeepsTenant(dir, start, log, key, i - 1);
    } else {
      j := i - 1;
      TableSteps(dir, start, log, i - 1);
    }
  }

  // ---------------------------------------------------------------------------------------------
  // A failed insert has a reason in the initial state
  // ---------------------------------------------------------------------------------------------

  /** The client whose commit created the row that the insert of `c` met. */
  lemma RivalOf(start: State, s: State, c: nat, key: Key, at: nat) returns (d: nat)
    requires Inv(start, s) && c in s.clients && !HasCommitted(s.clients[c].phase)
    requires at <= |s.log| && key !in start.table && key in TableAt(start.dir, start.table, s.log, at)
    ensures d in start.clients && d != c && Replenishes(start, d, key)
    ensures start.clients[d].req.tenant == TableAt(start.dir, start.table, s.log, at)[key].tenant
  {
    var j := Creator(start.dir, start.table, s.log, key, at);
    d := s.log[j].client;
    assert ClientOk(start, s.log, d, s.clients[d]);
  }

  lemma FailedInsert(start: State, s: State, c: nat)
    requires Inv(start, s) && c in s.clients && s.clients[c].phase.Failed? && s.clients[c].phase.error == DuplicateRow
    ensures InsertRaced(start, s.log, s.clients[c].req, s.clients[c].phase.at)
  {
    assert ClientOk(start, s.log, c, s.clients[c]);
  }

  /** When the row is there at the start, it is another tenant's. */
  lemma ForeignRow(start: State, log: seq<Commit>, req: Request, at: nat)
    requires InsertRaced(start, log, req, at) && req.key in start.table
    ensures start.table[req.key].tenant != req.tenant
    ensures TableAt(start.dir, start.table, log, at)[req.key].tenant == start.table[req.key].tenant
  {
    var since :| 0 <= since <= at && FindOne(TableAt(start.dir, start.table, log, since), req.tenant, req.key) == None;
    RowsKeepTheirTenant(start.dir, start.table, log, req.key, since);
    RowsKeepTheirTenant(start.dir, start.table, log, req.key, at);
  }

  lemma FailureHasAReason(start: State, schedule: seq<nat>, c: nat)
    requires Initial(start) && c in start.clients && InsertFails(start, schedule, c)
    ensures
      var req := start.clients[c].req;
      if req.key in start.table then start.table[req.key].tenant != req.tenant else HasRival(start, c, req.key)
  {
    RunKeepsInv(start, schedule);
    var s := Run(start, schedule);
    var req := s.clients[c].req;
    FailedInsert(start, s, c);
    if req.key in start.table {
      ForeignRow(start, s.log, req, s.clients[c].phase.at);
    } else {
      var d := RivalOf(start, s, c, req.key, s.clients[c].phase.at);
    }
  }

  lemma NeedlessFailureHasAReason(start: State, schedule: seq<nat>, c: nat)
    requires Initial(start) && c in start.clients && InsertFailsNeedlessly(start, schedule, c)
    ensures
      var req := start.clients[c].req;
      req.key !in start.table && HasRivalOfTheTenant(start, c, req.key, req.tenant)
  {
    RunKeepsInv(start, schedule);
    var s := Run(start, schedule);
    var req := s.clients[c].req;
    FailedInsert(start, s, c);
    if req.key in start.table {
      ForeignRow(start, s.log, req, s.clients[c].phase.at);
    } else {
      var d := RivalOf(start, s, c, req.key, s.clients[c].phase.at);
    }
  }

  // ---------------------------------------------------------------------------------------------
  // The reason is enough: a schedule that makes the insert fail
  // ---------------------------------------------------------------------------------------------

  /** The entity `findOrCreate` builds when there is no row. */
  function NewEntity(quantity: Quantity): Draft {
    Draft(None, Levels(0, 0), Levels(quantity, 0), DEFAULT_SAFETY_THRESHOLD)
  }

  /** Lookup and read of a replenishment that finds no row of its own. */
  lemma ReadsNothing(s: State, c: nat)
    requires c in s.clients && s.clients[c].phase == Ready(1) && s.clients[c].req.kind.Replenish?
    requires FindOne(s.table, s.clients[c].req.tenant, s.clients[c].req.key) == None
    ensures Step(s, c) == s.(clients := s.clients[c := s.clients[c].(
      phase := Holding(1, NewEntity(s.clients[c].req.quantity), |s.log|))])
  {
  }

  lemma LooksUp(s: State, c: nat)
    requires c in s.clients && s.clients[c].phase == Fresh && Validates(s.dir, s.clients[c].req)
    ensures Step(s, c) == s.(clients := s.clients[c := s.clients[c].(phase := Ready(1))])
  {
  }

  lemma InsertsRow(s: State, d: nat, quantity: Quantity, since: nat)
    requires d in s.clients && s.clients[d].phase == Holding(1, NewEntity(quantity), since)
    requires s.clients[d].req.key !in s.table
    ensures Step(s, d).clients.Keys == s.clients.Keys
    ensures forall c :: c in s.clients && c != d ==> Step(s, d).clients[c] == s.clients[c]
    ensures |Step(s, d).log| == |s.log| + 1
    ensures s.clients[d].req.key in Step(s, d).table && Step(s, d).table[s.clients[d].req.key].tenant == s.clients[d].req.tenant
  {
  }

  lemma InsertMeetsRow(s: State, c: nat, quantity: Quantity, since: nat)
    requires c in s.clients && s.clients[c].phase == Holding(1, NewEntity(quantity), since)
    requires s.clients[c].req.key in s.table
    ensures Step(s, c).table == s.table && Step(s, c).log == s.log
    ensures c in Step(s, c).clients && Step(s, c).clients[c].phase == Failed(DuplicateRow, |s.log|)
  {
  }

  /** Both read before either saves, and the rival saves first. */
  lemma RivalSavesFirst(start: State, c: nat, d: nat)
    requires Initial(start) && c != d && c in start.clients && d in start.clients
    requires Replenishes(start, c, start.clients[c].req.key) && Replenishes(start, d, start.clients[c].req.key)
    requires start.clients[c].req.key !in start.table
    ensures
      var s := Run(start, [c] + [d] + [c] + [d] + [d] + [c]);
      && c in s.clients && s.clients[c].phase == Failed(DuplicateRow, |s.log|)
      && start.clients[c].req.key in s.table
      && s.table[start.clients[c].req.key].tenant == start.clients[d].req.tenant
  {
    var s1 := Step(start, c);
    var s2 := Step(s1, d);
    var s3 := Step(s2, c);
    var s4 := Step(s3, d);
    var s5 := Step(s4, d);
    assert Run(start, [c] + [d] + [c] + [d] + [d] + [c]) == Step(s5, c) by {
      RunOne(start, c);
      RunThenStep(start, [c], d);
      RunThenStep(start, [c] + [d], c);
      RunThenStep(start, [c] + [d] + [c], d);
      RunThenStep(start, [c] + [d] + [c] + [d], d);
      RunThenStep(start, [c] + [d] + [c] + [d] + [d], c);
    }
    LooksUp(start, c);
    LooksUp(s1, d);
    ReadsNothing(s2, c);
    ReadsNothing(s3, d);
    InsertsRow(s4, d, start.clients[d].req.quantity, 0);
    InsertMeetsRow(s5, c, start.clients[c].req.quantity, 0);
  }

  /** A row of another tenant makes every replenishment of the pair fail. */
  lemma ForeignRowFailsTheInsert(start: State, c: nat)
    requires Initial(start) && c in start.clients && Replenishes(start, c, start.clients[c].req.key)
    requires start.clients[c].req.key in start.table
    requires start.table[start.clients[c].req.key].tenant != start.clients[c].req.tenant
    ensures InsertFails(start, [c] + [c] + [c], c)
  {
    var s1 := Step(start, c);
    var s2 := Step(s1, c);
    assert Run(start, [c] + [c] + [c]) == Step(s2, c) by {
      RunOne(start, c);
      RunThenStep(start, [c], c);
      RunThenStep(start, [c] + [c], c);
    }
    LooksUp(start, c);
    ReadsNothing(s1, c);
    InsertMeetsRow(s2, c, start.clients[c].req.quantity, 0);
  }

  // ---------------------------------------------------------------------------------------------
  // The exact conditions
  // ---------------------------------------------------------------------------------------------

  /**
   * For every initial state, a replenishment can fail on its insert exactly when the row is there
   * already and belongs to another tenant, or is not there and somebody else may create it first.
   */
  lemma InsertCanFailExactlyWhen(start: State, c: nat)
    requires Initial(start) && c in start.clients && Replenishes(start, c, start.clients[c].req.key)
    ensures
      var req := start.clients[c].req;
      (exists schedule :: InsertFails(start, schedule, c)) <==>
      if req.key in start.table then start.table[req.key].tenant != req.tenant else HasRival(start, c, req.key)
  {
    var req := start.clients[c].req;
    if schedule :| InsertFails(start, schedule, c) {
      FailureHasAReason(start, schedule, c);
    }
    if req.key in start.table {
      if start.table[req.key].tenant != req.tenant {
        ForeignRowFailsTheInsert(start, c);
      }
    } else if d :| d in start.clients && d != c && Replenishes(start, d, req.key) {
      RivalSavesFirst(start, c, d);
      assert InsertFails(start, [c] + [d] + [c] + [d] + [d] + [c], c);
    }
  }

  /** At the end of the history the reference meets the current table. */
  lemma AloneNow(start: State, s: State, req: Request)
    requires Inv(start, s) && req.kind.Replenish? && req.key in s.table && s.table[req.key].tenant == req.tenant
    ensures ExecuteAlone(start.dir, req, TableAt(start.dir, start.table, s.log, |s.log|)).Ok?
  {
    assert s.log[..|s.log|] == s.log;
  }

  lemma RivalOfTheTenantIsEnough(start: State, c: nat, d: nat)
    requires Initial(start) && c != d && c in start.clients && d in start.clients
    requires Replenishes(start, c, start.clients[c].req.key) && Replenishes(start, d, start.clients[c].req.key)
    requires start.clients[c].req.key !in start.table && start.clients[d].req.tenant == start.clients[c].req.tenant
    ensures InsertFailsNeedlessly(start, [c] + [d] + [c] + [d] + [d] + [c], c)
  {
    var schedule := [c] + [d] + [c] + [d] + [d] + [c];
    RivalSavesFirst(start, c, d);
    RunKeepsInv(start, schedule);
    AloneNow(start, Run(start, schedule), start.clients[c].req);
  }

  /**
   * For every initial state, a replenishment can fail where alone it would succeed exactly when the
   * row does not exist and another request replenishes the same pair for the same tenant: the answers
   * of all other requests are serial (RefusalsAreSerial).
   */
  lemma InsertCanFailNeedlesslyExactlyWhen(start: State, c: nat)
    requires Initial(start) && c in start.clients && Replenishes(start, c, start.clients[c].req.key)
    ensures
      var req := start.clients[c].req;
      (exists schedule :: InsertFailsNeedlessly(start, schedule, c)) <==>
      req.key !in start.table && HasRivalOfTheTenant(start, c, req.key, req.tenant)
  {
    var req := start.clients[c].req;
    if schedule :| InsertFailsNeedlessly(start, schedule, c) {
      NeedlessFailureHasAReason(start, schedule, c);
    }
    if req.key !in start.table {
      if d :| d in start.clients && d != c && Replenishes(start, d, req.key) && start.clients[d].req.tenant == req.tenant {
        RivalOfTheTenantIsEnough(start, c, d);
      }
    }
  }
}
