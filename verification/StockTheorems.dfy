/** What holds of every run of the stock machine, for every set of requests and every schedule. */
module StockTheorems {
  import opened Common
  import opened StockModel
  import opened StockHistory
  import opened StockMachine
  import Retry

  // ---------------------------------------------------------------------------------------------
  // Serialisability
  // ---------------------------------------------------------------------------------------------

  ghost predicate InLog(log: seq<Commit>, c: nat) {
    exists i :: 0 <= i < |log| && log[i].client == c
  }

  /**
   * The table is what one gets by running exactly the committed requests one after another in commit
   * order, each request at most once, and the version of every row counts the commits on it.
   */
  lemma Serialisability(start: State, schedule: seq<nat>)
    requires Initial(start)
    ensures
      var s := Run(start, schedule);
      && Replay(start.dir, start.table, s.log) == Some(s.table)
      && (forall c :: c in s.clients ==> (HasCommitted(s.clients[c].phase) <==> InLog(s.log, c)))
      && (forall i :: 0 <= i < |s.log| ==>
            s.log[i].client in start.clients && s.log[i].req == start.clients[s.log[i].client].req)
      && (forall i, j :: 0 <= i < j < |s.log| ==> s.log[i].client != s.log[j].client)
      && (forall key :: VersionAt(s.table, key) == VersionAt(start.table, key) + Commits(s.log, key))
  {
    RunKeepsInv(start, schedule);
    var s := Run(start, schedule);
    forall c | c in s.clients ensures HasCommitted(s.clients[c].phase) <==> InLog(s.log, c) {
      assert ClientOk(start, s.log, c, s.clients[c]);
    }
    forall key ensures VersionAt(s.table, key) == VersionAt(start.table, key) + Commits(s.log, key) {
      Ledger(start.dir, start.table, s.log, key);
    }
  }

  /** A request refused for want of a row or of stock gets the answer it would get alone at some point of that history. */
  lemma RefusalsAreSerial(start: State, schedule: seq<nat>, c: nat)
    requires Initial(start)
    requires
      var s := Run(start, schedule);
      && c in s.clients && s.clients[c].phase.Failed?
      && s.clients[c].phase.error in {NoStockLevel, InsufficientAvailable, InsufficientReserved}
    ensures
      var s := Run(start, schedule);
      RefusedAlone(start, s.log, s.clients[c].req, s.clients[c].phase.error, s.clients[c].phase.at)
  {
    RunKeepsInv(start, schedule);
    assert ClientOk(start, Run(start, schedule).log, c, Run(start, schedule).clients[c]);
  }

  // ---------------------------------------------------------------------------------------------
  // Lookups
  // ---------------------------------------------------------------------------------------------

  lemma LookupsAreExactIn(start: State, s: State, c: nat)
    requires Inv(start, s) && c in s.clients && ClientOk(start, s.log, c, s.clients[c])
    ensures !Validates(start.dir, s.clients[c].req) ==>
      && !HasCommitted(s.clients[c].phase)
      && (forall i :: 0 <= i < |s.log| ==> s.log[i].client != c)
      && (forall i :: 0 <= i < |s.events| ==> s.events[i].client != c)
  {
    if !Validates(start.dir, s.clients[c].req) {
      forall i | 0 <= i < |s.log| ensures s.log[i].client != c {
        assert HasCommitted(s.clients[s.log[i].client].phase);
      }
      forall i | 0 <= i < |s.events| ensures s.events[i].client != c {
        assert s.clients[s.events[i].client].phase.Returned?;
      }
    }
  }

  /**
   * A deduction or replenishment of a variant or a warehouse that its tenant does not have takes no
   * step but the one to its refusal: it never commits and never publishes.  No other request, and in
   * particular no reservation and no release, is ever refused for that reason.
   */
  lemma LookupsAreExact(start: State, schedule: seq<nat>, c: nat)
    requires Initial(start) && c in start.clients
    ensures c in Run(start, schedule).clients
    ensures
      var s := Run(start, schedule);
      var req := start.clients[c].req;
      var phase := s.clients[c].phase;
      if (req.kind.Deduct? || req.kind.Replenish?)
        && ((req.tenant, req.key.variant) !in start.dir.variants || (req.tenant, req.key.warehouse) !in start.dir.warehouses)
      then
        && (phase.Fresh? || (phase.Failed? && phase.error == UnknownVariantOrWarehouse))
        && (phase.Fresh? ==> Step(s, c).clients[c].phase.Failed? && Step(s, c).clients[c].phase.error == UnknownVariantOrWarehouse)
        && (forall i :: 0 <= i < |s.log| ==> s.log[i].client != c)
        && (forall i :: 0 <= i < |s.events| ==> s.events[i].client != c)
      else
        && !(phase.Failed? && phase.error == UnknownVariantOrWarehouse)
        && (phase.Fresh? ==> Step(s, c).clients[c].phase == Ready(1))
  {
    RunKeepsInv(start, schedule);
    var s := Run(start, schedule);
    assert ClientOk(start, s.log, c, s.clients[c]);
    LookupsAreExactIn(start, s, c);
  }

  /** Events of deductions and replenishments carry the SKU of the variant; the others know none. */
  lemma EventsCarryTheSku(start: State, schedule: seq<nat>, e: nat)
    requires Initial(start) && e < |Run(start, schedule).events|
    ensures
      var event := Run(start, schedule).events[e];
      && event.client in start.clients
      && var req := start.clients[event.client].req;
         if req.kind.Deduct? || req.kind.Replenish? then
           (req.tenant, req.key.variant) in start.dir.variants
           && event.movement.sku == Some(start.dir.variants[(req.tenant, req.key.variant)])
         else event.movement.sku == None
  {
    RunKeepsInv(start, schedule);
    var s := Run(start, schedule);
    var c := s.events[e].client;
    assert ClientOk(start, s.log, c, s.clients[c]);
    var i :| 0 <= i < |s.log| && s.log[i].client == c && s.log[i].req == s.clients[c].req
          && s.log[i].movement == s.clients[c].phase.movement;
    TableSteps(start.dir, start.table, s.log, i);
  }

  // ---------------------------------------------------------------------------------------------
  // Conservation and no oversell
  // ---------------------------------------------------------------------------------------------

  /** Every unit is accounted for in every reachable state, and no column is ever negative. */
  lemma ConservationAndNoOversell(start: State, schedule: seq<nat>, key: Key)
    requires Initial(start) && NonNegative(start.table)
    ensures
      var s := Run(start, schedule);
      && NonNegative(s.table)
      && LevelsAt(s.table, key).available ==
         LevelsAt(start.table, key).available
           + Moved(s.log, key, Replenish) + Moved(s.log, key, Release)
           - Moved(s.log, key, Deduct) - Moved(s.log, key, Reserve)
      && LevelsAt(s.table, key).reserved ==
         LevelsAt(start.table, key).reserved + Moved(s.log, key, Reserve) - Moved(s.log, key, Release)
      && LevelsAt(s.table, key).available + LevelsAt(s.table, key).reserved ==
         LevelsAt(start.table, key).available + LevelsAt(start.table, key).reserved
           + Moved(s.log, key, Replenish) - Moved(s.log, key, Deduct)
  {
    RunKeepsInv(start, schedule);
    var s := Run(start, schedule);
    Ledger(start.dir, start.table, s.log, key);
    StaysNonNegative(start.dir, start.table, s.log);
  }

  ghost function CommittedOn(s: State, key: Key): set<nat> {
    set c | c in s.clients && s.clients[c].req.key == key && HasCommitted(s.clients[c].phase)
  }

  ghost function ClientsInLog(log: seq<Commit>, key: Key): set<nat> {
    set i | 0 <= i < |log| && On(log[i], key) :: log[i].client
  }

  lemma ClientsInLogGrows(prefix: seq<Commit>, last: Commit, key: Key)
    ensures ClientsInLog(prefix + [last], key) == ClientsInLog(prefix, key) + if On(last, key) then {last.client} else {}
  {
    var log := prefix + [last];
    assert log[|prefix|] == last;
    assert forall i :: 0 <= i < |prefix| ==> log[i] == prefix[i];
  }

  lemma {:induction false} OneCommitPerClient(log: seq<Commit>, key: Key)
    requires forall i, j :: 0 <= i < j < |log| ==> log[i].client != log[j].client
    ensures |ClientsInLog(log, key)| == Commits(log, key)
  {
    if log != [] {
      var prefix, last := log[..|log| - 1], log[|log| - 1];
      assert log == prefix + [last];
      OneCommitPerClient(prefix, key);
      ClientsInLogGrows(prefix, last, key);
      assert last.client !in ClientsInLog(prefix, key);
    }
  }

  lemma CommittedAreCounted(start: State, s: State, key: Key)
    requires Inv(start, s)
    ensures |CommittedOn(s, key)| == Commits(s.log, key)
  {
    OneCommitPerClient(s.log, key);
    forall c | c in CommittedOn(s, key) ensures c in ClientsInLog(s.log, key) {
      assert ClientOk(start, s.log, c, s.clients[c]);
    }
    assert CommittedOn(s, key) == ClientsInLog(s.log, key);
  }

  /** Every request on the row deducts one unit. */
  ghost predicate OnlyUnitDeductions(start: State, key: Key) {
    forall c :: c in start.clients && start.clients[c].req.key == key ==>
      start.clients[c].req.kind == Deduct && start.clients[c].req.quantity == 1
  }

  lemma UnitLog(start: State, s: State, key: Key)
    requires Inv(start, s) && OnlyUnitDeductions(start, key)
    ensures forall i :: 0 <= i < |s.log| && On(s.log[i], key) ==> s.log[i].req.kind == Deduct && s.log[i].req.quantity == 1
  {
  }

  lemma SoldOutAt(start: State, log: seq<Commit>, req: Request, at: nat)
    requires RefusedAlone(start, log, req, InsufficientAvailable, at) && NonNegative(start.table)
    requires req.kind.Deduct? && req.quantity == 1
    requires forall i :: 0 <= i < |log| && On(log[i], req.key) ==> log[i].req.kind == Deduct && log[i].req.quantity == 1
    ensures Commits(log, req.key) >= LevelsAt(start.table, req.key).available
  {
    PrefixIsSerial(start.dir, start.table, log, at);
    UnitDeductionsAreBounded(start.dir, start.table, log[..at], req.key);
    CommitsGrow(log, req.key, at);
  }

  lemma RefusalMeansSoldOut(start: State, s: State, key: Key, c: nat)
    requires Inv(start, s) && NonNegative(start.table) && OnlyUnitDeductions(start, key)
    requires c in s.clients && s.clients[c].req.key == key && s.clients[c].phase.Failed?
    requires s.clients[c].phase.error == InsufficientAvailable
    ensures Commits(s.log, key) >= LevelsAt(start.table, key).available
  {
    assert ClientOk(start, s.log, c, s.clients[c]);
    UnitLog(start, s, key);
    SoldOutAt(start, s.log, s.clients[c].req, s.clients[c].phase.at);
  }

  /**
   * However many clients race for the units of a row, no more of them succeed than there are units;
   * and once one has been refused for want of stock, exactly that many have succeeded.
   */
  lemma UnitDeductionsNeverOversell(start: State, schedule: seq<nat>, key: Key)
    requires Initial(start) && NonNegative(start.table) && OnlyUnitDeductions(start, key)
    ensures |CommittedOn(Run(start, schedule), key)| <= LevelsAt(start.table, key).available
    ensures
      var s := Run(start, schedule);
      (exists c :: c in s.clients && s.clients[c].req.key == key && s.clients[c].phase.Failed?
                   && s.clients[c].phase.error == InsufficientAvailable)
      ==> |CommittedOn(s, key)| == LevelsAt(start.table, key).available
  {
    RunKeepsInv(start, schedule);
    var s := Run(start, schedule);
    CommittedAreCounted(start, s, key);
    UnitDeductionsAreBounded(start.dir, start.table, s.log, key);
    forall c | c in s.clients && s.clients[c].req.key == key && s.clients[c].phase.Failed?
                   && s.clients[c].phase.error == InsufficientAvailable
      ensures Commits(s.log, key) >= LevelsAt(start.table, key).available
    {
      RefusalMeansSoldOut(start, s, key, c);
    }
  }

  // ---------------------------------------------------------------------------------------------
  // Progress of the retry protocol
  // ---------------------------------------------------------------------------------------------

  function RequestsOn(clients: Clients, key: Key): set<nat> {
    set c | c in clients && clients[c].req.key == key
  }

  predicate GaveUp(client: Client) {
    client.phase.Failed? && client.phase.error == VersionMismatch
  }

  /** A request gives up only after each of its five windows was overtaken, and the windows follow one another. */
  lemma GivingUpNeedsFiveOvertakings(start: State, schedule: seq<nat>, c: nat)
    requires Initial(start)
    requires c in Run(start, schedule).clients && GaveUp(Run(start, schedule).clients[c])
    ensures
      var s := Run(start, schedule);
      && |s.clients[c].lost| == 5
      && LostOk(s.log, c, s.clients[c])
  {
    RunKeepsInv(start, schedule);
    assert ClientOk(start, Run(start, schedule).log, c, Run(start, schedule).clients[c]);
  }

  /** A commit of a rival before a moment of the history. */
  ghost predicate CommittedBefore(log: seq<Commit>, key: Key, at: nat, r: nat) {
    at <= |log| && exists j :: 0 <= j < at && On(log[j], key) && log[j].client == r
  }

  /** Somebody who committed inside the window, and therefore not before it. */
  lemma RivalIn(log: seq<Commit>, c: nat, key: Key, w: Window) returns (r: nat)
    requires Overtaken(log, c, key, w)
    requires forall i, j :: 0 <= i < j < |log| ==> log[i].client != log[j].client
    ensures r != c && CommittedBefore(log, key, w.hi, r)
    ensures forall at: nat :: at <= w.lo ==> !CommittedBefore(log, key, at, r)
  {
    var j :| w.lo <= j < w.hi && On(log[j], key) && log[j].client != c;
    r := log[j].client;
  }

  /** Different windows are overtaken by different clients. */
  lemma {:induction false} RivalsOf(log: seq<Commit>, c: nat, client: Client, n: nat) returns (rivals: set<nat>)
    requires LostOk(log, c, client) && n <= |client.lost|
    requires forall i, j :: 0 <= i < j < |log| ==> log[i].client != log[j].client
    ensures |rivals| == n && c !in rivals
    ensures forall r :: r in rivals ==> n > 0 && CommittedBefore(log, client.req.key, client.lost[n - 1].hi, r)
  {
    if n == 0 {
      rivals := {};
    } else {
      var earlier := RivalsOf(log, c, client, n - 1);
      var rival := RivalIn(log, c, client.req.key, client.lost[n - 1]);
      rivals := earlier + {rival};
    }
  }

  lemma RivalsAreOnTheRow(clients: Clients, log: seq<Commit>, key: Key, rivals: set<nat>)
    requires LogOk(clients, log)
    requires forall r :: r in rivals ==>
      (r in clients && clients[r].req.key == key) || exists at :: CommittedBefore(log, key, at, r)
    ensures |rivals| <= |RequestsOn(clients, key)|
  {
    SubsetIsNoLarger(rivals, RequestsOn(clients, key));
  }

  lemma FiveRivalsAndOne(clients: Clients, log: seq<Commit>, c: nat)
    requires LogOk(clients, log) && c in clients
    requires LostOk(log, c, clients[c]) && |clients[c].lost| == MAX_ATTEMPTS
    ensures |RequestsOn(clients, clients[c].req.key)| > MAX_ATTEMPTS
  {
    var rivals := RivalsOf(log, c, clients[c], MAX_ATTEMPTS);
    RivalsAreOnTheRow(clients, log, clients[c].req.key, rivals + {c});
  }

  lemma SixRequestsOnTheRow(start: State, schedule: seq<nat>, c: nat)
    requires Initial(start)
    requires c in Run(start, schedule).clients && GaveUp(Run(start, schedule).clients[c])
    ensures |RequestsOn(start.clients, Run(start, schedule).clients[c].req.key)| > MAX_ATTEMPTS
  {
    RunKeepsInv(start, schedule);
    var s := Run(start, schedule);
    GivingUpNeedsFiveOvertakings(start, schedule, c);
    FiveRivalsAndOne(s.clients, s.log, c);
    assert RequestsOn(s.clients, s.clients[c].req.key) == RequestsOn(start.clients, s.clients[c].req.key);
  }

  /** With at most five requests on a row, none of them ever gives up with a version mismatch. */
  lemma FiveRequestsAllGetThrough(start: State, schedule: seq<nat>, key: Key)
    requires Initial(start)
    requires |RequestsOn(start.clients, key)| <= 5
    ensures
      var s := Run(start, schedule);
      forall c :: c in s.clients && s.clients[c].req.key == key ==> !GaveUp(s.clients[c])
  {
    var s := Run(start, schedule);
    forall c | c in s.clients && s.clients[c].req.key == key ensures !GaveUp(s.clients[c]) {
      if GaveUp(s.clients[c]) {
        SixRequestsOnTheRow(start, schedule, c);
      }
    }
  }

  // ---------------------------------------------------------------------------------------------
  // The clients obey the retry contract
  // ---------------------------------------------------------------------------------------------

  /** The window of a client's n-th attempt. */
  function WindowOf(client: Client, n: nat): Window {
    if 1 <= n <= |client.lost| then client.lost[n - 1] else client.last
  }

  /** How many attempts a settled request made. */
  function CallCount(client: Client): nat {
    if GaveUp(client) then |client.lost| else |client.lost| + 1
  }

  ghost function TableThen(start: State, log: seq<Commit>, i: nat): Table {
    if Serial(start.dir, start.table, log) && i <= |log| then TableAt(start.dir, start.table, log, i) else start.table
  }

  /** The calls: each attempt runs on the tables its read and its save met. */
  ghost function CallsOf(start: State, log: seq<Commit>, client: Client): nat -> Retry.Attempt<Movement, StockError> {
    (n: nat) =>
      AttemptOutcome(
        start.dir, client.req, TableThen(start, log, WindowOf(client, n).lo), TableThen(start, log, WindowOf(client, n).hi))
  }

  function AnswerOf(client: Client): Retry.Outcome<Movement, StockError>
    requires client.phase.Returned? || client.phase.Failed?
  {
    match client.phase
    case Returned(movement) => Retry.Returned(movement)
    case Failed(error, _) => Retry.Threw(error)
  }

  predicate SettledByAttempts(client: Client) {
    client.phase.Returned? || (client.phase.Failed? && client.phase.error != UnknownVariantOrWarehouse)
  }

  lemma LostCalls(start: State, log: seq<Commit>, client: Client, n: nat)
    requires CallsOk(start, log, client) && 1 <= n <= |client.lost|
    ensures InHistory(start, log, WindowOf(client, n))
    ensures CallsOf(start, log, client)(n) == Retry.Rejected(VersionMismatch)
  {
    assert Ended(start, log, client.req, client.lost[n - 1], Retry.Rejected(VersionMismatch));
  }

  lemma LastCall(start: State, log: seq<Commit>, client: Client)
    requires CallsOk(start, log, client) && SettledByAttempts(client)
    ensures InHistory(start, log, client.last)
    ensures CallsOf(start, log, client)(|client.lost| + 1) ==
      if client.phase.Returned? then Retry.Resolved(client.phase.movement) else Retry.Rejected(client.phase.error)
  {
    assert WindowOf(client, |client.lost| + 1) == client.last;
  }

  /** Mismatches, and then a call that the loop does not answer with another one. */
  lemma MismatchesThenSettled(fn: nat -> Retry.Attempt<Movement, StockError>, lost: nat)
    requires lost <= MAX_ATTEMPTS
    requires forall n :: 1 <= n <= lost ==> fn(n) == Retry.Rejected(VersionMismatch)
    ensures lost == MAX_ATTEMPTS ==> Retry.Contract(fn, RetryOptions(), lost)
    ensures lost < MAX_ATTEMPTS && fn(lost + 1) != Retry.Rejected(VersionMismatch) ==>
      Retry.Contract(fn, RetryOptions(), lost + 1)
  {
  }

  lemma LostCallsMismatch(start: State, log: seq<Commit>, client: Client)
    requires CallsOk(start, log, client)
    ensures forall n :: 1 <= n <= |client.lost| ==>
      InHistory(start, log, WindowOf(client, n)) && CallsOf(start, log, client)(n) == Retry.Rejected(VersionMismatch)
  {
    forall n | 1 <= n <= |client.lost|
      ensures InHistory(start, log, WindowOf(client, n)) && CallsOf(start, log, client)(n) == Retry.Rejected(VersionMismatch)
    {
      LostCalls(start, log, client, n);
    }
  }

  lemma CallsFollowTheContract(start: State, log: seq<Commit>, client: Client)
    requires CallsOk(start, log, client) && SettledByAttempts(client)
    requires if GaveUp(client) then |client.lost| == MAX_ATTEMPTS else |client.lost| < MAX_ATTEMPTS
    ensures forall n :: 1 <= n <= CallCount(client) ==> InHistory(start, log, WindowOf(client, n))
    ensures Retry.Contract(CallsOf(start, log, client), RetryOptions(), CallCount(client))
    ensures AnswerOf(client) == Retry.Settle(CallsOf(start, log, client)(CallCount(client)))
  {
    LostCallsMismatch(start, log, client);
    MismatchesThenSettled(CallsOf(start, log, client), |client.lost|);
    if !GaveUp(client) {
      LastCall(start, log, client);
    }
  }

  /**
   * A request that passed its lookups and settled did what `retryWithBackoff` does with its attempts:
   * their outcomes on the tables they met satisfy the retry contract, and the last one is the answer.
   */
  lemma RequestsFollowTheRetryContract(start: State, schedule: seq<nat>, c: nat)
    requires Initial(start) && c in Run(start, schedule).clients
    requires SettledByAttempts(Run(start, schedule).clients[c])
    ensures
      var s := Run(start, schedule);
      var client := s.clients[c];
      && (forall n :: 1 <= n <= CallCount(client) ==> InHistory(start, s.log, WindowOf(client, n)))
      && Retry.Contract(CallsOf(start, s.log, client), RetryOptions(), CallCount(client))
      && AnswerOf(client) == Retry.Settle(CallsOf(start, s.log, client)(CallCount(client)))
  {
    RunKeepsInv(start, schedule);
    RunKeepsCalls(start, schedule);
    var s := Run(start, schedule);
    assert ClientOk(start, s.log, c, s.clients[c]);
    CallsFollowTheContract(start, s.log, s.clients[c]);
  }

  /** What the others did between and during the attempts of a client. */
  ghost function OthersOf(start: State, log: seq<Commit>, client: Client): nat -> Others {
    (n: nat) =>
      Others(_ => TableThen(start, log, WindowOf(client, n).lo), _ => TableThen(start, log, WindowOf(client, n).hi))
  }

  /**
   * The machine and the service agree: whatever number of calls the contract of
   * `InventoryService.Service.Submit` admits for a request among these others, its outcome is the
   * answer that the request got in the machine.
   */
  lemma SubmitGivesTheSameAnswer(start: State, schedule: seq<nat>, c: nat, calls: nat)
    requires Initial(start) && c in Run(start, schedule).clients
    requires SettledByAttempts(Run(start, schedule).clients[c])
    requires
      var s := Run(start, schedule);
      var attempts := Attempts(start.dir, s.clients[c].req, start.table, OthersOf(start, s.log, s.clients[c]));
      Retry.Contract(attempts, RetryOptions(), calls)
    ensures
      var s := Run(start, schedule);
      var attempts := Attempts(start.dir, s.clients[c].req, start.table, OthersOf(start, s.log, s.clients[c]));
      calls == CallCount(s.clients[c]) && Retry.Settle(attempts(calls)) == AnswerOf(s.clients[c])
  {
    RequestsFollowTheRetryContract(start, schedule, c);
    var s := Run(start, schedule);
    var client := s.clients[c];
    var fn := CallsOf(start, s.log, client);
    var attempts := Attempts(start.dir, client.req, start.table, OthersOf(start, s.log, client));
    assert forall n: nat :: n >= 1 ==> attempts(n) == fn(n);
    Retry.ContractIsDeterministic(fn, RetryOptions(), CallCount(client), calls);
  }

  // ---------------------------------------------------------------------------------------------
  // Faithful events
  // ---------------------------------------------------------------------------------------------

  ghost predicate Sourced(log: seq<Commit>, event: Event) {
    exists m :: 0 <= m < |log| && log[m].client == event.client && log[m].movement == event.movement
  }

  /**
   * Each request that returned published exactly one movement, nobody else published any, and the
   * movement is the one its committed attempt produced: that of the operation run alone at the
   * point of the history where it committed.
   */
  lemma FaithfulEvents(start: State, schedule: seq<nat>)
    requires Initial(start)
    ensures
      var s := Run(start, schedule);
      && Serial(start.dir, start.table, s.log)
      && (forall c :: c in s.clients ==>
            (s.clients[c].phase.Returned? <==> exists i :: 0 <= i < |s.events| && s.events[i].client == c))
      && (forall i, j :: 0 <= i < j < |s.events| ==> s.events[i].client != s.events[j].client)
      && (forall i :: 0 <= i < |s.events| ==> Sourced(s.log, s.events[i]))
      && (forall m :: 0 <= m < |s.log| ==>
            var before := TableAt(start.dir, start.table, s.log, m);
            Reports(start.dir, s.log[m].req, before, s.log[m].row, s.log[m].movement))
  {
    RunKeepsInv(start, schedule);
    var s := Run(start, schedule);
    forall i | 0 <= i < |s.events| ensures Sourced(s.log, s.events[i]) {
      var c := s.events[i].client;
      assert ClientOk(start, s.log, c, s.clients[c]);
      assert Logged(s.log, c, s.clients[c].req, s.events[i].movement);
    }
    forall m | 0 <= m < |s.log|
      ensures Reports(start.dir, s.log[m].req, TableAt(start.dir, start.table, s.log, m), s.log[m].row, s.log[m].movement)
    {
      TableSteps(start.dir, start.table, s.log, m);
    }
  }
}
