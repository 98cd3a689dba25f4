/** From committed movements to low-stock alerts: the threshold-crossing listener and what it sees of a run. */
module StockAlerts {
  import opened Common
  import opened StockModel
  import opened StockHistory
  import opened StockMachine
  import opened NotificationModel
  import NotificationService
  import NotificationTheorems

  const ALERTED_ROLES: seq<Role> := [WarehouseManager, TenantAdmin]

  /** One key per variant and warehouse. */
  function DedupKey(key: Key): string {
    key.variant + ":" + key.warehouse
  }

  /** The listener: a movement that takes the available stock down to the threshold or below raises an alert. */
  function HandleStockMovement(movement: Movement): (input: Option<DispatchInput>)
    ensures input.Some? <==>
      movement.before.available > movement.threshold && movement.after.available <= movement.threshold
  {
    var crossedThreshold :=
      && movement.before.available > movement.threshold
      && movement.after.available <= movement.threshold;
    if !crossedThreshold then None
    else
      var variantLabel := if movement.sku.Some? then movement.sku.value else movement.key.variant;
      Some(DispatchInput(
        movement.tenant,
        None,
        Some(ALERTED_ROLES),
        LowStock,
        "Low stock alert",
        Some(Dropped(variantLabel, movement.after.available, movement.threshold)),
        Some(AlertData(movement.key, movement.stockLevelId, movement.sku, movement.after.available, movement.threshold)),
        Some(DedupKey(movement.key))))
  }

  predicate RaisesAlert(movement: Movement) {
    HandleStockMovement(movement).Some?
  }

  /** The opposite crossing. */
  predicate Recovers(movement: Movement) {
    movement.before.available <= movement.threshold && movement.after.available > movement.threshold
  }

  // ---------------------------------------------------------------------------------------------
  // Crossings of a history
  // ---------------------------------------------------------------------------------------------

  function Alerts(log: seq<Commit>, key: Key): nat {
    if log == [] then 0
    else
      var last := log[|log| - 1];
      Alerts(log[..|log| - 1], key) + if On(last, key) && RaisesAlert(last.movement) then 1 else 0
  }

  function Recoveries(log: seq<Commit>, key: Key): nat {
    if log == [] then 0
    else
      var last := log[|log| - 1];
      Recoveries(log[..|log| - 1], key) + if On(last, key) && Recovers(last.movement) then 1 else 0
  }

  /** A row that does not exist yet is not above its threshold. */
  predicate AboveThreshold(table: Table, key: Key) {
    key in table && table[key].levels.available > table[key].threshold
  }

  function Indicator(b: bool): int {
    if b then 1 else 0
  }

  /** Recoveries minus alerts tell whether the row is above its threshold now, compared with the start. */
  lemma {:induction false} CrossingsBalance(dir: Directory, start: Table, log: seq<Commit>, key: Key)
    requires Serial(dir, start, log)
    ensures Recoveries(log, key) - Alerts(log, key)
         == Indicator(AboveThreshold(Replay(dir, start, log).value, key)) - Indicator(AboveThreshold(start, key))
  {
    if log != [] {
      CrossingsBalance(dir, start, log[..|log| - 1], key);
    }
  }

  /** A commit that takes the row above its threshold is a recovery. */
  lemma RisesByRecovery(dir: Directory, start: Table, log: seq<Commit>, key: Key, i: nat)
    requires Serial(dir, start, log) && i < |log|
    requires !AboveThreshold(TableAt(dir, start, log, i), key) && AboveThreshold(TableAt(dir, start, log, i + 1), key)
    ensures On(log[i], key) && Recovers(log[i].movement)
  {
    TableSteps(dir, start, log, i);
  }

  lemma {:induction false} FindRecovery(dir: Directory, start: Table, log: seq<Commit>, key: Key, lo: nat, hi: nat)
    returns (m: nat)
    requires Serial(dir, start, log) && lo <= hi <= |log|
    requires !AboveThreshold(TableAt(dir, start, log, lo), key)
    requires AboveThreshold(TableAt(dir, start, log, hi), key)
    ensures lo <= m < hi && On(log[m], key) && Recovers(log[m].movement)
    decreases hi - lo
  {
    if AboveThreshold(TableAt(dir, start, log, hi - 1), key) {
      m := FindRecovery(dir, start, log, key, lo, hi - 1);
    } else {
      m := hi - 1;
      RisesByRecovery(dir, start, log, key, m);
    }
  }

  /** Between two alerts of a row, in version order, there is a recovery. */
  lemma AlertsAlternate(dir: Directory, start: Table, log: seq<Commit>, key: Key, i: nat, j: nat)
    requires Serial(dir, start, log) && i < j < |log|
    requires On(log[i], key) && RaisesAlert(log[i].movement)
    requires On(log[j], key) && RaisesAlert(log[j].movement)
    ensures exists m :: i < m < j && On(log[m], key) && Recovers(log[m].movement)
  {
    TableSteps(dir, start, log, i);
    TableSteps(dir, start, log, j);
    var m := FindRecovery(dir, start, log, key, i + 1, j);
  }

  // ---------------------------------------------------------------------------------------------
  // Crossings as the listener sees them: the published events, in whatever order they were delivered
  // ---------------------------------------------------------------------------------------------

  function AlertsSeen(events: seq<Event>, key: Key): nat {
    if events == [] then 0
    else
      var last := events[|events| - 1];
      AlertsSeen(events[..|events| - 1], key)
        + if last.movement.key == key && RaisesAlert(last.movement) then 1 else 0
  }

  ghost function AlertedBy(events: seq<Event>, key: Key): set<nat> {
    set i | 0 <= i < |events| && events[i].movement.key == key && RaisesAlert(events[i].movement) :: events[i].client
  }

  ghost function CrossedBy(log: seq<Commit>, key: Key): set<nat> {
    set i | 0 <= i < |log| && On(log[i], key) && RaisesAlert(log[i].movement) :: log[i].client
  }

  /** Committed crossings whose event is not out yet. */
  ghost function PendingAlerts(clients: Clients, key: Key): set<nat> {
    set c | c in clients && clients[c].req.key == key && clients[c].phase.Committed?
         && RaisesAlert(clients[c].phase.movement)
  }

  lemma AlertedByGrows(prefix: seq<Event>, last: Event, key: Key)
    ensures AlertedBy(prefix + [last], key) == AlertedBy(prefix, key)
      + if last.movement.key == key && RaisesAlert(last.movement) then {last.client} else {}
  {
    var events := prefix + [last];
    assert events[|prefix|] == last;
    assert forall i :: 0 <= i < |prefix| ==> events[i] == prefix[i];
  }

  lemma {:induction false} SeenAreDistinct(events: seq<Event>, key: Key)
    requires forall i, j :: 0 <= i < j < |events| ==> events[i].client != events[j].client
    ensures AlertsSeen(events, key) == |AlertedBy(events, key)|
  {
    if events != [] {
      var prefix, last := events[..|events| - 1], events[|events| - 1];
      assert events == prefix + [last];
      SeenAreDistinct(prefix, key);
      AlertedByGrows(prefix, last, key);
      assert last.client !in AlertedBy(prefix, key);
    }
  }

  lemma CrossedByGrows(prefix: seq<Commit>, last: Commit, key: Key)
    ensures CrossedBy(prefix + [last], key) == CrossedBy(prefix, key)
      + if On(last, key) && RaisesAlert(last.movement) then {last.client} else {}
  {
    var log := prefix + [last];
    assert log[|prefix|] == last;
    assert forall i :: 0 <= i < |prefix| ==> log[i] == prefix[i];
  }

  lemma {:induction false} CrossingsAreDistinct(log: seq<Commit>, key: Key)
    requires forall i, j :: 0 <= i < j < |log| ==> log[i].client != log[j].client
    ensures Alerts(log, key) == |CrossedBy(log, key)|
  {
    if log != [] {
      var prefix, last := log[..|log| - 1], log[|log| - 1];
      assert log == prefix + [last];
      CrossingsAreDistinct(prefix, key);
      CrossedByGrows(prefix, last, key);
      assert last.client !in CrossedBy(prefix, key);
    }
  }

  lemma MovementsNameTheirRow(start: State, s: State, i: nat)
    requires Inv(start, s) && i < |s.log|
    ensures s.log[i].movement.key == s.log[i].req.key
  {
    TableSteps(start.dir, start.table, s.log, i);
  }

  lemma LoggedCrossing(start: State, s: State, key: Key, c: nat)
    requires Inv(start, s) && c in s.clients && HasCommitted(s.clients[c].phase)
    requires RaisesAlert(s.clients[c].phase.movement)
    requires s.clients[c].phase.movement.key == key || s.clients[c].req.key == key
    ensures c in CrossedBy(s.log, key)
  {
    assert ClientOk(start, s.log, c, s.clients[c]);
    assert Logged(s.log, c, s.clients[c].req, s.clients[c].phase.movement);
    var i :| 0 <= i < |s.log| && s.log[i].client == c && s.log[i].req == s.clients[c].req
          && s.log[i].movement == s.clients[c].phase.movement;
    MovementsNameTheirRow(start, s, i);
  }

  lemma CrossingsAreSeenOrPending(start: State, s: State, key: Key)
    requires Inv(start, s)
    ensures CrossedBy(s.log, key) == AlertedBy(s.events, key) + PendingAlerts(s.clients, key)
    ensures AlertedBy(s.events, key) !! PendingAlerts(s.clients, key)
  {
    forall i | 0 <= i < |s.log| ensures s.log[i].movement.key == s.log[i].req.key {
      MovementsNameTheirRow(start, s, i);
    }
    forall c | c in CrossedBy(s.log, key) ensures c in AlertedBy(s.events, key) + PendingAlerts(s.clients, key) {
      var i :| 0 <= i < |s.log| && On(s.log[i], key) && RaisesAlert(s.log[i].movement) && s.log[i].client == c;
      if s.clients[c].phase.Returned? {
        var e :| 0 <= e < |s.events| && s.events[e].client == c;
        assert s.events[e].movement == s.log[i].movement;
      }
    }
    forall c | c in AlertedBy(s.events, key) ensures c in CrossedBy(s.log, key) {
      var e :| 0 <= e < |s.events| && s.events[e].movement.key == key && RaisesAlert(s.events[e].movement) && s.events[e].client == c;
      LoggedCrossing(start, s, key, c);
    }
    forall c | c in PendingAlerts(s.clients, key) ensures c in CrossedBy(s.log, key) {
      LoggedCrossing(start, s, key, c);
    }
  }

  /**
   * For every run and every order of publication: upward crossings minus the alerts the listener has
   * raised minus those still to be published equal 1 if the row is above its threshold and 0 if not,
   * for every row that replenish created (and relative to its initial state for any other row).
   */
  lemma CrossingCount(start: State, schedule: seq<nat>, key: Key)
    requires Initial(start)
    ensures
      var s := Run(start, schedule);
      Recoveries(s.log, key) - AlertsSeen(s.events, key) - |PendingAlerts(s.clients, key)|
        == Indicator(AboveThreshold(s.table, key)) - Indicator(AboveThreshold(start.table, key))
    ensures
      var s := Run(start, schedule);
      key !in start.table && (forall c :: c in s.clients ==> !s.clients[c].phase.Committed?) ==>
        Recoveries(s.log, key) - AlertsSeen(s.events, key) == Indicator(AboveThreshold(s.table, key))
  {
    RunKeepsInv(start, schedule);
    var s := Run(start, schedule);
    CrossingsBalance(start.dir, start.table, s.log, key);
    CrossingsAreDistinct(s.log, key);
    SeenAreDistinct(s.events, key);
    CrossingsAreSeenOrPending(start, s, key);
  }

  // ---------------------------------------------------------------------------------------------
  // Delivery: from a published movement to the inboxes of the managers
  // ---------------------------------------------------------------------------------------------

  predicate ShouldHear(user: User, tenant: Id) {
    user.tenant == tenant && (user.role == WarehouseManager || user.role == TenantAdmin) && user.isActive && !user.deleted
  }

  /** An unread alert for the recipient about this variant in this warehouse. */
  predicate IsAlert(row: Notification, tenant: Id, recipient: Id, key: Key) {
    Owns(row, tenant, recipient) && Unread(row) && row.kind == LowStock && row.dedupKey == Some(DedupKey(key))
  }

  predicate HasAlert(rows: seq<Notification>, tenant: Id, recipient: Id, key: Key) {
    exists i :: 0 <= i < |rows| && IsAlert(rows[i], tenant, recipient, key)
  }

  /** The alert is unread, names the movement's row, and carries the stock the movement left, which is at most the threshold. */
  predicate Describes(row: Notification, movement: Movement) {
    && !row.read && !row.deleted
    && row.tenant == movement.tenant
    && row.kind == LowStock
    && row.title == "Low stock alert"
    && row.dedupKey == Some(movement.key.variant + ":" + movement.key.warehouse)
    && row.data.Some? && row.body.Some?
    && row.data.value.key == movement.key
    && row.data.value.stockLevelId == movement.stockLevelId
    && row.data.value.available == row.body.value.available == movement.after.available
    && row.data.value.available <= row.data.value.threshold == row.body.value.threshold == movement.threshold
    && row.data.value.sku == movement.sku
    && (movement.sku.Some? ==> row.body.value.variantLabel == movement.sku.value)
    && (movement.sku.None? ==> row.body.value.variantLabel == movement.key.variant)
  }

  /** What handling a published movement without failure does to the stored notifications. */
  function Notify(rows: seq<Notification>, movement: Movement, users: seq<User>, now: int): seq<Notification> {
    match HandleStockMovement(movement)
    case None => rows
    case Some(input) =>
      match NotificationService.Dispatch(input)
      case Ok(Some(event)) => Deliver(rows, event, users, now)
      case _ => rows
  }

  /**
   * After a downward crossing is handled, every active warehouse manager and tenant admin of the
   * tenant has an unread alert for that variant and warehouse, and nobody has two.
   */
  lemma CrossingReachesTheManagers(rows: seq<Notification>, movement: Movement, users: seq<User>, now: int)
    requires RaisesAlert(movement) && movement.tenant != ""
    requires NotificationTheorems.NoDuplicates(rows)
    ensures NotificationTheorems.NoDuplicates(Notify(rows, movement, users, now))
    ensures forall i :: 0 <= i < |users| && ShouldHear(users[i], movement.tenant) ==>
      HasAlert(Notify(rows, movement, users, now), movement.tenant, users[i].id, movement.key)
    ensures forall i :: |rows| <= i < |Notify(rows, movement, users, now)| ==>
      var row := Notify(rows, movement, users, now)[i];
      && row.tenant == movement.tenant
      && (exists u :: 0 <= u < |users| && ShouldHear(users[u], movement.tenant) && users[u].id == row.recipient)
      && !HasAlert(rows, movement.tenant, row.recipient, movement.key)
      && Describes(row, movement)
      && row.createdAt == now
  {
    var event := NotificationService.Dispatch(HandleStockMovement(movement).value).value.value;
    assert Dedups(event.dedupKey) by {
      assert DedupKey(movement.key)[|movement.key.variant|] == ':';
    }
    var rows' := Notify(rows, movement, users, now);
    NotificationTheorems.DispatchesKeepNoDuplicates(rows, event, users, now);
    RecipientsAreExact(event, users);
    forall i | 0 <= i < |users| && ShouldHear(users[i], movement.tenant)
      ensures HasAlert(rows', movement.tenant, users[i].id, movement.key)
    {
      assert Targets(event, users[i]);
      NotificationTheorems.EveryRecipientIsNotified(rows, event, users, now, users[i].id);
    }
    forall i | |rows| <= i < |rows'|
      ensures exists u :: 0 <= u < |users| && ShouldHear(users[u], movement.tenant) && users[u].id == rows'[i].recipient
      ensures !HasAlert(rows, movement.tenant, rows'[i].recipient, movement.key)
    {
      NotificationTheorems.NobodyElseIsNotified(rows, event, users, now, i);
    }
  }

  /** Keys of different variants or warehouses differ, so one alert never hides another. */
  lemma DedupKeysAreInjective(a: Key, b: Key)
    requires ':' !in a.variant && ':' !in b.variant
    requires DedupKey(a) == DedupKey(b)
    ensures a == b
  {
    JoinIsInjective(a.variant, a.warehouse, b.variant, b.warehouse);
  }
}
