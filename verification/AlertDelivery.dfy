/**
 * From the stock machine to the inboxes: the published events of a run are delivered in order, while
 * recipients read and remove notifications and other dispatches arrive.
 */
module AlertDelivery {
  import opened Common
  import opened StockModel
  import opened StockHistory
  import opened StockMachine
  import opened StockAlerts
  import opened NotificationModel
  import opened NotificationTheorems
  import NotificationService

  /** An event is handled, with the users there are at that moment; or something else happens to the inboxes. */
  datatype Happening = Delivered(event: Event, users: seq<User>, now: int) | Elsewhere(op: Op)

  function Happen(rows: seq<Notification>, h: Happening): seq<Notification> {
    match h
    case Delivered(event, users, now) => Notify(rows, event.movement, users, now)
    case Elsewhere(op) => Apply(rows, op)
  }

  function HappenAll(rows: seq<Notification>, hs: seq<Happening>): seq<Notification> {
    if hs == [] then rows else Happen(HappenAll(rows, hs[..|hs| - 1]), hs[|hs| - 1])
  }

  function DeliveredEvents(hs: seq<Happening>): seq<Event> {
    if hs == [] then []
    else
      var last := hs[|hs| - 1];
      DeliveredEvents(hs[..|hs| - 1]) + if last.Delivered? then [last.event] else []
  }

  predicate ReadsOrRemoves(h: Happening, tenant: Id, recipient: Id) {
    h.Elsewhere? && TouchesInbox(h.op, tenant, recipient)
  }

  ghost predicate HasExactlyOneAlert(rows: seq<Notification>, tenant: Id, recipient: Id, key: Key) {
    exists i :: 0 <= i < |rows| && IsAlert(rows[i], tenant, recipient, key)
             && forall j :: 0 <= j < |rows| && IsAlert(rows[j], tenant, recipient, key) ==> j == i
  }

  // ---------------------------------------------------------------------------------------------
  // One happening
  // ---------------------------------------------------------------------------------------------

  lemma NotifyAppends(rows: seq<Notification>, movement: Movement, users: seq<User>, now: int)
    ensures rows <= Notify(rows, movement, users, now)
    ensures NoDuplicates(rows) ==> NoDuplicates(Notify(rows, movement, users, now))
  {
    var input := HandleStockMovement(movement);
    if input.Some? && NoDuplicates(rows) {
      var event := NotificationService.Dispatch(input.value);
      if event.Ok? && event.value.Some? {
        DispatchesKeepNoDuplicates(rows, event.value.value, users, now);
      }
    }
  }

  lemma HappeningKeepsNoDuplicates(rows: seq<Notification>, h: Happening)
    requires NoDuplicates(rows)
    ensures NoDuplicates(Happen(rows, h))
  {
    match h
    case Delivered(event, users, now) => NotifyAppends(rows, event.movement, users, now);
    case Elsewhere(op) => ApplyKeepsNoDuplicates(rows, op);
  }

  lemma AlertOutlives(rows: seq<Notification>, h: Happening, tenant: Id, recipient: Id, key: Key)
    requires HasAlert(rows, tenant, recipient, key) && !ReadsOrRemoves(h, tenant, recipient)
    ensures HasAlert(Happen(rows, h), tenant, recipient, key)
  {
    var i :| 0 <= i < |rows| && IsAlert(rows[i], tenant, recipient, key);
    match h
    case Delivered(event, users, now) =>
      NotifyAppends(rows, event.movement, users, now);
      assert Happen(rows, h)[i] == rows[i];
    case Elsewhere(op) =>
      OtherInboxesAreUntouched(rows, op);
      assert Happen(rows, h)[i] == rows[i];
  }

  lemma DedupKeyIsNotEmpty(key: Key)
    ensures DedupKey(key) != ""
  {
    assert DedupKey(key)[|key.variant|] == ':';
  }

  lemma OneIsExactlyOne(rows: seq<Notification>, tenant: Id, recipient: Id, key: Key)
    requires NoDuplicates(rows) && HasAlert(rows, tenant, recipient, key)
    ensures HasExactlyOneAlert(rows, tenant, recipient, key)
  {
    var i :| 0 <= i < |rows| && IsAlert(rows[i], tenant, recipient, key);
    DedupKeyIsNotEmpty(key);
    forall j | 0 <= j < |rows| && IsAlert(rows[j], tenant, recipient, key) ensures j == i {
      assert Duplicates(rows[i], rows[j]) && Duplicates(rows[j], rows[i]);
    }
  }

  // ---------------------------------------------------------------------------------------------
  // All of them
  // ---------------------------------------------------------------------------------------------

  lemma {:induction false} NeverDuplicates(hs: seq<Happening>)
    ensures NoDuplicates(HappenAll([], hs))
  {
    if hs != [] {
      NeverDuplicates(hs[..|hs| - 1]);
      HappeningKeepsNoDuplicates(HappenAll([], hs[..|hs| - 1]), hs[|hs| - 1]);
    }
  }

  lemma {:induction false} DeliveryOf(hs: seq<Happening>, event: Event) returns (i: nat)
    requires event in DeliveredEvents(hs)
    ensures i < |hs| && hs[i].Delivered? && hs[i].event == event
  {
    var last := hs[|hs| - 1];
    if last.Delivered? && last.event == event {
      i := |hs| - 1;
    } else {
      i := DeliveryOf(hs[..|hs| - 1], event);
    }
  }

  lemma NextHappening(hs: seq<Happening>, n: nat)
    requires n < |hs|
    ensures HappenAll([], hs[..n + 1]) == Happen(HappenAll([], hs[..n]), hs[n])
  {
    assert hs[..n + 1][..n] == hs[..n];
  }

  lemma DeliveryRaisesTheAlert(rows: seq<Notification>, event: Event, users: seq<User>, now: int, user: User)
    requires NoDuplicates(rows) && RaisesAlert(event.movement) && event.movement.tenant != ""
    requires user in users && ShouldHear(user, event.movement.tenant)
    ensures HasAlert(Happen(rows, Delivered(event, users, now)), event.movement.tenant, user.id, event.movement.key)
  {
    CrossingReachesTheManagers(rows, event.movement, users, now);
  }

  /** The recipient does nothing after the i-th happening and before the n-th. */
  ghost predicate LeavesInboxAlone(hs: seq<Happening>, i: nat, n: nat, tenant: Id, recipient: Id)
    requires n <= |hs|
  {
    forall j :: i < j < n ==> !ReadsOrRemoves(hs[j], tenant, recipient)
  }

  /** From the delivery of a downward crossing on, the alert is there. */
  lemma {:induction false} AlertStays(hs: seq<Happening>, i: nat, n: nat, user: User, movement: Movement)
    requires i < n <= |hs| && hs[i].Delivered? && user in hs[i].users && hs[i].event.movement == movement
    requires RaisesAlert(movement) && movement.tenant != "" && ShouldHear(user, movement.tenant)
    requires LeavesInboxAlone(hs, i, n, movement.tenant, user.id)
    ensures HasAlert(HappenAll([], hs[..n]), movement.tenant, user.id, movement.key)
  {
    NextHappening(hs, n - 1);
    if n == i + 1 {
      NeverDuplicates(hs[..i]);
      DeliveryRaisesTheAlert(HappenAll([], hs[..i]), hs[i].event, hs[i].users, hs[i].now, user);
    } else {
      AlertStays(hs, i, n - 1, user, movement);
      AlertOutlives(HappenAll([], hs[..n - 1]), hs[n - 1], movement.tenant, user.id, movement.key);
    }
  }

  /** The event of a committed operation that returned. */
  lemma EventOfCommit(start: State, s: State, m: nat)
    requires Inv(start, s) && m < |s.log| && s.clients[s.log[m].client].phase.Returned?
    ensures Event(s.log[m].client, s.log[m].movement) in s.events
    ensures s.log[m].movement.key == s.log[m].req.key && s.log[m].movement.tenant == s.log[m].req.tenant
    ensures s.log[m].client in start.clients && s.log[m].req == start.clients[s.log[m].client].req
  {
    TableSteps(start.dir, start.table, s.log, m);
    var e :| 0 <= e < |s.events| && s.events[e].client == s.log[m].client;
    assert s.events[e] == Event(s.log[m].client, s.log[m].movement);
  }

  /**
   * For every run of the stock machine, every delivery of its events and everything that happens to
   * the inboxes meanwhile: a committed operation that took a row down to its threshold and returned
   * has been delivered, and every manager active at that moment who has read or removed nothing since
   * has exactly one unread alert for the row.
   */
  lemma CrossingsReachTheInboxes(start: State, schedule: seq<nat>, hs: seq<Happening>, m: nat)
    requires Initial(start) && forall c :: c in start.clients ==> start.clients[c].req.tenant != ""
    requires DeliveredEvents(hs) == Run(start, schedule).events
    requires m < |Run(start, schedule).log|
    requires
      var s := Run(start, schedule);
      && s.log[m].client in s.clients && s.clients[s.log[m].client].phase.Returned?
      && RaisesAlert(s.log[m].movement)
    ensures
      var commit := Run(start, schedule).log[m];
      exists i :: 0 <= i < |hs| && hs[i].Delivered? && hs[i].event == Event(commit.client, commit.movement)
        && forall user :: (user in hs[i].users && ShouldHear(user, commit.req.tenant)
             && LeavesInboxAlone(hs, i, |hs|, commit.req.tenant, user.id)) ==>
             HasExactlyOneAlert(HappenAll([], hs), commit.req.tenant, user.id, commit.req.key)
  {
    RunKeepsInv(start, schedule);
    var s := Run(start, schedule);
    var commit := s.log[m];
    EventOfCommit(start, s, m);
    var i := DeliveryOf(hs, Event(commit.client, commit.movement));
    assert hs[..|hs|] == hs;
    NeverDuplicates(hs);
    forall user | user in hs[i].users && ShouldHear(user, commit.req.tenant)
             && LeavesInboxAlone(hs, i, |hs|, commit.req.tenant, user.id)
      ensures HasExactlyOneAlert(HappenAll([], hs), commit.req.tenant, user.id, commit.req.key)
    {
      AlertStays(hs, i, |hs|, user, commit.movement);
      OneIsExactlyOne(HappenAll([], hs), commit.req.tenant, user.id, commit.req.key);
    }
  }
}
