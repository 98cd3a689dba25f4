/** What holds of every serial run of dispatches and inbox operations. */
module NotificationTheorems {
  import opened Common
  import opened NotificationModel

  // ---------------------------------------------------------------------------------------------
  // At most one unread notification per recipient and alert
  // ---------------------------------------------------------------------------------------------

  /** Both rows are unread and stand for the same alert to the same person. */
  predicate Duplicates(a: Notification, b: Notification) {
    && Unread(a) && Unread(b) && Dedups(a.dedupKey)
    && a.tenant == b.tenant && a.recipient == b.recipient && a.kind == b.kind && a.dedupKey == b.dedupKey
  }

  ghost predicate NoDuplicates(rows: seq<Notification>) {
    forall i, j :: 0 <= i < j < |rows| ==> !Duplicates(rows[i], rows[j])
  }

  lemma NewRowIsNoDuplicate(rows: seq<Notification>, event: DispatchEvent, recipient: Id, now: int, i: nat)
    requires i < |rows| && (Dedups(event.dedupKey) ==> !AlreadyNotified(rows, event, recipient))
    ensures !Duplicates(rows[i], NewRow(event, recipient, now))
  {
    assert Dedups(event.dedupKey) ==> !SameAlert(rows[i], event, recipient);
  }

  /** The addressees are distinct, and with a key none of them has the alert unread. */
  lemma AddresseesAreNew(rows: seq<Notification>, event: DispatchEvent, users: seq<User>)
    ensures Distinct(Addressees(rows, event, users))
    ensures Dedups(event.dedupKey) ==>
      forall id :: id in Addressees(rows, event, users) ==> !AlreadyNotified(rows, event, id)
  {
    RecipientsAreExact(event, users);
    NotYetNotifiedIsExact(rows, event, Recipients(event, users));
  }

  lemma DispatchesKeepNoDuplicates(rows: seq<Notification>, event: DispatchEvent, users: seq<User>, now: int)
    requires NoDuplicates(rows)
    ensures NoDuplicates(Deliver(rows, event, users, now))
  {
    var ids := Addressees(rows, event, users);
    var rows' := Deliver(rows, event, users, now);
    AddresseesAreNew(rows, event, users);
    forall i, j | 0 <= i < j < |rows'| ensures !Duplicates(rows'[i], rows'[j]) {
      if i < |rows| <= j {
        assert ids[j - |rows|] in ids;
        NewRowIsNoDuplicate(rows, event, ids[j - |rows|], now, i);
      }
    }
  }

  lemma ApplyKeepsNoDuplicates(rows: seq<Notification>, op: Op)
    requires NoDuplicates(rows)
    ensures NoDuplicates(Apply(rows, op))
  {
    if op.Dispatched? {
      DispatchesKeepNoDuplicates(rows, op.event, op.users, op.now);
    }
  }

  lemma {:induction false} RunsKeepNoDuplicates(rows: seq<Notification>, ops: seq<Op>)
    requires NoDuplicates(rows)
    ensures NoDuplicates(RunOps(rows, ops))
  {
    if ops != [] {
      RunsKeepNoDuplicates(rows, ops[..|ops| - 1]);
      ApplyKeepsNoDuplicates(RunOps(rows, ops[..|ops| - 1]), ops[|ops| - 1]);
    }
  }

  // ---------------------------------------------------------------------------------------------
  // Delivery
  // ---------------------------------------------------------------------------------------------

  /**
   * A dispatch with a deduplication key leaves every recipient with an unread notification of that
   * alert: the one that was there, or a new one.
   */
  lemma EveryRecipientIsNotified(
    rows: seq<Notification>, event: DispatchEvent, users: seq<User>, now: int, recipient: Id)
    requires Dedups(event.dedupKey) && recipient in Recipients(event, users)
    ensures AlreadyNotified(Deliver(rows, event, users, now), event, recipient)
  {
    var ids := Addressees(rows, event, users);
    var rows' := Deliver(rows, event, users, now);
    RecipientsAreExact(event, users);
    NotYetNotifiedIsExact(rows, event, Recipients(event, users));
    if AlreadyNotified(rows, event, recipient) {
      var i :| 0 <= i < |rows| && SameAlert(rows[i], event, recipient);
      assert rows'[i] == rows[i];
    } else {
      var k :| 0 <= k < |ids| && ids[k] == recipient;
      assert rows'[|rows| + k] == NewRow(event, recipient, now);
    }
  }

  /** The recipient reads or removes something. */
  predicate TouchesInbox(op: Op, tenant: Id, recipient: Id) {
    (op.MarkedRead? || op.MarkedAllRead? || op.Removed?) && op.tenant == tenant && op.recipient == recipient
  }

  lemma AlertSurvives(rows: seq<Notification>, op: Op, event: DispatchEvent, recipient: Id)
    requires AlreadyNotified(rows, event, recipient) && !TouchesInbox(op, event.tenant, recipient)
    ensures AlreadyNotified(Apply(rows, op), event, recipient)
  {
    var i :| 0 <= i < |rows| && SameAlert(rows[i], event, recipient);
    assert SameAlert(Apply(rows, op)[i], event, recipient);
  }

  /** An alert stays in the inbox, whatever else happens, until its recipient reads or removes something. */
  lemma {:induction false} NotifiedUntilReadOrRemoved(
    rows: seq<Notification>, ops: seq<Op>, event: DispatchEvent, recipient: Id)
    requires AlreadyNotified(rows, event, recipient)
    requires forall i :: 0 <= i < |ops| ==> !TouchesInbox(ops[i], event.tenant, recipient)
    ensures AlreadyNotified(RunOps(rows, ops), event, recipient)
  {
    if ops != [] {
      NotifiedUntilReadOrRemoved(rows, ops[..|ops| - 1], event, recipient);
      AlertSurvives(RunOps(rows, ops[..|ops| - 1]), ops[|ops| - 1], event, recipient);
    }
  }

  /** A stored notification says what the dispatch said, to one recipient, from the moment of handling on. */
  predicate StoredFrom(event: DispatchEvent, now: int, row: Notification) {
    && row.tenant == event.tenant && row.kind == event.kind && row.title == event.title
    && row.body == event.body && row.data == event.data && row.dedupKey == event.dedupKey
    && row.createdAt == now && !row.read && !row.deleted
  }

  /** The recipient has this alert unread; without a key, or with an empty one, nobody counts as having it. */
  ghost predicate HasItUnread(rows: seq<Notification>, event: DispatchEvent, recipient: Id) {
    && event.dedupKey.Some? && event.dedupKey.value != ""
    && exists j :: 0 <= j < |rows| && rows[j].tenant == event.tenant && rows[j].recipient == recipient
                && rows[j].kind == event.kind && rows[j].dedupKey == event.dedupKey && !rows[j].read && !rows[j].deleted
  }

  lemma AlreadyNotifiedHasItUnread(rows: seq<Notification>, event: DispatchEvent, recipient: Id)
    ensures HasItUnread(rows, event, recipient) <==> Dedups(event.dedupKey) && AlreadyNotified(rows, event, recipient)
  {
    if Dedups(event.dedupKey) {
      if j :| 0 <= j < |rows| && SameAlert(rows[j], event, recipient) {
        assert rows[j].recipient == recipient && !rows[j].read;
      }
      if HasItUnread(rows, event, recipient) {
        var j :| 0 <= j < |rows| && rows[j].tenant == event.tenant && rows[j].recipient == recipient
              && rows[j].kind == event.kind && rows[j].dedupKey == event.dedupKey && !rows[j].read && !rows[j].deleted;
        assert SameAlert(rows[j], event, recipient);
      }
    }
  }

  lemma AddresseesLackIt(rows: seq<Notification>, event: DispatchEvent, users: seq<User>, recipient: Id)
    ensures recipient in Addressees(rows, event, users) <==>
      recipient in Recipients(event, users) && !HasItUnread(rows, event, recipient)
  {
    RecipientsAreExact(event, users);
    NotYetNotifiedIsExact(rows, event, Recipients(event, users));
    AlreadyNotifiedHasItUnread(rows, event, recipient);
  }

  /**
   * A dispatch changes no stored row and appends one for each recipient who does not have the alert
   * unread, and for nobody else.
   */
  lemma DispatchStoresOneRowEach(rows: seq<Notification>, event: DispatchEvent, users: seq<User>, now: int)
    ensures
      var rows' := Deliver(rows, event, users, now);
      && rows <= rows'
      && (forall i :: |rows| <= i < |rows'| ==> StoredFrom(event, now, rows'[i]))
      && (forall i, j :: |rows| <= i < j < |rows'| ==> rows'[i].recipient != rows'[j].recipient)
    ensures
      var rows' := Deliver(rows, event, users, now);
      forall recipient ::
        recipient in Recipients(event, users) && !HasItUnread(rows, event, recipient) <==>
        exists i :: |rows| <= i < |rows'| && rows'[i].recipient == recipient
  {
    var ids := Addressees(rows, event, users);
    var rows' := Deliver(rows, event, users, now);
    AddresseesAreNew(rows, event, users);
    forall recipient
      ensures recipient in Recipients(event, users) && !HasItUnread(rows, event, recipient) <==>
        exists i :: |rows| <= i < |rows'| && rows'[i].recipient == recipient
    {
      AddresseesLackIt(rows, event, users, recipient);
      if recipient in ids {
        var k :| 0 <= k < |ids| && ids[k] == recipient;
        assert rows'[|rows| + k].recipient == recipient;
      }
      if i :| |rows| <= i < |rows'| && rows'[i].recipient == recipient {
        assert ids[i - |rows|] == recipient;
      }
    }
  }

  /** A dispatch stores nothing for anyone who is not a recipient or who still has the alert unread. */
  lemma NobodyElseIsNotified(
    rows: seq<Notification>, event: DispatchEvent, users: seq<User>, now: int, i: nat)
    requires |rows| <= i < |Deliver(rows, event, users, now)|
    ensures
      var row := Deliver(rows, event, users, now)[i];
      && row == NewRow(event, row.recipient, now)
      && row.recipient in Recipients(event, users)
      && (Dedups(event.dedupKey) ==> !AlreadyNotified(rows, event, row.recipient))
  {
    var ids := Addressees(rows, event, users);
    RecipientsAreExact(event, users);
    NotYetNotifiedIsExact(rows, event, Recipients(event, users));
    assert ids[i - |rows|] in ids;
  }

  // ---------------------------------------------------------------------------------------------
  // Unread accounting
  // ---------------------------------------------------------------------------------------------

  /** How many of a recipient's notifications were stored, read, and removed while unread. */
  datatype Tally = Tally(saved: nat, read: nat, removed: nat)

  predicate IsUnreadOf(rows: seq<Notification>, tenant: Id, recipient: Id, id: nat) {
    id < |rows| && rows[id].tenant == tenant && rows[id].recipient == recipient && !rows[id].read && !rows[id].deleted
  }

  /** The recipient's unread rows. */
  ghost function UnreadOf(rows: seq<Notification>, tenant: Id, recipient: Id): set<nat> {
    set i: nat | i < |rows| && IsUnreadOf(rows, tenant, recipient, i)
  }

  lemma UnreadOfOneMore(rows: seq<Notification>, last: Notification, tenant: Id, recipient: Id)
    ensures UnreadOf(rows + [last], tenant, recipient) == UnreadOf(rows, tenant, recipient)
      + if IsUnreadOf(rows + [last], tenant, recipient, |rows|) then {|rows|} else {}
  {
  }

  /** The count is the number of the recipient's unread rows. */
  lemma {:induction false} UnreadCountIsExact(rows: seq<Notification>, tenant: Id, recipient: Id)
    ensures UnreadCount(rows, tenant, recipient) == |UnreadOf(rows, tenant, recipient)|
  {
    if rows != [] {
      var before, last := rows[..|rows| - 1], rows[|rows| - 1];
      assert rows == before + [last];
      UnreadCountIsExact(before, tenant, recipient);
      UnreadOfOneMore(before, last, tenant, recipient);
      assert |before| !in UnreadOf(before, tenant, recipient);
    }
  }

  /** What an operation reports about the recipient: the rows it stored, the rows its update affected. */
  function TallyOf(rows: seq<Notification>, op: Op, tenant: Id, recipient: Id): Tally {
    match op
    case Dispatched(event, users, _) =>
      Tally(if event.tenant == tenant && recipient in Addressees(rows, event, users) then 1 else 0, 0, 0)
    case Lost(_) => Tally(0, 0, 0)
    case MarkedRead(t, r, id) =>
      Tally(0, if t == tenant && r == recipient && IsUnreadOf(rows, t, r, id) then 1 else 0, 0)
    case MarkedAllRead(t, r) =>
      Tally(0, if t == tenant && r == recipient then UnreadCount(rows, t, r) else 0, 0)
    case Removed(t, r, id) =>
      Tally(0, 0, if t == tenant && r == recipient && IsUnreadOf(rows, t, r, id) then 1 else 0)
  }

  function RunTally(rows: seq<Notification>, ops: seq<Op>, tenant: Id, recipient: Id): Tally {
    if ops == [] then Tally(0, 0, 0)
    else
      var before := RunTally(rows, ops[..|ops| - 1], tenant, recipient);
      var last := TallyOf(RunOps(rows, ops[..|ops| - 1]), ops[|ops| - 1], tenant, recipient);
      Tally(before.saved + last.saved, before.read + last.read, before.removed + last.removed)
  }

  lemma {:induction false} CountAppends(a: seq<Notification>, b: seq<Notification>, tenant: Id, recipient: Id)
    ensures UnreadCount(a + b, tenant, recipient) == UnreadCount(a, tenant, recipient) + UnreadCount(b, tenant, recipient)
  {
    if b == [] {
      assert a + b == a;
    } else {
      CountAppends(a, b[..|b| - 1], tenant, recipient);
      assert (a + b)[..|a + b| - 1] == a + b[..|b| - 1];
    }
  }

  lemma CountChangesAt(rows: seq<Notification>, id: nat, row: Notification, tenant: Id, recipient: Id)
    requires id < |rows|
    ensures
      var was := if Owns(rows[id], tenant, recipient) && Unread(rows[id]) then 1 else 0;
      var becomes := if Owns(row, tenant, recipient) && Unread(row) then 1 else 0;
      UnreadCount(rows[id := row], tenant, recipient) == UnreadCount(rows, tenant, recipient) - was + becomes
  {
    var (a, b) := (rows[..id], rows[id + 1..]);
    assert rows == a + [rows[id]] + b;
    assert rows[id := row] == a + [row] + b;
    CountAppends(a + [rows[id]], b, tenant, recipient);
    CountAppends(a, [rows[id]], tenant, recipient);
    CountAppends(a + [row], b, tenant, recipient);
    CountAppends(a, [row], tenant, recipient);
  }

  /** Marking everything read leaves the recipient with none unread and everyone else with what they had. */
  lemma {:induction false} MarkAllClearsTheRecipient(rows: seq<Notification>, t: Id, r: Id, tenant: Id, recipient: Id)
    ensures UnreadCount(MarkAll(rows, t, r), tenant, recipient)
         == if t == tenant && r == recipient then 0 else UnreadCount(rows, tenant, recipient)
  {
    if rows != [] {
      MarkAllClearsTheRecipient(rows[..|rows| - 1], t, r, tenant, recipient);
      assert MarkAll(rows, t, r)[..|rows| - 1] == MarkAll(rows[..|rows| - 1], t, r);
    }
  }

  lemma {:induction false} NewRowsCountOnce(event: DispatchEvent, ids: seq<Id>, now: int, tenant: Id, recipient: Id)
    requires Distinct(ids)
    ensures UnreadCount(NewRows(event, ids, now), tenant, recipient)
         == if event.tenant == tenant && recipient in ids then 1 else 0
  {
    if ids != [] {
      NewRowsCountOnce(event, ids[..|ids| - 1], now, tenant, recipient);
      assert NewRows(event, ids, now)[..|ids| - 1] == NewRows(event, ids[..|ids| - 1], now);
    }
  }

  lemma OneOperationIsAccounted(rows: seq<Notification>, op: Op, tenant: Id, recipient: Id)
    ensures
      var tally := TallyOf(rows, op, tenant, recipient);
      UnreadCount(Apply(rows, op), tenant, recipient)
        == UnreadCount(rows, tenant, recipient) + tally.saved - tally.read - tally.removed
  {
    match op
    case Dispatched(event, users, now) =>
      var ids := Addressees(rows, event, users);
      RecipientsAreExact(event, users);
      NotYetNotifiedIsExact(rows, event, Recipients(event, users));
      NewRowsCountOnce(event, ids, now, tenant, recipient);
      CountAppends(rows, NewRows(event, ids, now), tenant, recipient);
    case Lost(_) =>
    case MarkedRead(t, r, id) =>
      if CanMarkRead(rows, t, r, id) {
        CountChangesAt(rows, id, rows[id].(read := true), tenant, recipient);
      }
    case MarkedAllRead(t, r) => MarkAllClearsTheRecipient(rows, t, r, tenant, recipient);
    case Removed(t, r, id) =>
      if CanRemove(rows, t, r, id) {
        CountChangesAt(rows, id, rows[id].(deleted := true), tenant, recipient);
      }
  }

  /** Over any run, unread is what was saved minus what was read minus what was removed while unread. */
  lemma {:induction false} UnreadAccounting(rows: seq<Notification>, ops: seq<Op>, tenant: Id, recipient: Id)
    ensures
      var tally := RunTally(rows, ops, tenant, recipient);
      UnreadCount(RunOps(rows, ops), tenant, recipient)
        == UnreadCount(rows, tenant, recipient) + tally.saved - tally.read - tally.removed
  {
    if ops != [] {
      UnreadAccounting(rows, ops[..|ops| - 1], tenant, recipient);
      OneOperationIsAccounted(RunOps(rows, ops[..|ops| - 1]), ops[|ops| - 1], tenant, recipient);
    }
  }

  /** A second markRead of the same notification changes nothing. */
  lemma MarkReadIsIdempotent(rows: seq<Notification>, tenant: Id, recipient: Id, id: nat)
    ensures MarkOne(MarkOne(rows, tenant, recipient, id), tenant, recipient, id) == MarkOne(rows, tenant, recipient, id)
  {
  }

  /** No operation changes the stored rows of anyone but the recipient who asked for it, and none loses a row. */
  lemma OtherInboxesAreUntouched(rows: seq<Notification>, op: Op)
    ensures |Apply(rows, op)| >= |rows|
    ensures forall i :: 0 <= i < |rows| && !TouchesInbox(op, rows[i].tenant, rows[i].recipient) ==> Apply(rows, op)[i] == rows[i]
    ensures forall i :: 0 <= i < |rows| ==>
      var row := Apply(rows, op)[i];
      row == rows[i].(read := row.read, deleted := row.deleted)
      && (rows[i].read ==> row.read) && (rows[i].deleted ==> row.deleted)
  {
  }
}
