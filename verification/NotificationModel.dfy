/** Notification rows, who receives a dispatch, and what each inbox operation does to the rows. */
module NotificationModel {
  import opened Common
  import StockModel

  datatype Role = SuperAdmin | TenantAdmin | Auditor | CatalogManager | WarehouseManager | Customer

  datatype User = User(id: Id, tenant: Id, role: Role, isActive: bool, deleted: bool)

  datatype NotificationType = LowStock

  /** The sentence of the alert, by what it mentions. */
  datatype Body = Dropped(variantLabel: string, available: int, threshold: int)

  datatype AlertData = AlertData(
    key: StockModel.Key,
    stockLevelId: nat,
    sku: Option<string>,
    available: int,
    threshold: int)

  datatype DispatchInput = DispatchInput(
    tenant: Id,
    recipientIds: Option<seq<Id>>,
    recipientRoles: Option<seq<Role>>,
    kind: NotificationType,
    title: string,
    body: Option<Body>,
    data: Option<AlertData>,
    dedupKey: Option<string>)

  datatype DispatchEvent = DispatchEvent(
    tenant: Id,
    recipientIds: seq<Id>,
    recipientRoles: seq<Role>,
    kind: NotificationType,
    title: string,
    body: Option<Body>,
    data: Option<AlertData>,
    dedupKey: Option<string>)

  /** Rows are soft-deleted only, so a row's identifier is its position. */
  datatype Notification = Notification(
    tenant: Id,
    recipient: Id,
    kind: NotificationType,
    title: string,
    body: Option<Body>,
    data: Option<AlertData>,
    dedupKey: Option<string>,
    createdAt: int,
    read: bool,
    deleted: bool)

  datatype InboxError = MissingTenant | NotFound | BadDateRange

  // ---------------------------------------------------------------------------------------------
  // Recipients
  // ---------------------------------------------------------------------------------------------

  predicate Targets(event: DispatchEvent, user: User) {
    user.tenant == event.tenant && user.role in event.recipientRoles && user.isActive && !user.deleted
  }

  /** Adding to a set that remembers insertion order. */
  function Add(ids: seq<Id>, id: Id): seq<Id> {
    if id in ids then ids else ids + [id]
  }

  function AddAll(ids: seq<Id>, more: seq<Id>): seq<Id> {
    if more == [] then ids else Add(AddAll(ids, more[..|more| - 1]), more[|more| - 1])
  }

  function AddTargets(ids: seq<Id>, event: DispatchEvent, users: seq<User>): seq<Id> {
    if users == [] then ids
    else
      var before := AddTargets(ids, event, users[..|users| - 1]);
      var user := users[|users| - 1];
      if Targets(event, user) then Add(before, user.id) else before
  }

  /** The explicit recipients in their order, then the active users of the roles, each once. */
  function Recipients(event: DispatchEvent, users: seq<User>): seq<Id> {
    AddTargets(AddAll([], event.recipientIds), event, users)
  }

  ghost predicate Distinct(ids: seq<Id>) {
    forall i, j :: 0 <= i < j < |ids| ==> ids[i] != ids[j]
  }

  lemma {:induction false} AddAllIsASet(ids: seq<Id>, more: seq<Id>)
    requires Distinct(ids)
    ensures Distinct(AddAll(ids, more))
    ensures forall id :: id in AddAll(ids, more) <==> id in ids || id in more
  {
    if more != [] {
      AddAllIsASet(ids, more[..|more| - 1]);
    }
  }

  lemma {:induction false} AddTargetsIsASet(ids: seq<Id>, event: DispatchEvent, users: seq<User>)
    requires Distinct(ids)
    ensures Distinct(AddTargets(ids, event, users))
    ensures forall id :: id in AddTargets(ids, event, users) <==>
      id in ids || exists i :: 0 <= i < |users| && Targets(event, users[i]) && users[i].id == id
  {
    if users != [] {
      AddTargetsIsASet(ids, event, users[..|users| - 1]);
    }
  }

  /** A dispatch reaches exactly its explicit recipients and the active users of its roles, each once. */
  lemma RecipientsAreExact(event: DispatchEvent, users: seq<User>)
    ensures Distinct(Recipients(event, users))
    ensures forall id :: id in Recipients(event, users) <==>
      id in event.recipientIds
      || exists i :: 0 <= i < |users| && users[i].id == id && users[i].tenant == event.tenant
                  && users[i].role in event.recipientRoles && users[i].isActive && !users[i].deleted
  {
    AddAllIsASet([], event.recipientIds);
    AddTargetsIsASet(AddAll([], event.recipientIds), event, users);
  }

  // ---------------------------------------------------------------------------------------------
  // Deduplication and delivery
  // ---------------------------------------------------------------------------------------------

  predicate Unread(row: Notification) {
    !row.read && !row.deleted
  }

  /** `null` and the empty string switch deduplication off. */
  predicate Dedups(key: Option<string>) {
    key.Some? && key.value != ""
  }

  predicate SameAlert(row: Notification, event: DispatchEvent, recipient: Id) {
    && row.tenant == event.tenant && row.kind == event.kind && row.dedupKey == event.dedupKey
    && row.recipient == recipient && Unread(row)
  }

  predicate AlreadyNotified(rows: seq<Notification>, event: DispatchEvent, recipient: Id) {
    exists i :: 0 <= i < |rows| && SameAlert(rows[i], event, recipient)
  }

  function NotYetNotified(rows: seq<Notification>, event: DispatchEvent, ids: seq<Id>): seq<Id> {
    if ids == [] then []
    else
      var before := NotYetNotified(rows, event, ids[..|ids| - 1]);
      var last := ids[|ids| - 1];
      if AlreadyNotified(rows, event, last) then before else before + [last]
  }

  function Addressees(rows: seq<Notification>, event: DispatchEvent, users: seq<User>): seq<Id> {
    var recipients := Recipients(event, users);
    if Dedups(event.dedupKey) then NotYetNotified(rows, event, recipients) else recipients
  }

  function NewRow(event: DispatchEvent, recipient: Id, now: int): Notification {
    Notification(event.tenant, recipient, event.kind, event.title, event.body, event.data, event.dedupKey, now, false, false)
  }

  function NewRows(event: DispatchEvent, ids: seq<Id>, now: int): seq<Notification> {
    seq(|ids|, i requires 0 <= i < |ids| => NewRow(event, ids[i], now))
  }

  function Deliver(rows: seq<Notification>, event: DispatchEvent, users: seq<User>, now: int): seq<Notification> {
    rows + NewRows(event, Addressees(rows, event, users), now)
  }

  lemma {:induction false} NotYetNotifiedIsExact(rows: seq<Notification>, event: DispatchEvent, ids: seq<Id>)
    requires Distinct(ids)
    ensures Distinct(NotYetNotified(rows, event, ids))
    ensures forall id :: id in NotYetNotified(rows, event, ids) <==> id in ids && !AlreadyNotified(rows, event, id)
  {
    if ids != [] {
      NotYetNotifiedIsExact(rows, event, ids[..|ids| - 1]);
    }
  }

  // ---------------------------------------------------------------------------------------------
  // Inbox operations of a recipient
  // ---------------------------------------------------------------------------------------------

  predicate Owns(row: Notification, tenant: Id, recipient: Id) {
    row.tenant == tenant && row.recipient == recipient
  }

  predicate CanMarkRead(rows: seq<Notification>, tenant: Id, recipient: Id, id: nat) {
    id < |rows| && Owns(rows[id], tenant, recipient) && Unread(rows[id])
  }

  function MarkOne(rows: seq<Notification>, tenant: Id, recipient: Id, id: nat): seq<Notification> {
    if CanMarkRead(rows, tenant, recipient, id) then rows[id := rows[id].(read := true)] else rows
  }

  function MarkAll(rows: seq<Notification>, tenant: Id, recipient: Id): seq<Notification> {
    seq(|rows|, i requires 0 <= i < |rows| =>
      if Owns(rows[i], tenant, recipient) && Unread(rows[i]) then rows[i].(read := true) else rows[i])
  }

  /** The soft delete matches on identity and owner only, so it also matches a row that is deleted already. */
  predicate CanRemove(rows: seq<Notification>, tenant: Id, recipient: Id, id: nat) {
    id < |rows| && Owns(rows[id], tenant, recipient)
  }

  function RemoveOne(rows: seq<Notification>, tenant: Id, recipient: Id, id: nat): seq<Notification> {
    if CanRemove(rows, tenant, recipient, id) then rows[id := rows[id].(deleted := true)] else rows
  }

  function UnreadCount(rows: seq<Notification>, tenant: Id, recipient: Id): nat {
    if rows == [] then 0
    else
      var last := rows[|rows| - 1];
      UnreadCount(rows[..|rows| - 1], tenant, recipient)
        + if Owns(last, tenant, recipient) && Unread(last) then 1 else 0
  }

  // ---------------------------------------------------------------------------------------------
  // Runs
  // ---------------------------------------------------------------------------------------------

  /** `Lost` is a dispatch whose handling failed: the listener logs the error and stores nothing. */
  datatype Op =
    | Dispatched(event: DispatchEvent, users: seq<User>, now: int)
    | Lost(event: DispatchEvent)
    | MarkedRead(tenant: Id, recipient: Id, id: nat)
    | MarkedAllRead(tenant: Id, recipient: Id)
    | Removed(tenant: Id, recipient: Id, id: nat)

  function Apply(rows: seq<Notification>, op: Op): seq<Notification> {
    match op
    case Dispatched(event, users, now) => Deliver(rows, event, users, now)
    case Lost(_) => rows
    case MarkedRead(tenant, recipient, id) => MarkOne(rows, tenant, recipient, id)
    case MarkedAllRead(tenant, recipient) => MarkAll(rows, tenant, recipient)
    case Removed(tenant, recipient, id) => RemoveOne(rows, tenant, recipient, id)
  }

  function RunOps(rows: seq<Notification>, ops: seq<Op>): seq<Notification> {
    if ops == [] then rows else Apply(RunOps(rows, ops[..|ops| - 1]), ops[|ops| - 1])
  }
}
