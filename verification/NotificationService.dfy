/**
 * The notification listener and service over the stored rows.  Dispatches are handled one at a time;
 * `outage` says that the database failed while one was being handled.
 */
module NotificationService {
  import opened Common
  import opened NotificationModel
  import opened Feed
  import NotificationTheorems

  lemma {:induction false} NoRolesNoTargets(ids: seq<Id>, event: DispatchEvent, users: seq<User>)
    requires event.recipientRoles == []
    ensures AddTargets(ids, event, users) == ids
  {
    if users != [] {
      NoRolesNoTargets(ids, event, users[..|users| - 1]);
    }
  }

  lemma NobodyToTell()
    ensures forall event: DispatchEvent, users: seq<User> ::
      event.recipientIds == [] && event.recipientRoles == [] ==> |Recipients(event, users)| == 0
  {
    forall event: DispatchEvent, users: seq<User> | event.recipientIds == [] && event.recipientRoles == []
      ensures |Recipients(event, users)| == 0
    {
      NoRolesNoTargets([], event, users);
    }
  }

  /** What a dispatch request does: it is rejected, dropped for want of recipients, or emitted. */
  function Dispatch(input: DispatchInput): (result: Result<Option<DispatchEvent>, InboxError>)
    ensures result.Err? <==> input.tenant == ""
    ensures result.Ok? && result.value.None? ==>
      forall users: seq<User>, event: DispatchEvent ::
        && event.recipientIds == (if input.recipientIds.Some? then input.recipientIds.value else [])
        && event.recipientRoles == (if input.recipientRoles.Some? then input.recipientRoles.value else [])
        ==> |Recipients(event, users)| == 0
    ensures result.Ok? && result.value.Some? ==>
      var event := result.value.value;
      && event.tenant == input.tenant && event.kind == input.kind && event.dedupKey == input.dedupKey
      && event.title == input.title && event.body == input.body && event.data == input.data
      && (event.recipientIds != [] || event.recipientRoles != [])
      && (forall id :: id in event.recipientIds <==> input.recipientIds.Some? && id in input.recipientIds.value)
      && (forall role :: role in event.recipientRoles <==> input.recipientRoles.Some? && role in input.recipientRoles.value)
  {
    var ids := if input.recipientIds.Some? then input.recipientIds.value else [];
    var roles := if input.recipientRoles.Some? then input.recipientRoles.value else [];
    if input.tenant == "" then Err(MissingTenant)
    else if |ids| == 0 && |roles| == 0 then
      NobodyToTell();
      Ok(None)
    else
      Ok(Some(DispatchEvent(input.tenant, ids, roles, input.kind, input.title, input.body, input.data, input.dedupKey)))
  }

  lemma NobodyToNotify(rows: seq<Notification>, event: DispatchEvent, users: seq<User>, now: int)
    requires Recipients(event, users) == []
    ensures Deliver(rows, event, users, now) == rows
  {
    assert Addressees(rows, event, users) == [];
  }

  lemma {:induction false} InsertGrows(rows: seq<Notification>, rank: Rank, ids: seq<nat>, id: nat)
    requires id < |rows| && forall i :: 0 <= i < |ids| ==> ids[i] < |rows|
    ensures |Insert(rows, rank, ids, id)| == |ids| + 1
  {
    if ids != [] && !Before(rows, rank, id, ids[0]) {
      InsertGrows(rows, rank, ids[1..], id);
    }
  }

  lemma {:induction false} UnreadFeedLength(rows: seq<Notification>, rank: Rank, tenant: Id, recipient: Id, n: nat)
    requires n <= |rows|
    ensures |FeedUpTo(rows, rank, tenant, recipient, Query(None, None, true, None, None, None), n)|
         == UnreadCount(rows[..n], tenant, recipient)
  {
    if n > 0 {
      UnreadFeedLength(rows, rank, tenant, recipient, n - 1);
      assert rows[..n][..n - 1] == rows[..n - 1];
      InsertGrows(rows, rank, FeedUpTo(rows, rank, tenant, recipient, Query(None, None, true, None, None, None), n - 1), n - 1);
    }
  }

  lemma CountOneMore(rows: seq<Notification>, i: nat, tenant: Id, recipient: Id)
    requires i < |rows|
    ensures UnreadCount(rows[..i + 1], tenant, recipient) ==
      UnreadCount(rows[..i], tenant, recipient) + if Owns(rows[i], tenant, recipient) && Unread(rows[i]) then 1 else 0
  {
    assert rows[..i + 1][..i] == rows[..i];
  }

  class Inbox {
    var rows: seq<Notification>
    var users: seq<User>
    const rank: Rank

    constructor (users: seq<User>, rank: Rank)
      ensures rows == [] && this.users == users && this.rank == rank
    {
      rows := [];
      this.users := users;
      this.rank := rank;
    }

    method ResolveRecipients(event: DispatchEvent) returns (recipients: seq<Id>)
      ensures recipients == Recipients(event, users)
    {
      recipients := [];
      for i := 0 to |event.recipientIds|
        invariant recipients == AddAll([], event.recipientIds[..i])
      {
        recipients := Add(recipients, event.recipientIds[i]);
        assert event.recipientIds[..i + 1][..i] == event.recipientIds[..i];
      }
      assert event.recipientIds[..|event.recipientIds|] == event.recipientIds;
      if |event.recipientRoles| > 0 {
        for i := 0 to |users|
          invariant recipients == AddTargets(AddAll([], event.recipientIds), event, users[..i])
        {
          if users[i].tenant == event.tenant && users[i].role in event.recipientRoles && users[i].isActive && !users[i].deleted {
            recipients := Add(recipients, users[i].id);
          }
          assert users[..i + 1][..i] == users[..i];
        }
        assert users[..|users|] == users;
      } else {
        NoRolesNoTargets(recipients, event, users);
      }
    }

    /** The recipients among `ids` that do not have this alert unread, in their order. */
    method FilterDeduplicated(event: DispatchEvent, ids: seq<Id>) returns (targets: seq<Id>)
      ensures targets == NotYetNotified(rows, event, ids)
    {
      var skip: set<Id> := set i | 0 <= i < |rows| && rows[i].recipient in ids
                              && SameAlert(rows[i], event, rows[i].recipient) :: rows[i].recipient;
      targets := [];
      for i := 0 to |ids|
        invariant targets == NotYetNotified(rows, event, ids[..i])
      {
        if ids[i] !in skip {
          targets := targets + [ids[i]];
        }
        assert ids[..i + 1][..i] == ids[..i];
      }
      assert ids[..|ids|] == ids;
    }

    method HandleDispatch(event: DispatchEvent, now: int, outage: bool)
      modifies this`rows
      ensures rows == Apply(old(rows), if outage then Lost(event) else Dispatched(event, users, now))
      ensures NotificationTheorems.NoDuplicates(old(rows)) ==> NotificationTheorems.NoDuplicates(rows)
      ensures outage ==> rows == old(rows)
      ensures !outage ==>
        && old(rows) <= rows
        && (forall i :: |old(rows)| <= i < |rows| ==> NotificationTheorems.StoredFrom(event, now, rows[i]))
        && (forall i, j :: |old(rows)| <= i < j < |rows| ==> rows[i].recipient != rows[j].recipient)
        && (forall recipient ::
              recipient in Recipients(event, users) && !NotificationTheorems.HasItUnread(old(rows), event, recipient) <==>
              exists i :: |old(rows)| <= i < |rows| && rows[i].recipient == recipient)
    {
      NotificationTheorems.DispatchStoresOneRowEach(rows, event, users, now);
      if NotificationTheorems.NoDuplicates(rows) {
        NotificationTheorems.DispatchesKeepNoDuplicates(rows, event, users, now);
      }
      var recipientIds := ResolveRecipients(event);
      if |recipientIds| == 0 {
        NobodyToNotify(rows, event, users, now);
        return;
      }
      var targets := recipientIds;
      if event.dedupKey.Some? && event.dedupKey.value != "" {
        targets := FilterDeduplicated(event, recipientIds);
      }
      if |targets| == 0 {
        assert rows + NewRows(event, targets, now) == rows;
        return;
      }
      if !outage {
        rows := rows + NewRows(event, targets, now);
      }
    }

    /** Reading a notification twice succeeds; somebody else's, a removed or an unknown one is not found. */
    method MarkRead(tenant: Id, recipient: Id, id: nat) returns (result: Result<(), InboxError>)
      modifies this`rows
      ensures rows == Apply(old(rows), MarkedRead(tenant, recipient, id))
      ensures result ==
        if id < |old(rows)| && old(rows)[id].tenant == tenant && old(rows)[id].recipient == recipient && !old(rows)[id].deleted
        then Ok(()) else Err(NotFound)
      ensures rows == if result.Ok? then old(rows)[id := old(rows)[id].(read := true)] else old(rows)
    {
      var affected := 0;
      if id < |rows| && Owns(rows[id], tenant, recipient) && !rows[id].read && !rows[id].deleted {
        rows := rows[id := rows[id].(read := true)];
        affected := 1;
      }
      if affected > 0 {
        return Ok(());
      }
      if id < |rows| && Owns(rows[id], tenant, recipient) && !rows[id].deleted {
        return Ok(());
      }
      return Err(NotFound);
    }

    /** Returns how many were unread, and leaves none. */
    method MarkAllRead(tenant: Id, recipient: Id) returns (affected: nat)
      modifies this`rows
      ensures rows == Apply(old(rows), MarkedAllRead(tenant, recipient))
      ensures affected == UnreadCount(old(rows), tenant, recipient)
      ensures UnreadCount(rows, tenant, recipient) == 0
      ensures affected == |NotificationTheorems.UnreadOf(old(rows), tenant, recipient)|
      ensures |rows| == |old(rows)| && forall i: nat :: i < |rows| ==>
        rows[i] == if NotificationTheorems.IsUnreadOf(old(rows), tenant, recipient, i)
                   then old(rows)[i].(read := true) else old(rows)[i]
    {
      NotificationTheorems.UnreadCountIsExact(rows, tenant, recipient);
      ghost var was := rows;
      affected := 0;
      ghost var marked := MarkAll(was, tenant, recipient);
      for i := 0 to |rows|
        invariant |rows| == |was|
        invariant forall j :: 0 <= j < i ==> rows[j] == marked[j]
        invariant forall j :: i <= j < |was| ==> rows[j] == was[j]
        invariant affected == UnreadCount(was[..i], tenant, recipient)
      {
        CountOneMore(was, i, tenant, recipient);
        if Owns(rows[i], tenant, recipient) && !rows[i].read && !rows[i].deleted {
          rows := rows[i := rows[i].(read := true)];
          affected := affected + 1;
        }
      }
      assert was[..|was|] == was;
      assert rows == marked;
      NotificationTheorems.MarkAllClearsTheRecipient(was, tenant, recipient, tenant, recipient);
    }

    method Remove(tenant: Id, recipient: Id, id: nat) returns (result: Result<(), InboxError>)
      modifies this`rows
      ensures rows == Apply(old(rows), Removed(tenant, recipient, id))
      ensures result ==
        if id < |old(rows)| && old(rows)[id].tenant == tenant && old(rows)[id].recipient == recipient
        then Ok(()) else Err(NotFound)
      ensures rows == if result.Ok? then old(rows)[id := old(rows)[id].(deleted := true)] else old(rows)
    {
      if id < |rows| && Owns(rows[id], tenant, recipient) {
        rows := rows[id := rows[id].(deleted := true)];
        return Ok(());
      }
      return Err(NotFound);
    }

    /** The badge number is the length of the feed of unread notifications. */
    method GetUnreadCount(tenant: Id, recipient: Id) returns (count: nat)
      ensures count == UnreadCount(rows, tenant, recipient)
      ensures count == |NotificationTheorems.UnreadOf(rows, tenant, recipient)|
    {
      NotificationTheorems.UnreadCountIsExact(rows, tenant, recipient);
      count := |FeedOf(rows, rank, tenant, recipient, Query(None, None, true, None, None, None))|;
      UnreadFeedLength(rows, rank, tenant, recipient, |rows|);
      assert rows[..|rows|] == rows;
    }

    method FindFeed(tenant: Id, recipient: Id, query: Query) returns (result: Result<Paginated<nat>, InboxError>)
      ensures result == AnswerFeed(rows, rank, tenant, recipient, query)
      ensures result.Err? <==> query.startDate.Some? && query.endDate.Some? && query.startDate.value > query.endDate.value
      ensures result.Ok? ==>
        IsPage(
          FeedOf(rows, rank, tenant, recipient, query),
          if query.page.Some? then query.page.value else 1,
          if query.limit.Some? then query.limit.value else 20,
          result.value)
    {
      AnswersThePageAskedFor(rows, rank, tenant, recipient, query);
      if query.startDate.Some? && query.endDate.Some? && query.startDate.value > query.endDate.value {
        return Err(BadDateRange);
      }
      var feed := FeedOf(rows, rank, tenant, recipient, query);
      var data := Slice(feed, PageOf(query), LimitOf(query));
      return Ok(BuildPaginatedResponse(data, |feed|, PageOf(query), LimitOf(query)));
    }
  }
}
