/** The notification feed: filtering, ordering, and its division into linked pages. */
module Feed {
  import opened Common
  import opened NotificationModel

  type PageNumber = p: nat | p >= 1 witness 1
  type Limit = l: nat | l >= 1 witness 1

  const DEFAULT_LIMIT: Limit := 20

  datatype Query = Query(
    page: Option<PageNumber>,
    limit: Option<Limit>,
    unreadOnly: bool,
    kind: Option<NotificationType>,
    startDate: Option<int>,
    endDate: Option<int>)

  function PageOf(query: Query): PageNumber {
    if query.page.Some? then query.page.value else 1
  }

  function LimitOf(query: Query): Limit {
    if query.limit.Some? then query.limit.value else DEFAULT_LIMIT
  }

  predicate DateRangeOk(query: Query) {
    query.startDate.Some? && query.endDate.Some? ==> query.startDate.value <= query.endDate.value
  }

  // ---------------------------------------------------------------------------------------------
  // The ordered feed
  // ---------------------------------------------------------------------------------------------

  predicate Matches(row: Notification, tenant: Id, recipient: Id, query: Query) {
    && Owns(row, tenant, recipient)
    && !row.deleted
    && (query.unreadOnly ==> !row.read)
    && (query.kind.Some? ==> row.kind == query.kind.value)
    && (query.startDate.Some? ==> row.createdAt >= query.startDate.value)
    && (query.endDate.Some? ==> row.createdAt <= query.endDate.value)
  }

  /** How the generated identifiers compare: the place of the identifier of the row at a position. */
  type Rank = nat -> int

  ghost predicate IsRanking(rank: Rank) {
    forall a, b :: a != b ==> rank(a) != rank(b)
  }

  /** Newest first; rows of the same moment by descending identifier. */
  predicate Before(rows: seq<Notification>, rank: Rank, a: nat, b: nat)
    requires a < |rows| && b < |rows|
  {
    rows[a].createdAt > rows[b].createdAt || (rows[a].createdAt == rows[b].createdAt && rank(a) > rank(b))
  }

  function Insert(rows: seq<Notification>, rank: Rank, ids: seq<nat>, id: nat): (r: seq<nat>)
    requires id < |rows| && forall i :: 0 <= i < |ids| ==> ids[i] < |rows|
    ensures forall i :: 0 <= i < |r| ==> r[i] < |rows|
    ensures forall x :: x in r <==> x in ids || x == id
  {
    if ids == [] then [id]
    else if Before(rows, rank, id, ids[0]) then [id] + ids
    else [ids[0]] + Insert(rows, rank, ids[1..], id)
  }

  lemma InsertKeepsBound(rows: seq<Notification>, rank: Rank, ids: seq<nat>, id: nat)
    requires id < |rows| && forall i :: 0 <= i < |ids| ==> ids[i] < id
    ensures forall i :: 0 <= i < |Insert(rows, rank, ids, id)| ==> Insert(rows, rank, ids, id)[i] < id + 1
  {
    forall i | 0 <= i < |Insert(rows, rank, ids, id)| ensures Insert(rows, rank, ids, id)[i] < id + 1 {
      assert Insert(rows, rank, ids, id)[i] in Insert(rows, rank, ids, id);
    }
  }

  /** The identifiers of the matching rows among the first `n`, in feed order. */
  function FeedUpTo(rows: seq<Notification>, rank: Rank, tenant: Id, recipient: Id, query: Query, n: nat): (ids: seq<nat>)
    requires n <= |rows|
    ensures forall i :: 0 <= i < |ids| ==> ids[i] < n
  {
    if n == 0 then []
    else
      var ids := FeedUpTo(rows, rank, tenant, recipient, query, n - 1);
      if Matches(rows[n - 1], tenant, recipient, query) then
        InsertKeepsBound(rows, rank, ids, n - 1);
        Insert(rows, rank, ids, n - 1)
      else ids
  }

  function FeedOf(rows: seq<Notification>, rank: Rank, tenant: Id, recipient: Id, query: Query): seq<nat> {
    FeedUpTo(rows, rank, tenant, recipient, query, |rows|)
  }

  ghost predicate Ordered(rows: seq<Notification>, rank: Rank, ids: seq<nat>) {
    && (forall i :: 0 <= i < |ids| ==> ids[i] < |rows|)
    && (forall i, j :: 0 <= i < j < |ids| ==> Before(rows, rank, ids[i], ids[j]))
  }

  lemma InsertedComesLater(rows: seq<Notification>, rank: Rank, ids: seq<nat>, id: nat)
    requires IsRanking(rank) && Ordered(rows, rank, ids) && id < |rows| && id !in ids
    requires ids != [] && !Before(rows, rank, id, ids[0])
    ensures forall j :: 0 <= j < |Insert(rows, rank, ids[1..], id)| ==> Before(rows, rank, ids[0], Insert(rows, rank, ids[1..], id)[j])
  {
    var tail := Insert(rows, rank, ids[1..], id);
    forall j | 0 <= j < |tail| ensures Before(rows, rank, ids[0], tail[j]) {
      assert tail[j] in tail;
      if tail[j] != id {
        var k :| 0 <= k < |ids[1..]| && ids[1..][k] == tail[j];
        assert Before(rows, rank, ids[0], ids[k + 1]);
      }
    }
  }

  lemma OrderedWithHead(rows: seq<Notification>, rank: Rank, head: nat, tail: seq<nat>)
    requires head < |rows| && Ordered(rows, rank, tail)
    requires forall j :: 0 <= j < |tail| ==> Before(rows, rank, head, tail[j])
    ensures Ordered(rows, rank, [head] + tail)
  {
  }

  lemma OrderedWithoutHead(rows: seq<Notification>, rank: Rank, ids: seq<nat>)
    requires ids != [] && Ordered(rows, rank, ids)
    ensures Ordered(rows, rank, ids[1..])
  {
  }

  lemma BeforeIsTransitive(rows: seq<Notification>, rank: Rank, ids: seq<nat>, id: nat)
    requires id < |rows| && ids != [] && Ordered(rows, rank, ids) && Before(rows, rank, id, ids[0])
    ensures forall j :: 0 <= j < |ids| ==> Before(rows, rank, id, ids[j])
  {
  }

  lemma {:induction false} InsertKeepsOrder(rows: seq<Notification>, rank: Rank, ids: seq<nat>, id: nat)
    requires IsRanking(rank) && Ordered(rows, rank, ids) && id < |rows| && id !in ids
    ensures Ordered(rows, rank, Insert(rows, rank, ids, id))
  {
    if ids != [] {
      if Before(rows, rank, id, ids[0]) {
        BeforeIsTransitive(rows, rank, ids, id);
        OrderedWithHead(rows, rank, id, ids);
      } else {
        OrderedWithoutHead(rows, rank, ids);
        InsertKeepsOrder(rows, rank, ids[1..], id);
        InsertedComesLater(rows, rank, ids, id);
        OrderedWithHead(rows, rank, ids[0], Insert(rows, rank, ids[1..], id));
      }
    }
  }

  lemma {:induction false} FeedHoldsTheMatches(rows: seq<Notification>, rank: Rank, tenant: Id, recipient: Id, query: Query, n: nat)
    requires n <= |rows|
    ensures forall id: nat :: id in FeedUpTo(rows, rank, tenant, recipient, query, n) <==>
      id < n && Matches(rows[id], tenant, recipient, query)
  {
    if n > 0 {
      FeedHoldsTheMatches(rows, rank, tenant, recipient, query, n - 1);
    }
  }

  lemma {:induction false} FeedIsOrdered(rows: seq<Notification>, rank: Rank, tenant: Id, recipient: Id, query: Query, n: nat)
    requires IsRanking(rank) && n <= |rows|
    ensures Ordered(rows, rank, FeedUpTo(rows, rank, tenant, recipient, query, n))
  {
    if n > 0 {
      var ids := FeedUpTo(rows, rank, tenant, recipient, query, n - 1);
      FeedIsOrdered(rows, rank, tenant, recipient, query, n - 1);
      assert n - 1 !in ids;
      InsertKeepsOrder(rows, rank, ids, n - 1);
    }
  }

  /**
   * The feed lists exactly the rows of the recipient that are not removed and pass the filters, newest
   * first and by descending identifier among equals; the strict order also says each only once.
   */
  lemma FeedIsOrderedAndExact(rows: seq<Notification>, rank: Rank, tenant: Id, recipient: Id, query: Query)
    requires IsRanking(rank)
    ensures
      var feed := FeedOf(rows, rank, tenant, recipient, query);
      && (forall i :: 0 <= i < |feed| ==> feed[i] < |rows|)
      && (forall i, j :: 0 <= i < j < |feed| ==>
            || rows[feed[i]].createdAt > rows[feed[j]].createdAt
            || (rows[feed[i]].createdAt == rows[feed[j]].createdAt && rank(feed[i]) > rank(feed[j])))
      && (forall id: nat :: id in feed <==>
            && id < |rows| && rows[id].tenant == tenant && rows[id].recipient == recipient && !rows[id].deleted
            && (query.unreadOnly ==> !rows[id].read)
            && (query.kind.Some? ==> rows[id].kind == query.kind.value)
            && (query.startDate.Some? ==> query.startDate.value <= rows[id].createdAt)
            && (query.endDate.Some? ==> rows[id].createdAt <= query.endDate.value))
  {
    FeedIsOrdered(rows, rank, tenant, recipient, query, |rows|);
    FeedHoldsTheMatches(rows, rank, tenant, recipient, query, |rows|);
  }

  // ---------------------------------------------------------------------------------------------
  // Pages
  // ---------------------------------------------------------------------------------------------

  datatype Meta = Meta(totalItems: nat, itemCount: nat, itemsPerPage: nat, totalPages: nat, currentPage: nat)

  /** The links, by the page they lead to. */
  datatype Links = Links(first: nat, previous: Option<nat>, next: Option<nat>, last: nat)

  datatype Paginated<T> = Paginated(data: seq<T>, meta: Meta, links: Links)

  /** `skip` then `take`. */
  function Slice<T>(items: seq<T>, page: PageNumber, limit: Limit): seq<T> {
    var lo := Min((page - 1) * limit, |items|);
    items[lo..Min(lo + limit, |items|)]
  }

  /** The number of pages, at least one. */
  function TotalPages(totalItems: nat, limit: Limit): (pages: nat)
    ensures pages >= 1
    ensures pages * limit >= totalItems
    ensures pages > 1 ==> (pages - 1) * limit < totalItems
  {
    var pages := (totalItems + limit - 1) / limit;
    if pages == 0 then 1 else pages
  }

  function BuildPaginatedResponse<T>(data: seq<T>, totalItems: nat, page: PageNumber, limit: Limit): Paginated<T> {
    var totalPages := TotalPages(totalItems, limit);
    Paginated(
      data,
      Meta(totalItems, |data|, limit, totalPages, page),
      Links(
        1,
        if page > 1 then Some(page - 1) else None,
        if page < totalPages then Some(page + 1) else None,
        totalPages))
  }

  function PageResponse<T>(items: seq<T>, page: PageNumber, limit: Limit): Paginated<T> {
    BuildPaginatedResponse(Slice(items, page, limit), |items|, page, limit)
  }

  /** The pages a client sees that starts at `page` and follows `next` until there is none. */
  function Follow<T>(items: seq<T>, page: PageNumber, limit: Limit): seq<PageNumber>
    decreases TotalPages(|items|, limit) - page
  {
    var next := PageResponse(items, page, limit).links.next;
    if next.None? then [page] else [page] + Follow(items, next.value, limit)
  }

  function Gather<T>(items: seq<T>, pages: seq<PageNumber>, limit: Limit): seq<T> {
    if pages == [] then [] else Slice(items, pages[0], limit) + Gather(items, pages[1..], limit)
  }

  /** Where a page ends, counted from the front of the feed. */
  function EndOf(totalItems: nat, page: nat, limit: Limit): nat {
    Min(page * limit, totalItems)
  }

  lemma PagesAreContiguous<T>(items: seq<T>, page: PageNumber, limit: Limit)
    ensures EndOf(|items|, page - 1, limit) <= EndOf(|items|, page, limit)
    ensures Slice(items, page, limit) == items[EndOf(|items|, page - 1, limit)..EndOf(|items|, page, limit)]
    ensures page == TotalPages(|items|, limit) ==> EndOf(|items|, page, limit) == |items|
  {
    assert page * limit == (page - 1) * limit + limit;
  }

  lemma PagesBelow(a: nat, b: nat, limit: Limit)
    requires a <= b
    ensures a * limit <= b * limit
    ensures a > 0 ==> (a - 1) * limit + limit <= b * limit
  {
    assert b * limit == a * limit + (b - a) * limit;
    assert a > 0 ==> a * limit == (a - 1) * limit + limit;
  }

  /** Every page but the last is full, the last holds the rest, and there is nothing behind it. */
  lemma OnlyTheLastPageIsShort<T>(items: seq<T>, page: PageNumber, limit: Limit)
    ensures
      var response := PageResponse(items, page, limit);
      var pages := TotalPages(|items|, limit);
      && response.meta.totalItems == |items| && response.meta.itemCount == |response.data|
      && response.meta.itemCount ==
           if page < pages then limit else if page == pages then |items| - (pages - 1) * limit else 0
  {
    var pages := TotalPages(|items|, limit);
    if page < pages {
      PagesBelow(page, pages - 1, limit);
    } else if page > pages {
      PagesBelow(pages, page - 1, limit);
    } else {
      assert pages * limit == (pages - 1) * limit + limit;
    }
  }

  /** `previous` leads back to exactly the page whose `next` leads here. */
  lemma PreviousUndoesNext<T>(items: seq<T>, page: PageNumber, other: PageNumber, limit: Limit)
    requires other <= TotalPages(|items|, limit)
    ensures PageResponse(items, page, limit).links.next == Some(other)
       <==> PageResponse(items, other, limit).links.previous == Some(page)
  {
  }

  lemma GatherFirst<T>(items: seq<T>, page: PageNumber, rest: seq<PageNumber>, limit: Limit)
    ensures Gather(items, [page] + rest, limit) == Slice(items, page, limit) + Gather(items, rest, limit)
  {
    assert ([page] + rest)[1..] == rest;
  }

  lemma Rejoin<T>(items: seq<T>, a: nat, b: nat)
    requires a <= b <= |items|
    ensures items[a..b] + items[b..] == items[a..]
  {
  }

  lemma {:induction false} FollowFrom<T>(items: seq<T>, page: PageNumber, limit: Limit)
    requires page <= TotalPages(|items|, limit)
    ensures
      var pages := Follow(items, page, limit);
      && |pages| == TotalPages(|items|, limit) - page + 1
      && (forall i :: 0 <= i < |pages| ==> pages[i] == page + i)
      && Gather(items, pages, limit) == items[EndOf(|items|, page - 1, limit)..]
    decreases TotalPages(|items|, limit) - page
  {
    PagesAreContiguous(items, page, limit);
    if page == TotalPages(|items|, limit) {
      assert Follow(items, page, limit) == [page];
      GatherFirst(items, page, [], limit);
    } else {
      FollowFrom(items, page + 1, limit);
      var rest := Follow(items, page + 1, limit);
      assert Follow(items, page, limit) == [page] + rest;
      GatherFirst(items, page, rest, limit);
      Rejoin(items, EndOf(|items|, page - 1, limit), EndOf(|items|, page, limit));
    }
  }

  /**
   * Following `next` from `first` visits pages 1 to totalPages in order, ends at `last`, and the data
   * of the visited pages put together is the whole feed, each row once.
   */
  lemma PagesPartitionTheFeed<T>(items: seq<T>, limit: Limit)
    ensures
      var pages := Follow(items, 1, limit);
      && |pages| == TotalPages(|items|, limit)
      && (forall i :: 0 <= i < |pages| ==> pages[i] == i + 1)
      && pages[|pages| - 1] == PageResponse(items, 1, limit).links.last
      && Gather(items, pages, limit) == items
  {
    FollowFrom(items, 1, limit);
    assert items[0..] == items;
  }

  // ---------------------------------------------------------------------------------------------
  // Answers to queries
  // ---------------------------------------------------------------------------------------------

  /** What a client is answered. */
  function AnswerFeed(rows: seq<Notification>, rank: Rank, tenant: Id, recipient: Id, query: Query): Result<Paginated<nat>, InboxError> {
    if DateRangeOk(query) then Ok(PageResponse(FeedOf(rows, rank, tenant, recipient, query), PageOf(query), LimitOf(query)))
    else Err(BadDateRange)
  }

  /** The p-th page of l rows: the rows, the counts, and the links. */
  ghost predicate IsPage(feed: seq<nat>, p: nat, l: nat, answer: Paginated<nat>)
    requires p >= 1 && l >= 1
  {
    var total := |feed|;
    var lo := if (p - 1) * l <= total then (p - 1) * l else total;
    var hi := if p * l <= total then p * l else total;
    && lo <= hi && answer.data == feed[lo..hi]
    && answer.meta.totalItems == total
    && answer.meta.itemCount == hi - lo
    && answer.meta.itemsPerPage == l
    && answer.meta.currentPage == p
    && answer.meta.totalPages >= 1
    && total <= answer.meta.totalPages * l
    && (answer.meta.totalPages > 1 ==> (answer.meta.totalPages - 1) * l < total)
    && answer.links.first == 1
    && answer.links.last == answer.meta.totalPages
    && answer.links.previous == (if p > 1 then Some(p - 1) else None)
    && answer.links.next == (if p < answer.meta.totalPages then Some(p + 1) else None)
  }

  lemma PageResponseIsPage(feed: seq<nat>, p: PageNumber, l: Limit)
    ensures IsPage(feed, p, l, PageResponse(feed, p, l))
  {
    PagesAreContiguous(feed, p, l);
  }

  /** An omitted page is the first, an omitted limit is 20; an inverted range of dates is refused. */
  lemma AnswersThePageAskedFor(rows: seq<Notification>, rank: Rank, tenant: Id, recipient: Id, query: Query)
    ensures
      var answer := AnswerFeed(rows, rank, tenant, recipient, query);
      if query.startDate.Some? && query.endDate.Some? && query.startDate.value > query.endDate.value then
        answer == Err(BadDateRange)
      else
        && answer.Ok?
        && IsPage(
             FeedOf(rows, rank, tenant, recipient, query),
             if query.page.Some? then query.page.value else 1,
             if query.limit.Some? then query.limit.value else 20,
             answer.value)
  {
    PageResponseIsPage(FeedOf(rows, rank, tenant, recipient, query), PageOf(query), LimitOf(query));
  }

  lemma {:induction false} FeedIgnoresThePage(rows: seq<Notification>, rank: Rank, tenant: Id, recipient: Id, query: Query, n: nat)
    requires n <= |rows|
    ensures FeedUpTo(rows, rank, tenant, recipient, query, n) == FeedUpTo(rows, rank, tenant, recipient, query.(page := None), n)
  {
    if n > 0 {
      FeedIgnoresThePage(rows, rank, tenant, recipient, query, n - 1);
    }
  }

  /** Everything a client receives that asks, and asks again for `next` until there is none. */
  function Walk(rows: seq<Notification>, rank: Rank, tenant: Id, recipient: Id, query: Query): seq<nat>
    decreases TotalPages(|FeedOf(rows, rank, tenant, recipient, query.(page := None))|, LimitOf(query)) - PageOf(query)
  {
    var answer := AnswerFeed(rows, rank, tenant, recipient, query);
    FeedIgnoresThePage(rows, rank, tenant, recipient, query, |rows|);
    if answer.Err? then []
    else if answer.value.links.next.None? then answer.value.data
    else answer.value.data + Walk(rows, rank, tenant, recipient, query.(page := Some(answer.value.links.next.value)))
  }

  lemma {:induction false} WalkFrom(rows: seq<Notification>, rank: Rank, tenant: Id, recipient: Id, query: Query)
    requires DateRangeOk(query)
    requires PageOf(query) <= TotalPages(|FeedOf(rows, rank, tenant, recipient, query.(page := None))|, LimitOf(query))
    ensures
      var feed := FeedOf(rows, rank, tenant, recipient, query.(page := None));
      Walk(rows, rank, tenant, recipient, query) == feed[EndOf(|feed|, PageOf(query) - 1, LimitOf(query))..]
    decreases TotalPages(|FeedOf(rows, rank, tenant, recipient, query.(page := None))|, LimitOf(query)) - PageOf(query)
  {
    var feed := FeedOf(rows, rank, tenant, recipient, query.(page := None));
    var (p, l) := (PageOf(query), LimitOf(query));
    FeedIgnoresThePage(rows, rank, tenant, recipient, query, |rows|);
    PagesAreContiguous(feed, p, l);
    if p < TotalPages(|feed|, l) {
      var next := query.(page := Some(p + 1));
      assert next.(page := None) == query.(page := None);
      WalkFrom(rows, rank, tenant, recipient, next);
      Rejoin(feed, EndOf(|feed|, p - 1, l), EndOf(|feed|, p, l));
    }
  }

  /** A client that starts without a page and follows `next` receives the whole feed, each row once, in order. */
  lemma WalkGathersTheFeed(rows: seq<Notification>, rank: Rank, tenant: Id, recipient: Id, query: Query)
    requires query.page == None || query.page == Some(1)
    requires AnswerFeed(rows, rank, tenant, recipient, query).Ok?
    ensures Walk(rows, rank, tenant, recipient, query) == FeedOf(rows, rank, tenant, recipient, query)
  {
    FeedIgnoresThePage(rows, rank, tenant, recipient, query, |rows|);
    WalkFrom(rows, rank, tenant, recipient, query);
  }
}
