# A verified model of a multi-tenant commerce back end

The project models six parts of the back end and proves what they promise, for all inputs, all runs and
all interleavings.

1. **The stock engine** (`StockModel`, `StockHistory`, `StockMachine`, `StockTheorems`, `StockRaces`,
   `StockLimits`, `InventoryService`, `Retry`). Any number of clients run deduct, replenish, reserve and release requests
   on shared rows. Each attempt is a read step and a save step, and others may move in between. The main
   results: every run is serial in commit order, units are conserved and never oversold, a request gives up
   only after five overtakings (and five requests on a row always get through, six need not), an insert can
   fail needlessly exactly when two requests of a tenant may create the same row, and every request that
   returns publishes exactly the movement it committed.
2. **The stock alerts** (`StockAlerts`, `AlertDelivery`, `NotificationModel`, `NotificationTheorems`,
   `NotificationService`, `Feed`). Committed movements feed the threshold listener, whose dispatches are resolved, deduplicated and
   stored; recipients read and remove them. Upward crossings minus alerts always tell the state of the row,
   every manager who has not read or removed anything since a crossing has exactly one unread alert for the
   row, and paging partitions the feed.
3. **The category tree** (`ParentGraph`, `CategoryTree`, `BuildTree`, `CategoryLife`). `buildTree` works on
   mutable nodes and arbitrary parent pointers, cycles included. It is shown to build exactly the forest of
   the categories whose parent chain ends, and the tree is shown to be complete exactly as long as no
   category is moved into its own subtree.
4. **The cache** (`CacheKeys`, `CacheService`, `CacheStaleness`, `CatalogCache`, `CatalogService`). With
   concurrency and failures, staleness is bounded, and the steps that keep the cache exact are told apart
   exactly from those that do not; in serial runs without lost deletions the cache always agrees with the
   database, so the services refine the cacheless operations of `CatalogDb`.
5. **Catalogue integrity** (`CatalogDb`, `CatalogIntegrity`, `CatalogRuns`, `CatalogHistory`): what creations,
   updates and soft deletions of categories, products and variants keep over every run, by which guards they
   are refused, and that every column of every row holds what the last accepted command gave it.
6. **Slugs** (`Slug`): the six string passes compute the hyphen-joined words of the text.

Code that changes state is modelled by classes and loops (`InventoryService.Service`,
`NotificationService.Inbox`, `BuildTree`, `CacheService.Cache`, `CatalogService.Catalog`,
`Retry.RetryWithBackoff`), each proved against a specification function; the theorems are about those
functions.

## Assumptions

- `save` compares the version of an entity that was read with the row and raises the version mismatch
  otherwise; an insert fails when the pair of variant and warehouse is taken. No code of the repository does
  this comparison: it is delegated to the ORM by the version column, and
  `docs/M6_Inventory_Stock_Management.md:218` promises it. `StockLimits.VersionCheckIsNeeded` shows that
  without it the same service code hands units out twice.
- The save of an attempt and its commit are one step; a failed attempt's transaction leaves no trace. Stock
  rows are never deleted.
- The query for the category tree loads each category's parent identifier. It names no relations
  (`src/category/category.service.ts:155-161`), and whether the ORM fills in `parent` then is not part of
  this model: the tree is built from the declared parents of the rows, and every result about the tree a
  tenant is served rests on that.
- The audit context is present, so recording an audit entry does not fail.
- Identifiers are generated: new, not empty, and (for tenants and variants) without colons or glob characters.
- Unique constraints are those of the entity files: (tenant, name) and (tenant, slug) of categories and
  (tenant, sku) of variants also cover soft-deleted rows; products have none. A violation of either category
  constraint is answered with the slug message, as in the code.
- Unicode lower-casing and decomposition, the digest of list queries, the list queries themselves, the order
  by name, the order of notification identifiers and the replies of SCAN are parameters, constrained only where a theorem says so.
  `CatalogCache.AssumptionsCanBeMet` shows that these constraints are consistent.
- SCAN returns matching keys only, and returns at least once every matching key that is there throughout.

The architecture blueprint speaks of a cache lifetime of one hour; the code uses 300 and 1800 seconds, and
the model follows the code.

## Model

| member | source | states |
|---|---|---|
| Retry.RetryWithBackoff | src/common/utils/retry.util.ts:8-37 | The loop makes between 1 and `maxAttempts` calls, all but the last failed retryably, and returns or throws what the last one did; with no attempt allowed it raises its own error; it sleeps exactly the sum of draw times cap over its pauses, at most the worst case |
| Retry.Jitter | src/common/utils/retry.util.ts:27-28 | Full jitter is the draw times the cap, between zero and the cap |
| Retry.TimesIsTheProduct | src/common/utils/retry.util.ts:28 | The share used in the sums, defined by repeated addition, is the product |
| Retry.DrawsApproachTheWorstCase | src/common/utils/retry.util.ts:24-30 | Draws of at least f sleep at least f times the worst case, so the worst case is approached |
| Retry.WorstDelayClosedForm | src/common/utils/retry.util.ts:24-28 | The worst total sleep equals base·(2^k−1) + (calls−1−k)·max, where k counts the pauses still doubling |
| Retry.DoublingPauses | src/common/utils/retry.util.ts:24-25 | k is exactly the number of pauses that the cap does not cut |
| StockModel.StockRequestsWaitAtMost650Ms | src/inventory/inventory.service.ts:64-70 | With the inventory options no request sleeps longer than 650 ms, and the bound is reached by five calls |
| StockModel.StockRequestsPause | src/inventory/inventory.service.ts:64-70 | A request that makes all five calls sleeps its four draws times 50, 100, 200 and 300 ms |
| StockModel.ExecuteAlone | src/inventory/inventory.service.ts:72-379 | Run alone, an operation succeeds exactly when the row is its tenant's (or replenish may create it) and holds the quantity, moves both columns by exactly its amounts, starts new rows at threshold 20, bumps the version by one, reports exactly that, and otherwise names the right refusal |
| StockModel.SaveActsAlone | src/inventory/inventory.service.ts:102-107 | A save that passes the version check does what the whole operation would do alone at that moment |
| StockHistory.Ledger | src/inventory/inventory.service.ts:97-109 | After any serial history both columns equal the initial ones plus and minus what each kind of operation moved, and the version counts the commits |
| StockHistory.StaysNonNegative | src/inventory/inventory.service.ts:291-304 | No column of any row ever becomes negative |
| StockHistory.SaveSucceedsExactlyWhenQuiet | src/inventory/entities/stock-level.entity.ts:57 | The version check accepts an entity exactly when no commit touched its row since it was read |
| StockHistory.MovementsChain | src/inventory/inventory.service.ts:244-261 | In version order each movement of a row starts where the one before it ended, and versions rise one by one |
| StockHistory.FirstMovementStartsAtTheInitialLevels | src/inventory/inventory.service.ts:203-211 | The first movement of a row starts at its initial levels, which are zero for a row that replenish creates |
| StockHistory.LastMovementEndsAtTheCurrentLevels | src/inventory/inventory.service.ts:244-261 | The last movement of a row ends at its current levels and version |
| StockMachine.StepKeepsInv | src/inventory/inventory.service.ts:79-125 | Every step of every client keeps the invariant that ties table, log, clients and events together |
| StockMachine.MismatchMeansOvertaken | src/inventory/inventory.service.ts:68-69 | A version mismatch means that another client committed to the row between this read and this save |
| StockTheorems.Serialisability | src/inventory/inventory.service.ts:72-131 | For any clients and any schedule the table is the sequential execution of exactly the committed requests in commit order, each at most once, and every version counts its commits |
| StockTheorems.RefusalsAreSerial | src/inventory/inventory.service.ts:93-99 | A request refused for want of a row or of stock would be refused alone at some point of the same history |
| StockTheorems.LookupsAreExact | src/inventory/inventory.service.ts:72-77 | In every run, a deduction or replenishment whose variant or warehouse its tenant does not have does nothing but fail with that error, never commits and never publishes; no other request, and no reservation or release, ever fails so |
| StockTheorems.EventsCarryTheSku | src/inventory/inventory.service.ts:110-123 | Events of deductions and replenishments carry the SKU of the tenant's variant, the others none |
| StockRaces.InsertCanFailExactlyWhen | src/inventory/entities/stock-level.entity.ts:18 | For every initial state, a replenishment can fail on its insert exactly when the row is there and another tenant's, or is not there and another request may create it |
| StockRaces.InsertCanFailNeedlesslyExactlyWhen | src/inventory/inventory.service.ts:185-215 | It can fail where alone it would succeed exactly when the row does not exist and another request replenishes the same pair for the same tenant |
| StockTheorems.ConservationAndNoOversell | src/inventory/inventory.service.ts:243-246 | In every reachable state no column is negative, and available plus reserved equals the initial sum plus committed replenishments minus committed deductions |
| StockTheorems.UnitDeductionsNeverOversell | src/inventory/inventory.service.ts:97-104 | Of any number of concurrent unit deductions at most as many commit as there are units, and exactly that many once one is refused for want of stock |
| StockTheorems.GivingUpNeedsFiveOvertakings | src/inventory/inventory.service.ts:64-70 | A request gives up with a mismatch only if each of its five successive windows was overtaken by a commit on its row |
| StockTheorems.FiveRequestsAllGetThrough | src/inventory/inventory.service.ts:64-70 | With at most five requests on a row none ever gives up with a mismatch |
| StockLimits.SixRequestsCanStarveOne | src/inventory/inventory.service.ts:64-70 | The bound is exact: with six requests one can give up although stock is left |
| StockLimits.VersionCheckIsNeeded | src/inventory/inventory.service.ts:107 | Of two deductions that read the same row only the first save passes; written blindly, both pass and the units leave only once |
| StockTheorems.RequestsFollowTheRetryContract | src/common/utils/retry.util.ts:12-37 | In any interleaving, the outcomes of a settled request's attempts on the tables their reads and saves met satisfy the contract of the retry loop, and the last one is its answer |
| StockTheorems.SubmitGivesTheSameAnswer | src/inventory/inventory.service.ts:79-130 | Among the same others, the contract of the service's whole request admits only the number of calls and the answer that the machine gave |
| StockTheorems.FaithfulEvents | src/inventory/inventory.service.ts:126-130 | Exactly the requests that returned have published, each once, the movement of their committed attempt and of no abandoned one |
| InventoryService.Service.FindOrCreate | src/inventory/inventory.service.ts:185-215 | The entity is the tenant's row, or a new one with zero levels and threshold 20 |
| InventoryService.Service.DeductAttempt | src/inventory/inventory.service.ts:79-125 | The in-place attempt has the outcome and the effect of the specification, whatever table its save meets |
| InventoryService.Service.ReplenishAttempt | src/inventory/inventory.service.ts:229-264 | The same for replenish, which may insert the row |
| InventoryService.Service.ReserveAttempt | src/inventory/inventory.service.ts:277-319 | The same for reserve, which moves units from available to reserved |
| InventoryService.Service.ReleaseAttempt | src/inventory/inventory.service.ts:330-373 | The same for release, which moves them back |
| InventoryService.Service.PublishStockMovement | src/inventory/inventory.service.ts:381-391 | One audit entry with the levels before and after, and one event |
| StockModel.AbandonedAttemptsLeaveNoTrace | src/inventory/inventory.service.ts:79-125 | Under the retry contract every attempt but a successful last one leaves the table as the others made it |
| StockModel.AttemptsStoreTheirMovement | src/inventory/inventory.service.ts:104-123 | A successful attempt stores the levels its movement reports in that one row, under the next version; a refused one changes nothing |
| InventoryService.Service.RunAttempts | src/inventory/inventory.service.ts:77-125 | The attempts run on the table the last one left and others changed meanwhile; the closure variable holds the movement of the committed one |
| InventoryService.Service.Submit | src/inventory/inventory.service.ts:72-131 | Refused without any change when the variant or the warehouse of a deduction or replenishment is not the tenant's, and never for that reason otherwise; the calls obey the retry contract, abandoned attempts leave no trace in the table, a successful last one stores its movement, and one audit entry and one movement are added then, nothing on failure |
| StockAlerts.CrossingsBalance | src/notifications/stock-movement-notification.listener.ts:18-27 | Over any history of a row, recoveries minus alerts tell whether it is above its threshold now, compared with the start |
| StockAlerts.HandleStockMovement | src/notifications/stock-movement-notification.listener.ts:18-25 | An alert is raised exactly when the available stock was above the threshold and is no longer |
| StockAlerts.AlertsAlternate | src/notifications/stock-movement-notification.listener.ts:18-27 | Between two alerts of a row, in version order, lies a recovery above the threshold |
| StockAlerts.CrossingCount | src/notifications/stock-movement-notification.listener.ts:18-43 | For every run and every order of event delivery, recoveries minus alerts seen minus alerts pending equal 1 above the threshold and 0 otherwise, for rows that replenish created |
| StockAlerts.CrossingReachesTheManagers | src/notifications/stock-movement-notification.listener.ts:29-44 | After a downward crossing every active warehouse manager and tenant admin of the tenant has an unread alert for that row, new ones go to them only and carry the stock and threshold of the movement, and nobody gets a second one |
| AlertDelivery.CrossingsReachTheInboxes | src/notifications/stock-movement-notification.listener.ts:17-45 | For every run of the stock machine whose events are delivered in order among any inbox operations, each committed and returned crossing was delivered, and every manager active then who has read or removed nothing since has exactly one unread alert for the row |
| StockAlerts.DedupKeysAreInjective | src/notifications/stock-movement-notification.listener.ts:43 | Alerts of different variants or warehouses never share a deduplication key |
| NotificationService.Dispatch | src/notifications/notification.service.ts:39-71 | A dispatch is rejected exactly without a tenant, dropped only when it could reach nobody, and otherwise emitted unchanged |
| NotificationModel.RecipientsAreExact | src/notifications/notification.listener.ts:61-82 | The recipients are exactly the explicit ones and the active users of the roles in the tenant, each once |
| NotificationService.Inbox.ResolveRecipients | src/notifications/notification.listener.ts:61-82 | The loop over a set that remembers insertion order computes those recipients |
| NotificationModel.NotYetNotifiedIsExact | src/notifications/notification.listener.ts:84-108 | Deduplication leaves exactly the recipients without an unread notification of the alert |
| NotificationService.Inbox.FilterDeduplicated | src/notifications/notification.listener.ts:84-108 | The query and the set filter compute that list, in order |
| NotificationService.Inbox.HandleDispatch | src/notifications/notification.listener.ts:23-59 | Handling appends one unread row with the dispatch's content and the current time for exactly the recipients who lack the alert, or nothing at all when the database fails, and never makes a duplicate |
| NotificationTheorems.RunsKeepNoDuplicates | src/notifications/notification.listener.ts:24-108 | In every serial run there is at most one unread, undeleted notification per tenant, recipient, type and non-empty deduplication key |
| NotificationTheorems.DispatchStoresOneRowEach | src/notifications/notification.listener.ts:23-59 | A dispatch changes no stored row and appends one, saying what it said, from the moment of handling and unread, for exactly the recipients who do not have the alert unread; without a key for all of them |
| NotificationTheorems.EveryRecipientIsNotified | src/notifications/notification.listener.ts:24-52 | After a dispatch with a key every recipient has the alert unread |
| NotificationTheorems.NotifiedUntilReadOrRemoved | src/notifications/notification.service.ts:98-160 | Over any run it stays so until that recipient reads or removes something |
| NotificationTheorems.NobodyElseIsNotified | src/notifications/notification.listener.ts:40-52 | A dispatch stores nothing for others or for those who still have the alert unread |
| NotificationTheorems.UnreadAccounting | src/notifications/notification.service.ts:92-160 | Over any run a recipient's unread count equals the initial one plus saved minus read minus removed while unread |
| NotificationTheorems.UnreadCountIsExact | src/notifications/notification.service.ts:92-96 | The count is the number of the recipient's rows that are neither read nor removed |
| NotificationTheorems.MarkAllClearsTheRecipient | src/notifications/notification.service.ts:130-144 | Marking all read clears the count of that recipient and changes no other count |
| NotificationTheorems.OtherInboxesAreUntouched | src/notifications/notification.service.ts:98-160 | No operation changes another recipient's rows, loses a row, or undoes a read or a removal |
| NotificationService.Inbox.MarkRead | src/notifications/notification.service.ts:98-128 | Succeeds exactly for the recipient's undeleted notification, read or not, and marks that one row |
| NotificationService.Inbox.MarkAllRead | src/notifications/notification.service.ts:130-144 | Marks exactly the recipient's unread rows, one by one; the number it counts is how many there were, and none is left |
| NotificationService.Inbox.Remove | src/notifications/notification.service.ts:146-160 | Removes exactly the recipient's notification, also one that is removed already, and changes nothing else |
| NotificationService.Inbox.GetUnreadCount | src/notifications/notification.service.ts:92-96 | The count query on the feed gives the number of unread rows |
| NotificationService.Inbox.FindFeed | src/notifications/notification.service.ts:73-90 | With page p (1 if omitted) and limit l (20 if omitted) answers positions (p−1)·l up to p·l of the ordered feed, with its counts, number of pages and links; refuses exactly an inverted date range |
| Feed.AnswersThePageAskedFor | src/notifications/notification.service.ts:214-242 | The answer to every query is that page, stated from its page and limit |
| Feed.WalkGathersTheFeed | src/notifications/notification.service.ts:234-239 | A client that asks along `next` receives the whole feed, each row once, in order |
| Feed.FeedIsOrderedAndExact | src/notifications/notification.service.ts:162-199 | However the generated identifiers compare, the feed holds exactly the recipient's rows that are not removed and pass each filter, each once, newest first and by descending identifier among equals |
| Feed.PagesAreContiguous | src/notifications/notification.service.ts:85-87 | Each page starts where the one before it ended |
| Feed.OnlyTheLastPageIsShort | src/notifications/notification.service.ts:219-232 | Every page but the last is full, the last holds the rest, later ones nothing, and the counts say so |
| Feed.PreviousUndoesNext | src/notifications/notification.service.ts:234-239 | `previous` leads back to exactly the page whose `next` leads there |
| Feed.TotalPages | src/notifications/notification.service.ts:221 | The number of pages is at least one and the smallest that holds all items |
| Feed.PagesPartitionTheFeed | src/notifications/notification.service.ts:214-242 | Following `next` from `first` visits pages 1 to totalPages, ends at `last`, and gathers the whole feed, each row once |
| BuildTree.IndexNodes | src/category/category.service.ts:338-346 | The first loop makes one fresh node per identifier, holding the last category stored under it |
| BuildTree.Attach | src/category/category.service.ts:350-362 | One round hangs the node below its parent, at the top, or nowhere, and leaves all other links alone |
| BuildTree.Build | src/category/category.service.ts:338-365 | Over the heap, for any list, every node's children are the nodes that declare it, in input order; for unique identifiers the roots mirror the forest |
| BuildTree.NodesMirrorWholeTrees | src/category/category.service.ts:350-362 | What is reachable from a node is laid out exactly as its tree |
| BuildTree.BuildAndSerialise | src/category/category.service.ts:169-172 | Writing the tree out ends although the heap may hold cycles, and yields the forest |
| CategoryTree.ForestIsExact | src/category/category.service.ts:338-365 | For unique identifiers and any parent pointers, the forest holds each category whose chain reaches a parentless listed one exactly once and no other; roots and siblings keep the input order; below every node are all its children |
| CategoryTree.SelectionsKeepTheOrder | src/category/category.service.ts:350-362 | Roots and siblings are selected in input order, and an empty parent counts as none |
| ParentGraph.DepthIsBounded | src/category/category.service.ts:350-362 | A parent chain that ends is shorter than the number of categories |
| ParentGraph.MoveKeepsAllGroundedExactlyWhenNotBelow | src/category/category.service.ts:226-237 | A new parent keeps a cycle-free graph cycle-free exactly when it is neither the category itself nor below it |
| CategoryLife.ExecuteKeepsCycleFreeExactly | src/category/category.service.ts:202-287 | An operation keeps the hierarchy cycle-free exactly when it does not ask to move a live category below one of its own descendants under a free name and slug; the code refuses only the category itself |
| CategoryLife.MovesIntoItselfAreAccepted | src/category/category.service.ts:224-240 | Those guards are exact: such an update is accepted, and every accepted one that closes a cycle passes them |
| CategoryLife.RunKeepsCycleFree | src/category/category.service.ts:35-287 | Runs without such a move stay cycle-free |
| CategoryLife.TreeShowsTheGrounded | src/category/category.service.ts:148-173 | The tree of a tenant shows a category, then once, exactly when its chain of live parents ends |
| CategoryLife.TreeIsComplete | src/category/category.service.ts:148-173 | After any run without such a move the tree lists every live category exactly once and nothing else |
| CatalogCache.ServedTreeIsComplete | src/category/category.service.ts:148-173 | The tree a tenant is served after such a run, cached or not, shows every live category once and nothing else; not found means there is none |
| CategoryLife.MovedIntoItselfVanishes | src/category/category.service.ts:227-233 | After such a move the category and its new parent are live and missing from the tree |
| CategoryLife.RootMovedBelowItsChild | src/category/category.service.ts:227-233 | Such a move is accepted: a root below its own child |
| CacheKeys.PatternsMatchExactlyTheirFamily | src/common/constants/cache.constants.ts:16-36 | The invalidation patterns match exactly the list and tree keys of their tenant and family |
| CacheKeys.PrefixPattern | src/common/constants/cache.constants.ts:25 | A plain text with a final star matches exactly the texts that start with it |
| CacheKeys.TextsAreInjective | src/common/constants/cache.constants.ts:16-36 | Different keys have different texts, across families and tenants, if digests do not collide |
| CacheKeys.TextsAreAsStored | src/common/constants/cache.constants.ts:16-36 | The texts of all keys and patterns |
| CacheKeys.FamiliesAreDisjoint | src/common/constants/cache.constants.ts:16-36 | The family of a key can be read off its text |
| CacheService.Cache.Get | src/common/services/cache.service.ts:26-39 | A value is returned exactly when the call succeeds, the key is there, unexpired and valid JSON |
| CacheService.Cache.Set | src/common/services/cache.service.ts:14-24 | Stores the value with its expiry, or nothing |
| CacheService.Cache.Del | src/common/services/cache.service.ts:56-62 | Removes the key, or nothing |
| CacheService.Cache.DelByPattern | src/common/services/cache.service.ts:64-88 | The scan loop ends, touches no key that does not match even if it breaks off, and otherwise leaves only matching keys that somebody else wrote meanwhile |
| CacheStaleness.BoundedStaleness | src/common/constants/cache.constants.ts:3-8 | Under any interleaving and any failures, a value the cache returns was the database's answer later than now minus 1800 s for categories, their lists and trees, or 300 s for products and their lists, minus its reader's gap between query and set |
| CacheStaleness.LifetimeIsExact | src/common/services/cache.service.ts:14-24 | What is stored is returned for exactly 1800 or 300 seconds and then no more |
| CacheStaleness.InvalidationCanBeUndone | src/catalog/product/product.service.ts:148-173 | The bound is reached: a reader can put the old answer back after a successful deletion, until it expires |
| CacheStaleness.StepKeepsCoherenceExactly | src/common/services/cache.service.ts:14-88 | From a coherent cache a write keeps coherence exactly when it changes no stored key's answer, a set exactly when it stores the current answer, and everything else always |
| CacheStaleness.CoherentBetweenWrites | src/catalog/product/product.service.ts:211-227 | In any interleaving in which no reader stores an answer that a write overtook, every value returned for a key deleted since the last write that changed its answer is the current one; without outdated keys the cache is coherent |
| CatalogCache.CategoryInvalidationSuffices | src/category/category.service.ts:252-253 | After a category write, deleting its key and its tenant's collections leaves every cached answer equal to a fresh query |
| CatalogCache.ProductInvalidationSuffices | src/catalog/product/product.service.ts:225-226 | The same for a product write |
| CatalogCache.OtherAnswersSurviveCategoryWrites | src/category/category.service.ts:289-292 | A category write changes no answer but that of its own key and of its tenant's category collections |
| CatalogCache.OtherAnswersSurviveProductWrites | src/catalog/product/product.service.ts:225-226 | A product write changes no answer but that of its own key and of its tenant's product lists |
| CatalogCache.AssumptionsCanBeMet | src/common/services/cache.service.ts:69-81 | What is assumed of digest, ordering and SCAN is consistent |
| CatalogService.Catalog.Cached | src/common/services/cache.service.ts:26-39 | A hit is what the query would return now |
| CatalogService.Catalog.Remember | src/common/services/cache.service.ts:14-24 | A working set stores the value to expire 1800 s later for categories, their lists and trees, 300 s later for products and their lists, and keeps coherence |
| CatalogService.Catalog.FindOneCategory | src/category/category.service.ts:175-200 | Reading through the cache answers as the database, stores the answer exactly on a miss, and keeps coherence and integrity |
| CatalogService.Catalog.FindAllCategories | src/category/category.service.ts:76-146 | The same for category lists |
| CatalogService.Catalog.FindCategoryTree | src/category/category.service.ts:148-173 | The same for the tree, built on the heap from the live rows |
| CatalogService.Catalog.CreateCategory | src/category/category.service.ts:35-74 | Refines the cacheless creation, keeps coherence and integrity, and removes the tenant's category and product collections from the cache and nothing else |
| CatalogService.Catalog.UpdateCategory | src/category/category.service.ts:202-263 | Refines the cacheless update although it edits the cached entity; an accepted one removes its key and both collections from the cache, and nothing else is ever removed |
| CatalogService.Catalog.RemoveCategory | src/category/category.service.ts:265-287 | Refines the cacheless soft removal, with the same invalidation |
| CatalogService.Catalog.InvalidateCollections | src/category/category.service.ts:289-292 | Afterwards no key of the tenant's category and product collections is left, nothing was added, and every other key is still there |
| CatalogService.Catalog.FindOneProduct | src/catalog/product/product.service.ts:148-173 | Reading a product through the cache answers as the database and stores the answer exactly on a miss |
| CatalogService.Catalog.FindAllProducts | src/catalog/product/product.service.ts:72-146 | The same for product lists |
| CatalogService.Catalog.CreateProduct | src/catalog/product/product.service.ts:32-70 | Refines the cacheless creation, which removes the product lists from the cache only |
| CatalogService.Catalog.UpdateProduct | src/catalog/product/product.service.ts:175-236 | Refines the cacheless update; an accepted one removes its key and the product lists from the cache, and nothing else is ever removed |
| CatalogService.Catalog.RemoveProduct | src/catalog/product/product.service.ts:238-271 | Refines the cacheless soft removal, with the same invalidation |
| CatalogService.Catalog.CreateVariant | src/catalog/variant/variant.service.ts:29-76 | Refines the variant creation; no cached answer depends on variants |
| CatalogService.Catalog.UpdateVariant | src/catalog/variant/variant.service.ts:200-240 | Refines the variant update |
| CatalogService.Catalog.RemoveVariant | src/catalog/variant/variant.service.ts:242-256 | Refines the variant soft removal |
| CatalogIntegrity.RunKeepsIntegrity | src/catalog/product/product.service.ts:32-70 | In every serial run live categories have live parents of their tenant other than themselves, names and slugs are unique and normal, live variants have live products of their tenant, live prefixes and all SKUs are unique per tenant |
| CatalogIntegrity.RunEvolves | src/catalog/product/product.service.ts:188-192 | Over every run no row disappears, a product keeps its prefix and tenant, a variant its product, and a deletion is final |
| CatalogIntegrity.UpdateCategoryKeeps | src/category/category.service.ts:202-263 | An update keeps all of that |
| CatalogIntegrity.RemoveCategoryKeeps | src/category/category.service.ts:265-279 | The child check is what keeps parents live |
| CatalogIntegrity.RemoveProductKeeps | src/catalog/product/product.service.ts:238-257 | The variant check is what keeps products of live variants live |
| CatalogRuns.ReadsAnswerTheLastWrite | src/category/category.service.ts:175-287 | After any serial run every read of a category, product or variant answers what the last accepted write of it replied, not found after a removal, and what it was at the start without one |
| CatalogRuns.RefusedCommandsLeaveNoTrace | src/category/category.service.ts:35-287 | Refused commands can be deleted from a run: the others are still all accepted and leave the same database |
| CatalogHistory.RefusalsAreExact | src/catalog/product/product.service.ts:175-198 | Every command on categories, products and variants is refused exactly by its guards on the rows, in their order and with their error, and then changes nothing; otherwise it is accepted |
| CatalogHistory.ColumnsHoldTheLastGivenValue | src/catalog/product/product.service.ts:194-209 | After any run every column of every category, product and variant is what the last accepted command gave it, counting the creation: names, slugs from the given slug or else the given name, parents, descriptions, categories, flags, prices, attributes and deletions |
| Slug.SlugIsTheJoinedWords | src/common/utils/slug.util.ts:1-10 | The six passes compute the hyphen-joined words of the lowered, decomposed text |
| Slug.SlugNormalForm | src/common/utils/slug.util.ts:1-10 | The result is empty or words of `a-z0-9` joined by single hyphens, and without hyphens it is exactly the letters and digits of the text in order |
| Slug.ClassesByCodePoint | src/common/utils/slug.util.ts:5-7 | The character classes of the patterns, by code point |
| Slug.SlugIsIdempotent | src/common/utils/slug.util.ts:1-10 | A slug of a slug is that slug |
| Slug.WordsOfJoin | src/common/utils/slug.util.ts:1-10 | Splitting a slug gives back its words |

## Left out

- Coherence of what is embedded in cached entities (a product's variants and category, a category's parent and children): the invalidation code does not maintain it, so cached entities agree with their row's own columns only. Saving loaded `children` or `variants` relations is not modelled.
- A live product may keep a removed category: removing a category looks at its children only, so no integrity is claimed for that reference.
- Concurrent handlers of dispatches: the deduplication query and the save are separate steps without a unique index, so uniqueness of unread notifications is claimed for handlers that run one after another.
- Concurrent catalogue writes: an update saves the entity it read, possibly from the cache, so integrity, refinement and coherence are claimed for operations that run one after another; only staleness is treated under concurrency.
- Failing deletions in the coherence results: a lost deletion is covered by bounded staleness only. Reads and sets may fail there too.
- Failure of the audit service, which in the original can turn a committed write into an error before the cache is invalidated.
- List queries are arbitrary functions of a tenant's own rows and the query text: filters, search ranking, the mix of `limit` and `skip` in category listing and the unvalidated `sortBy` of inventory listing are not modelled. Links of these pages repeat those of the notification feed.
- Glob brackets and escapes, collisions of query digests, JSON round trips of dates, overflow of 32-bit columns and the Unicode tables.
- The sentence of an alert is kept as the values it mentions, and a notification is named by its position in the table.
- Reads of variants, which filter rows as the other reads do; `ttl` of the cache service; caching of users.
- Controllers, request validation, guards, authentication, media storage, and the suppliers, warehouses, tenants, settings and audit records, which repeat the same patterns. The lower bounds of request bodies (quantity, page and limit at least 1) are types of the model.
