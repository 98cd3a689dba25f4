/** Stock rows, the four stock operations, and what one attempt of each reads and writes. */
module StockModel {
  import opened Common
  import Retry

  /** A row is found by variant and warehouse; that pair is unique in the table, across tenants. */
  datatype Key = Key(variant: Id, warehouse: Id)

  datatype Levels = Levels(available: int, reserved: int)

  datatype Row = Row(id: nat, tenant: Id, levels: Levels, threshold: int, version: nat)

  type Table = map<Key, Row>

  datatype Kind = Deduct | Replenish | Reserve | Release

  /** The request bodies accept integers from 1 upwards. */
  type Quantity = q: int | q >= 1 witness 1

  datatype Request = Request(tenant: Id, kind: Kind, key: Key, quantity: Quantity)

  /** The variants (with their SKU) and warehouses of each tenant, as the catalogue services see them. */
  datatype Directory = Directory(variants: map<(Id, Id), string>, warehouses: set<(Id, Id)>)

  datatype StockError =
    | UnknownVariantOrWarehouse
    | NoStockLevel
    | InsufficientAvailable
    | InsufficientReserved
    | DuplicateRow
    | VersionMismatch

  /** The event a committed operation publishes. */
  datatype Movement = Movement(
    tenant: Id,
    stockLevelId: nat,
    key: Key,
    sku: Option<string>,
    before: Levels,
    after: Levels,
    threshold: int)

  const MAX_ATTEMPTS: nat := 5
  const DEFAULT_SAFETY_THRESHOLD: int := 20
  const FIRST_VERSION: nat := 1

  function RetryOptions(): Retry.Options<StockError> {
    Retry.Options(MAX_ATTEMPTS, 50, 300, (error: StockError) => error.VersionMismatch?)
  }

  /** No stock request sleeps longer than 650 ms in all, and one that makes all five calls may come that close. */
  lemma StockRequestsWaitAtMost650Ms(fn: nat -> Retry.Attempt<Movement, StockError>, calls: nat)
    requires Retry.Contract(fn, RetryOptions(), calls)
    ensures
      var options := RetryOptions();
      var worst := Retry.WorstDelay(options.baseDelayMs, options.maxDelayMs, calls);
      worst <= 650 && (calls == MAX_ATTEMPTS ==> worst == 650)
  {
    assert Retry.Pow2(3) == 8;
    Retry.WorstDelayClosedForm(50, 300, calls);
  }

  /** The four pauses of a request that makes all five calls. */
  lemma StockRequestsPause(random: nat -> real)
    ensures
      var options := RetryOptions();
      && options.maxAttempts == 5
      && Retry.TotalPause(random, options.baseDelayMs, options.maxDelayMs, 5)
         == random(1) * 50.0 + random(2) * 100.0 + random(3) * 200.0 + random(4) * 300.0
  {
    assert Retry.Pow2(0) == 1 && Retry.Pow2(1) == 2 && Retry.Pow2(2) == 4 && Retry.Pow2(3) == 8;
    Retry.TimesIsTheProduct(random(1), 50);
    Retry.TimesIsTheProduct(random(2), 100);
    Retry.TimesIsTheProduct(random(3), 200);
    Retry.TimesIsTheProduct(random(4), 300);
    assert Retry.TotalPause(random, 50, 300, 2) == Retry.Times(random(1), 50);
    assert Retry.TotalPause(random, 50, 300, 3) == Retry.TotalPause(random, 50, 300, 2) + Retry.Times(random(2), 100);
    assert Retry.TotalPause(random, 50, 300, 4) == Retry.TotalPause(random, 50, 300, 3) + Retry.Times(random(3), 200);
    assert Retry.TotalPause(random, 50, 300, 5) == Retry.TotalPause(random, 50, 300, 4) + Retry.Times(random(4), 300);
  }

  // ---------------------------------------------------------------------------------------------
  // One attempt: a read step that loads the row and edits it in memory, then a save step.
  // ---------------------------------------------------------------------------------------------

  /** Deduct and replenish look the variant and the warehouse up first; reserve and release do not. */
  predicate LooksUpCatalogue(kind: Kind) {
    kind.Deduct? || kind.Replenish?
  }

  predicate Validates(dir: Directory, req: Request) {
    LooksUpCatalogue(req.kind) ==>
      (req.tenant, req.key.variant) in dir.variants && (req.tenant, req.key.warehouse) in dir.warehouses
  }

  /** Only the operations that loaded the variant know its SKU. */
  function SkuOf(dir: Directory, req: Request): Option<string> {
    if LooksUpCatalogue(req.kind) && (req.tenant, req.key.variant) in dir.variants then
      Some(dir.variants[(req.tenant, req.key.variant)])
    else
      None
  }

  function FindOne(table: Table, tenant: Id, key: Key): Option<Row> {
    if key in table && table[key].tenant == tenant then Some(table[key]) else None
  }

  /**
   * The entity an attempt holds between its read and its save: the row it read, or `None` when
   * `findOrCreate` built a new entity, and the edited levels.
   */
  datatype Draft = Draft(loaded: Option<Row>, before: Levels, after: Levels, threshold: int)

  datatype Loaded = Refused(error: StockError) | Drafted(draft: Draft)

  function Edit(row: Row, available: int, reserved: int): Loaded {
    Drafted(Draft(Some(row), row.levels, Levels(available, reserved), row.threshold))
  }

  /** The body of each operation up to its save. */
  function Prepare(req: Request, found: Option<Row>): Loaded {
    match req.kind
    case Replenish =>
      (match found
       case None =>
         Drafted(Draft(None, Levels(0, 0), Levels(req.quantity, 0), DEFAULT_SAFETY_THRESHOLD))
       case Some(row) =>
         Edit(row, row.levels.available + req.quantity, row.levels.reserved))
    case Deduct =>
      (match found
       case None => Refused(NoStockLevel)
       case Some(row) =>
         if row.levels.available < req.quantity then Refused(InsufficientAvailable)
         else Edit(row, row.levels.available - req.quantity, row.levels.reserved))
    case Reserve =>
      (match found
       case None => Refused(NoStockLevel)
       case Some(row) =>
         if row.levels.available < req.quantity then Refused(InsufficientAvailable)
         else Edit(row, row.levels.available - req.quantity, row.levels.reserved + req.quantity))
    case Release =>
      (match found
       case None => Refused(NoStockLevel)
       case Some(row) =>
         if row.levels.reserved < req.quantity then Refused(InsufficientReserved)
         else Edit(row, row.levels.available + req.quantity, row.levels.reserved - req.quantity))
  }

  function Load(req: Request, table: Table): Loaded {
    Prepare(req, FindOne(table, req.tenant, req.key))
  }

  datatype Saved = Rejected(error: StockError) | Stored(row: Row)

  /**
   * The assumed contract of `save`, which the repository delegates to the ORM and the database.
   * An entity that was read is compared with the row's version and bumps it; an entity that was
   * created is inserted unless its (variant, warehouse) pair is taken.  Rows are never deleted, so
   * the table size serves as the next identifier.
   */
  function Save(req: Request, draft: Draft, table: Table): Saved {
    match draft.loaded
    case None =>
      if req.key in table then Rejected(DuplicateRow)
      else Stored(Row(|table|, req.tenant, draft.after, draft.threshold, FIRST_VERSION))
    case Some(row) =>
      if req.key in table && table[req.key].id == row.id && table[req.key].version == row.version then
        Stored(row.(levels := draft.after, version := row.version + 1))
      else
        Rejected(VersionMismatch)
  }

  function MovementOf(dir: Directory, req: Request, draft: Draft, stored: Row): Movement {
    Movement(req.tenant, stored.id, req.key, SkuOf(dir, req), draft.before, draft.after, draft.threshold)
  }

  /** One attempt of a request, by the table its read saw and the table its save met. */
  function AttemptOutcome(dir: Directory, req: Request, atRead: Table, atSave: Table): Retry.Attempt<Movement, StockError> {
    match Load(req, atRead)
    case Refused(error) => Retry.Rejected(error)
    case Drafted(draft) =>
      (match Save(req, draft, atSave)
       case Rejected(error) => Retry.Rejected(error)
       case Stored(row) => Retry.Resolved(MovementOf(dir, req, draft, row)))
  }

  /** What the attempt makes of the table that its save met: its transaction commits or leaves no trace. */
  function TableAfter(req: Request, atRead: Table, atSave: Table): Table {
    match Load(req, atRead)
    case Refused(_) => atSave
    case Drafted(draft) =>
      (match Save(req, draft, atSave)
       case Rejected(_) => atSave
       case Stored(row) => atSave[req.key := row])
  }

  lemma RefusedAttemptsLeaveNoTrace(dir: Directory, req: Request, atRead: Table, atSave: Table)
    ensures AttemptOutcome(dir, req, atRead, atSave).Rejected? ==> TableAfter(req, atRead, atSave) == atSave
  {
  }

  /** The table holds the levels the movement reports, in the one row of the request, under the next version. */
  ghost predicate StoresTheMovement(req: Request, atSave: Table, after: Table, movement: Movement) {
    && after.Keys == atSave.Keys + {req.key}
    && (forall key :: key in atSave && key != req.key ==> after[key] == atSave[key])
    && after[req.key].levels == movement.after
    && after[req.key].version == (if req.key in atSave then atSave[req.key].version else 0) + 1
    && after[req.key].tenant == movement.tenant == req.tenant
    && after[req.key].id == movement.stockLevelId
    && after[req.key].threshold == movement.threshold
  }

  lemma AttemptsStoreTheirMovement(dir: Directory, req: Request, atRead: Table, atSave: Table)
    ensures
      var call := AttemptOutcome(dir, req, atRead, atSave);
      match call
      case Resolved(movement) => StoresTheMovement(req, atSave, TableAfter(req, atRead, atSave), movement)
      case Rejected(error) => TableAfter(req, atRead, atSave) == atSave && error != UnknownVariantOrWarehouse
  {
  }

  // ---------------------------------------------------------------------------------------------
  // The attempts of a request, while others work on the table the last attempt left
  // ---------------------------------------------------------------------------------------------

  /** What others make of the table before an attempt's read, and between its read and its save. */
  datatype Others = Others(beforeRead: Table -> Table, beforeSave: Table -> Table)

  function TableAtRead(req: Request, start: Table, others: nat -> Others, n: nat): Table
    requires n >= 1
    decreases n - 1, 1
  {
    others(n).beforeRead(TableLeft(req, start, others, n - 1))
  }

  function TableAtSave(req: Request, start: Table, others: nat -> Others, n: nat): Table
    requires n >= 1
    decreases n - 1, 2
  {
    others(n).beforeSave(TableAtRead(req, start, others, n))
  }

  /** The table that the n-th attempt leaves. */
  function TableLeft(req: Request, start: Table, others: nat -> Others, n: nat): Table
    decreases n, 0
  {
    if n == 0 then start else TableAfter(req, TableAtRead(req, start, others, n), TableAtSave(req, start, others, n))
  }

  /** How the attempts of a request end, if they are all made. */
  function Attempts(dir: Directory, req: Request, start: Table, others: nat -> Others): nat -> Retry.Attempt<Movement, StockError> {
    (n: nat) =>
      if n == 0 then Retry.Rejected(VersionMismatch)
      else AttemptOutcome(dir, req, TableAtRead(req, start, others, n), TableAtSave(req, start, others, n))
  }

  /** Under the retry contract only the last call can change the table, and it does so only if it succeeds. */
  lemma AbandonedAttemptsLeaveNoTrace(dir: Directory, req: Request, start: Table, others: nat -> Others, calls: nat)
    requires Retry.Contract(Attempts(dir, req, start, others), RetryOptions(), calls)
    ensures forall n :: 1 <= n < calls ==> Attempts(dir, req, start, others)(n).Rejected?
    ensures forall n :: 1 <= n <= calls && (n < calls || Attempts(dir, req, start, others)(calls).Rejected?) ==>
      TableLeft(req, start, others, n) == TableAtSave(req, start, others, n)
  {
    var fn := Attempts(dir, req, start, others);
    forall n | 1 <= n <= calls && (n < calls || fn(calls).Rejected?)
      ensures fn(n).Rejected? && TableLeft(req, start, others, n) == TableAtSave(req, start, others, n)
    {
      assert n < calls ==> Retry.Retries(fn(n), RetryOptions());
      RefusedAttemptsLeaveNoTrace(dir, req, TableAtRead(req, start, others, n), TableAtSave(req, start, others, n));
    }
  }

  // ---------------------------------------------------------------------------------------------
  // The reference: one operation run alone, its read and its save with nothing in between.
  // ---------------------------------------------------------------------------------------------

  datatype Executed = Executed(row: Row, movement: Movement)

  /** How an operation moves the two columns of its row. */
  function AvailableDelta(req: Request): int {
    match req.kind
    case Deduct => 0 - req.quantity
    case Replenish => req.quantity
    case Reserve => 0 - req.quantity
    case Release => req.quantity
  }

  function ReservedDelta(req: Request): int {
    match req.kind
    case Deduct => 0
    case Replenish => 0
    case Reserve => req.quantity
    case Release => 0 - req.quantity
  }

  /** The levels a row has before anyone touches it: a missing row counts as empty. */
  function LevelsAt(table: Table, key: Key): Levels {
    if key in table then table[key].levels else Levels(0, 0)
  }

  function VersionAt(table: Table, key: Key): nat {
    if key in table then table[key].version else 0
  }

  function ThresholdAt(table: Table, key: Key): int {
    if key in table then table[key].threshold else DEFAULT_SAFETY_THRESHOLD
  }

  /** The row an operation needs: one of the tenant, except that replenish may create it. */
  predicate Addressable(req: Request, table: Table) {
    if req.key in table then table[req.key].tenant == req.tenant else req.kind.Replenish?
  }

  /** The stock an operation needs before it may run. */
  predicate Covered(req: Request, levels: Levels) {
    match req.kind
    case Replenish => true
    case Deduct => levels.available >= req.quantity
    case Reserve => levels.available >= req.quantity
    case Release => levels.reserved >= req.quantity
  }

  /** What a successful operation leaves in its row. */
  ghost predicate RowAfter(req: Request, table: Table, row: Row) {
    && row.levels.available == LevelsAt(table, req.key).available + AvailableDelta(req)
    && row.levels.reserved == LevelsAt(table, req.key).reserved + ReservedDelta(req)
    && row.version == VersionAt(table, req.key) + 1
    && row.threshold == ThresholdAt(table, req.key)
    && row.tenant == req.tenant
    && row.id == if req.key in table then table[req.key].id else |table|
  }

  /** What a successful operation reports. */
  ghost predicate Reports(dir: Directory, req: Request, table: Table, row: Row, movement: Movement) {
    && movement.before == LevelsAt(table, req.key)
    && movement.after == row.levels
    && movement.stockLevelId == row.id
    && movement.threshold == row.threshold
    && movement.key == req.key
    && movement.tenant == req.tenant
    && movement.sku == SkuOf(dir, req)
  }

  /**
   * Alone, an operation succeeds exactly when its row is reachable and holds enough stock; it then
   * moves both columns by its own amounts, bumps the version by one, and reports exactly that.
   */
  function ExecuteAlone(dir: Directory, req: Request, table: Table): (result: Result<Executed, StockError>)
    ensures result.Ok? <==> Addressable(req, table) && Covered(req, LevelsAt(table, req.key))
    ensures result.Ok? <==>
      && (if req.key in table then table[req.key].tenant == req.tenant else req.kind == Replenish)
      && (req.kind == Deduct || req.kind == Reserve ==> LevelsAt(table, req.key).available >= req.quantity)
      && (req.kind == Release ==> LevelsAt(table, req.key).reserved >= req.quantity)
    ensures result.Ok? ==>
      && result.value.row.levels.available - LevelsAt(table, req.key).available ==
           (if req.kind == Replenish || req.kind == Release then req.quantity else 0 - req.quantity)
      && result.value.row.levels.reserved - LevelsAt(table, req.key).reserved ==
           (if req.kind == Reserve then req.quantity else if req.kind == Release then 0 - req.quantity else 0)
    ensures result.Ok? ==> RowAfter(req, table, result.value.row)
    ensures result.Ok? && req.key !in table ==> req.kind.Replenish? && result.value.row.threshold == 20
    ensures result.Ok? ==> Reports(dir, req, table, result.value.row, result.value.movement)
    ensures result.Err? && !Addressable(req, table) ==>
      result.error == if req.kind.Replenish? then DuplicateRow else NoStockLevel
    ensures result.Err? && Addressable(req, table) ==>
      result.error == if req.kind.Release? then InsufficientReserved else InsufficientAvailable
  {
    match Load(req, table)
    case Refused(error) => Err(error)
    case Drafted(draft) =>
      (match Save(req, draft, table)
       case Rejected(error) => Err(error)
       case Stored(row) => Ok(Executed(row, MovementOf(dir, req, draft, row))))
  }

  // ---------------------------------------------------------------------------------------------
  // Interleaved: the save meets a table that may have moved on since the read.
  // ---------------------------------------------------------------------------------------------

  /** The draft holds a row that the table had, and an unchanged version means an unchanged row. */
  ghost predicate SnapshotOf(req: Request, draft: Draft, table: Table) {
    draft.loaded.Some? ==>
      && req.key in table
      && table[req.key].id == draft.loaded.value.id
      && draft.loaded.value.tenant == req.tenant
      && draft.loaded.value.version <= table[req.key].version
      && (draft.loaded.value.version == table[req.key].version ==> draft.loaded.value == table[req.key])
  }

  /** A save that goes through does what the whole operation would do if it ran alone at that moment. */
  lemma SaveActsAlone(dir: Directory, req: Request, draft: Draft, table: Table)
    requires Prepare(req, draft.loaded) == Drafted(draft)
    requires SnapshotOf(req, draft, table)
    requires Save(req, draft, table).Stored?
    ensures
      var row := Save(req, draft, table).row;
      ExecuteAlone(dir, req, table) == Ok(Executed(row, MovementOf(dir, req, draft, row)))
  {
    assert FindOne(table, req.tenant, req.key) == draft.loaded;
  }
}
