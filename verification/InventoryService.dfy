/**
 * The inventory service as it is written: entities loaded from the table, edited in place, saved, and
 * the movement published after the commit.  What other clients do to the table before a read, and
 * between a read and a save, is a parameter.
 */
module InventoryService {
  import opened Common
  import opened StockModel
  import Retry

  /** An entity in memory; `loaded` is the row the ORM remembers it was read from. */
  class StockLevel {
    const key: Key
    const tenant: Id
    const loaded: Option<Row>
    const safetyThreshold: int
    var availableQuantity: int
    var reservedQuantity: int

    constructor Read(key: Key, row: Row)
      ensures this.key == key && tenant == row.tenant && loaded == Some(row) && safetyThreshold == row.threshold
      ensures Current() == row.levels
    {
      this.key, tenant, loaded, safetyThreshold := key, row.tenant, Some(row), row.threshold;
      availableQuantity, reservedQuantity := row.levels.available, row.levels.reserved;
    }

    constructor Create(key: Key, tenant: Id)
      ensures this.key == key && this.tenant == tenant && loaded == None && safetyThreshold == DEFAULT_SAFETY_THRESHOLD
      ensures Current() == Levels(0, 0)
    {
      this.key, this.tenant, loaded, safetyThreshold := key, tenant, None, DEFAULT_SAFETY_THRESHOLD;
      availableQuantity, reservedQuantity := 0, 0;
    }

    function Current(): Levels
      reads this
    {
      Levels(availableQuantity, reservedQuantity)
    }
  }

  datatype AuditEntry = AuditEntry(stockLevelId: nat, oldValues: Levels, newValues: Levels)

  class Service {
    const dir: Directory
    var table: Table
    var audit: seq<AuditEntry>
    var movements: seq<Movement>

    constructor (dir: Directory, table: Table)
      ensures this.dir == dir && this.table == table && audit == [] && movements == []
    {
      this.dir, this.table, audit, movements := dir, table, [], [];
    }

    method FindEntity(tenant: Id, key: Key) returns (entity: StockLevel?)
      ensures entity == null <==> StockModel.FindOne(table, tenant, key).None?
      ensures entity != null ==>
        && fresh(entity) && entity.key == key && entity.tenant == tenant
        && entity.loaded == StockModel.FindOne(table, tenant, key)
        && entity.Current() == table[key].levels && entity.safetyThreshold == table[key].threshold
    {
      if key in table && table[key].tenant == tenant {
        entity := new StockLevel.Read(key, table[key]);
      } else {
        entity := null;
      }
    }

    method FindOrCreate(tenant: Id, key: Key) returns (entity: StockLevel)
      ensures fresh(entity) && entity.key == key && entity.tenant == tenant
      ensures entity.loaded == StockModel.FindOne(table, tenant, key)
      ensures entity.Current() == if entity.loaded.Some? then entity.loaded.value.levels else Levels(0, 0)
      ensures entity.safetyThreshold ==
        if entity.loaded.Some? then entity.loaded.value.threshold else 20
    {
      var found := FindEntity(tenant, key);
      if found == null {
        entity := new StockLevel.Create(key, tenant);
      } else {
        entity := found;
      }
    }

    /** The assumed contract of the ORM's save, on the entity. */
    method Persist(req: Request, ghost before: Levels, entity: StockLevel) returns (saved: Saved)
      requires entity.key == req.key && entity.tenant == req.tenant
      requires entity.loaded.Some? ==>
        entity.loaded.value.tenant == req.tenant && entity.safetyThreshold == entity.loaded.value.threshold
      modifies this`table
      ensures saved == StockModel.Save(req, Draft(entity.loaded, before, entity.Current(), entity.safetyThreshold), old(table))
      ensures table == if saved.Stored? then old(table)[req.key := saved.row] else old(table)
    {
      if entity.loaded.None? {
        if entity.key in table {
          return Rejected(DuplicateRow);
        }
        var row := Row(|table|, entity.tenant, entity.Current(), entity.safetyThreshold, FIRST_VERSION);
        table := table[entity.key := row];
        return Stored(row);
      }
      var was := entity.loaded.value;
      if entity.key !in table || table[entity.key].id != was.id || table[entity.key].version != was.version {
        return Rejected(VersionMismatch);
      }
      var row := Row(was.id, entity.tenant, entity.Current(), entity.safetyThreshold, was.version + 1);
      table := table[entity.key := row];
      return Stored(row);
    }

    method DeductAttempt(req: Request, others: Table -> Table) returns (result: Retry.Attempt<Movement, StockError>)
      requires req.kind.Deduct?
      modifies this`table
      ensures result == AttemptOutcome(dir, req, old(table), others(old(table)))
      ensures table == TableAfter(req, old(table), others(old(table)))
    {
      var stockLevel := FindEntity(req.tenant, req.key);
      if stockLevel == null {
        table := others(table);
        return Retry.Rejected(NoStockLevel);
      }
      if stockLevel.availableQuantity < req.quantity {
        table := others(table);
        return Retry.Rejected(InsufficientAvailable);
      }
      var before := stockLevel.Current();
      stockLevel.availableQuantity := stockLevel.availableQuantity - req.quantity;
      table := others(table);
      var saved := Persist(req, before, stockLevel);
      if saved.Rejected? {
        return Retry.Rejected(saved.error);
      }
      return Retry.Resolved(
        Movement(req.tenant, saved.row.id, req.key, SkuOf(dir, req), before, stockLevel.Current(), stockLevel.safetyThreshold));
    }

    method ReplenishAttempt(req: Request, others: Table -> Table) returns (result: Retry.Attempt<Movement, StockError>)
      requires req.kind.Replenish?
      modifies this`table
      ensures result == AttemptOutcome(dir, req, old(table), others(old(table)))
      ensures table == TableAfter(req, old(table), others(old(table)))
    {
      var stock := FindOrCreate(req.tenant, req.key);
      var before := stock.Current();
      stock.availableQuantity := stock.availableQuantity + req.quantity;
      table := others(table);
      var saved := Persist(req, before, stock);
      if saved.Rejected? {
        return Retry.Rejected(saved.error);
      }
      return Retry.Resolved(
        Movement(req.tenant, saved.row.id, req.key, SkuOf(dir, req), before, stock.Current(), stock.safetyThreshold));
    }

    method ReserveAttempt(req: Request, others: Table -> Table) returns (result: Retry.Attempt<Movement, StockError>)
      requires req.kind.Reserve?
      modifies this`table
      ensures result == AttemptOutcome(dir, req, old(table), others(old(table)))
      ensures table == TableAfter(req, old(table), others(old(table)))
    {
      var stockLevel := FindEntity(req.tenant, req.key);
      if stockLevel == null {
        table := others(table);
        return Retry.Rejected(NoStockLevel);
      }
      if stockLevel.availableQuantity < req.quantity {
        table := others(table);
        return Retry.Rejected(InsufficientAvailable);
      }
      var before := stockLevel.Current();
      stockLevel.availableQuantity := stockLevel.availableQuantity - req.quantity;
      stockLevel.reservedQuantity := stockLevel.reservedQuantity + req.quantity;
      table := others(table);
      var saved := Persist(req, before, stockLevel);
      if saved.Rejected? {
        return Retry.Rejected(saved.error);
      }
      return Retry.Resolved(
        Movement(req.tenant, saved.row.id, req.key, None, before, stockLevel.Current(), stockLevel.safetyThreshold));
    }

    method ReleaseAttempt(req: Request, others: Table -> Table) returns (result: Retry.Attempt<Movement, StockError>)
      requires req.kind.Release?
      modifies this`table
      ensures result == AttemptOutcome(dir, req, old(table), others(old(table)))
      ensures table == TableAfter(req, old(table), others(old(table)))
    {
      var stockLevel := FindEntity(req.tenant, req.key);
      if stockLevel == null {
        table := others(table);
        return Retry.Rejected(NoStockLevel);
      }
      if stockLevel.reservedQuantity < req.quantity {
        table := others(table);
        return Retry.Rejected(InsufficientReserved);
      }
      var before := stockLevel.Current();
      stockLevel.availableQuantity := stockLevel.availableQuantity + req.quantity;
      stockLevel.reservedQuantity := stockLevel.reservedQuantity - req.quantity;
      table := others(table);
      var saved := Persist(req, before, stockLevel);
      if saved.Rejected? {
        return Retry.Rejected(saved.error);
      }
      return Retry.Resolved(
        Movement(req.tenant, saved.row.id, req.key, None, before, stockLevel.Current(), stockLevel.safetyThreshold));
    }

    method Attempt(req: Request, others: Table -> Table) returns (result: Retry.Attempt<Movement, StockError>)
      modifies this`table
      ensures result == AttemptOutcome(dir, req, old(table), others(old(table)))
      ensures table == TableAfter(req, old(table), others(old(table)))
    {
      match req.kind
      case Deduct => result := DeductAttempt(req, others);
      case Replenish => result := ReplenishAttempt(req, others);
      case Reserve => result := ReserveAttempt(req, others);
      case Release => result := ReleaseAttempt(req, others);
    }

    method PublishStockMovement(movement: Movement)
      modifies this`audit, this`movements
      ensures audit == old(audit) + [AuditEntry(movement.stockLevelId, movement.before, movement.after)]
      ensures movements == old(movements) + [movement]
    {
      audit := audit + [AuditEntry(movement.stockLevelId, movement.before, movement.after)];
      movements := movements + [movement];
    }

    /** The attempts of a request; `movement` is that of the last one that committed. */
    method RunAttempts(req: Request, others: nat -> Others, made: nat) returns (movement: Option<Movement>)
      requires made >= 1
      requires forall n :: 1 <= n < made ==> Attempts(dir, req, table, others)(n).Rejected?
      modifies this`table
      ensures table == TableLeft(req, old(table), others, made)
      ensures
        var last := Attempts(dir, req, old(table), others)(made);
        movement == if last.Resolved? then Some(last.value) else None
    {
      movement := None;
      ghost var fn := Attempts(dir, req, table, others);
      ghost var start := table;
      for n := 1 to made + 1
        invariant movement == if n > made && fn(made).Resolved? then Some(fn(made).value) else None
        invariant table == TableLeft(req, start, others, n - 1)
      {
        table := others(n).beforeRead(table);
        var result := Attempt(req, others(n).beforeSave);
        assert result == fn(n);
        if result.Resolved? {
          movement := Some(result.value);
        }
      }
    }

    /**
     * A whole request, while others change the table before and during its attempts.  An abandoned
     * attempt leaves the table as the others made it and reports nothing, so only the last attempt
     * leaves a trace: its row, exactly one movement and one audit entry if it committed, nothing if not.
     */
    method Submit(req: Request, others: nat -> Others, random: nat -> real)
      returns (outcome: Retry.Outcome<Movement, StockError>, ghost calls: nat)
      requires forall n :: 0.0 <= random(n) < 1.0
      modifies this
      ensures
        (req.kind.Deduct? || req.kind.Replenish?)
        && ((req.tenant, req.key.variant) !in dir.variants || (req.tenant, req.key.warehouse) !in dir.warehouses) ==>
          outcome == Retry.Threw(UnknownVariantOrWarehouse) && unchanged(this)
      ensures
        req.kind.Reserve? || req.kind.Release?
        || ((req.tenant, req.key.variant) in dir.variants && (req.tenant, req.key.warehouse) in dir.warehouses) ==>
          && Retry.Contract(Attempts(dir, req, old(table), others), RetryOptions(), calls)
          && outcome == Retry.Settle(Attempts(dir, req, old(table), others)(calls))
          && outcome != Retry.Threw(UnknownVariantOrWarehouse)
          && table == TableLeft(req, old(table), others, calls)
          && (forall n :: 1 <= n <= calls && (n < calls || !outcome.Returned?) ==>
                TableLeft(req, old(table), others, n) == TableAtSave(req, old(table), others, n))
          && (outcome.Returned? ==> StoresTheMovement(req, TableAtSave(req, old(table), others, calls), table, outcome.value))
      ensures movements == old(movements) + (if outcome.Returned? then [outcome.value] else [])
      ensures audit == old(audit) + (if outcome.Returned?
        then [AuditEntry(outcome.value.stockLevelId, outcome.value.before, outcome.value.after)] else [])
    {
      calls := 0;
      if LooksUpCatalogue(req.kind)
        && !((req.tenant, req.key.variant) in dir.variants && (req.tenant, req.key.warehouse) in dir.warehouses)
      {
        return Retry.Threw(UnknownVariantOrWarehouse), 0;
      }
      var fn := Attempts(dir, req, table, others);
      var settled, made, _ := Retry.RetryWithBackoff(fn, RetryOptions(), random);
      calls := made;
      AbandonedAttemptsLeaveNoTrace(dir, req, table, others, made);
      AttemptsStoreTheirMovement(dir, req, TableAtRead(req, table, others, made), TableAtSave(req, table, others, made));
      var movement := RunAttempts(req, others, made);
      if movement.Some? {
        PublishStockMovement(movement.value);
      }
      outcome := settled;
    }
  }
}
