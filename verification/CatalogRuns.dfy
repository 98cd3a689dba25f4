/** What reads answer after a run: the last accepted write of each identifier, and nothing of the refused ones. */
module CatalogRuns {
  import opened Common
  import opened CatalogModel
  import opened CatalogDb
  import opened CatalogIntegrity
  import Slug

  /** What a read asks for. */
  datatype Target =
    | CategoryAt(tenant: Id, id: Id)
    | ProductAt(tenant: Id, id: Id)
    | VariantAt(tenant: Id, product: Id, id: Id)

  datatype Answer = Missing | CategoryIs(category: Category) | ProductIs(product: Product) | VariantIs(variant: Variant)

  function Find(db: Db, target: Target): Answer {
    match target
    case CategoryAt(tenant, id) =>
      (match FindCategory(db, tenant, id) case Ok(row) => CategoryIs(row) case Err(_) => Missing)
    case ProductAt(tenant, id) =>
      (match FindProduct(db, tenant, id) case Ok(row) => ProductIs(row) case Err(_) => Missing)
    case VariantAt(tenant, product, id) =>
      (match FindVariant(db, tenant, product, id) case Ok(row) => VariantIs(row) case Err(_) => Missing)
  }

  /** The entity a command writes. */
  function TargetOf(command: Command): Target {
    match command
    case CategoryCreate(tenant, _, newId) => CategoryAt(tenant, newId)
    case CategoryUpdate(tenant, id, _) => CategoryAt(tenant, id)
    case CategoryRemove(tenant, id) => CategoryAt(tenant, id)
    case ProductCreate(tenant, _, newId) => ProductAt(tenant, newId)
    case ProductUpdate(tenant, id, _) => ProductAt(tenant, id)
    case ProductRemove(tenant, id) => ProductAt(tenant, id)
    case VariantCreate(tenant, product, _, newId) => VariantAt(tenant, product, newId)
    case VariantUpdate(tenant, product, id, _) => VariantAt(tenant, product, id)
    case VariantRemove(tenant, product, id) => VariantAt(tenant, product, id)
  }

  function OfCategory(r: Result<Category, CatalogError>): Result<Answer, CatalogError> {
    match r case Ok(row) => Ok(CategoryIs(row)) case Err(error) => Err(error)
  }

  function OfProduct(r: Result<Product, CatalogError>): Result<Answer, CatalogError> {
    match r case Ok(row) => Ok(ProductIs(row)) case Err(error) => Err(error)
  }

  function OfVariant(r: Result<Variant, CatalogError>): Result<Answer, CatalogError> {
    match r case Ok(row) => Ok(VariantIs(row)) case Err(error) => Err(error)
  }

  function OfRemoval(r: Result<(), CatalogError>): Result<Answer, CatalogError> {
    match r case Ok(_) => Ok(Missing) case Err(error) => Err(error)
  }

  /** What the caller of a command is told: the row it saved, that it is gone, or why the command was refused. */
  function Reply(unicode: Slug.Unicode, db: Db, command: Command): Result<Answer, CatalogError> {
    match command
    case CategoryCreate(tenant, dto, newId) => OfCategory(CreateCategory(unicode, db, tenant, dto, newId).1)
    case CategoryUpdate(tenant, id, dto) => OfCategory(UpdateCategory(unicode, db, tenant, id, dto).1)
    case CategoryRemove(tenant, id) => OfRemoval(RemoveCategory(db, tenant, id).1)
    case ProductCreate(tenant, dto, newId) => OfProduct(CreateProduct(db, tenant, dto, newId).1)
    case ProductUpdate(tenant, id, dto) => OfProduct(UpdateProduct(db, tenant, id, dto).1)
    case ProductRemove(tenant, id) => OfRemoval(RemoveProduct(db, tenant, id).1)
    case VariantCreate(tenant, product, dto, newId) => OfVariant(CreateVariant(db, tenant, product, dto, newId).1)
    case VariantUpdate(tenant, product, id, dto) => OfVariant(UpdateVariant(db, tenant, product, id, dto).1)
    case VariantRemove(tenant, product, id) => OfRemoval(RemoveVariant(db, tenant, product, id).1)
  }

  predicate IsAccepted(unicode: Slug.Unicode, db: Db, command: Command) {
    Reply(unicode, db, command).Ok?
  }

  // ---------------------------------------------------------------------------------------------
  // One command
  // ---------------------------------------------------------------------------------------------

  lemma RefusedCategoryChangesNothing(unicode: Slug.Unicode, db: Db, command: Command)
    requires command.CategoryCreate? || command.CategoryUpdate? || command.CategoryRemove?
    requires !IsAccepted(unicode, db, command)
    ensures Execute(unicode, db, command) == db
  {
  }

  lemma RefusedCommandChangesNothing(unicode: Slug.Unicode, db: Db, command: Command)
    requires !IsAccepted(unicode, db, command)
    ensures Execute(unicode, db, command) == db
  {
    if command.CategoryCreate? || command.CategoryUpdate? || command.CategoryRemove? {
      RefusedCategoryChangesNothing(unicode, db, command);
    }
  }

  /** What is found after a write of one row. */
  ghost predicate Wrote(db: Db, db': Db, target: Target, answer: Answer) {
    forall t :: Find(db', t) == if t == target then answer else Find(db, t)
  }

  lemma SavedCategoryIsFound(db: Db, row: Category)
    requires !row.deleted && SaveCategory(db, row).1.Ok?
    requires row.id in db.categories ==> db.categories[row.id].tenant == row.tenant
    ensures Wrote(db, SaveCategory(db, row).0, CategoryAt(row.tenant, row.id), CategoryIs(row))
  {
  }

  lemma SavedProductIsFound(db: Db, row: Product)
    requires !row.deleted
    requires row.id in db.products ==> db.products[row.id].tenant == row.tenant
    ensures Wrote(db, SaveProduct(db, row).0, ProductAt(row.tenant, row.id), ProductIs(row))
  {
  }

  lemma SavedVariantIsFound(db: Db, row: Variant)
    requires !row.deleted && SaveVariant(db, row).1.Ok?
    requires row.id in db.variants ==>
      db.variants[row.id].tenant == row.tenant && db.variants[row.id].product == row.product
    ensures Wrote(db, SaveVariant(db, row).0, VariantAt(row.tenant, row.product, row.id), VariantIs(row))
  {
  }

  lemma RemovedCategoryIsMissing(db: Db, tenant: Id, id: Id)
    requires RemoveCategory(db, tenant, id).1.Ok?
    ensures Wrote(db, RemoveCategory(db, tenant, id).0, CategoryAt(tenant, id), Missing)
  {
  }

  lemma RemovedProductIsMissing(db: Db, tenant: Id, id: Id)
    requires RemoveProduct(db, tenant, id).1.Ok?
    ensures Wrote(db, RemoveProduct(db, tenant, id).0, ProductAt(tenant, id), Missing)
  {
  }

  lemma RemovedVariantIsMissing(db: Db, tenant: Id, product: Id, id: Id)
    requires RemoveVariant(db, tenant, product, id).1.Ok?
    ensures Wrote(db, RemoveVariant(db, tenant, product, id).0, VariantAt(tenant, product, id), Missing)
  {
  }

  lemma CategoryWriteIsFound(unicode: Slug.Unicode, db: Db, command: Command)
    requires Keyed(db) && FreshId(db, command) && IsAccepted(unicode, db, command)
    requires command.CategoryCreate? || command.CategoryUpdate?
    ensures Wrote(db, Execute(unicode, db, command), TargetOf(command), Reply(unicode, db, command).value)
  {
    if command.CategoryCreate? {
      SavedCategoryIsFound(db, CreateCategory(unicode, db, command.tenant, command.categoryDto, command.newId).1.value);
    } else {
      RenamedKeepsTheRest(unicode, db.categories[command.id], command.categoryChange);
      SavedCategoryIsFound(db, UpdateCategory(unicode, db, command.tenant, command.id, command.categoryChange).1.value);
    }
  }

  lemma ProductWriteIsFound(unicode: Slug.Unicode, db: Db, command: Command)
    requires Keyed(db) && FreshId(db, command) && IsAccepted(unicode, db, command)
    requires command.ProductCreate? || command.ProductUpdate?
    ensures Wrote(db, Execute(unicode, db, command), TargetOf(command), Reply(unicode, db, command).value)
  {
    SavedProductIsFound(db, Reply(unicode, db, command).value.product);
  }

  lemma VariantWriteIsFound(unicode: Slug.Unicode, db: Db, command: Command)
    requires Keyed(db) && FreshId(db, command) && IsAccepted(unicode, db, command)
    requires command.VariantCreate? || command.VariantUpdate?
    ensures Wrote(db, Execute(unicode, db, command), TargetOf(command), Reply(unicode, db, command).value)
  {
    SavedVariantIsFound(db, Reply(unicode, db, command).value.variant);
  }

  lemma AcceptedWriteIsFound(unicode: Slug.Unicode, db: Db, command: Command)
    requires Keyed(db) && FreshId(db, command) && IsAccepted(unicode, db, command)
    ensures Wrote(db, Execute(unicode, db, command), TargetOf(command), Reply(unicode, db, command).value)
  {
    match command
    case CategoryCreate(_, _, _) => CategoryWriteIsFound(unicode, db, command);
    case CategoryUpdate(_, _, _) => CategoryWriteIsFound(unicode, db, command);
    case ProductCreate(_, _, _) => ProductWriteIsFound(unicode, db, command);
    case ProductUpdate(_, _, _) => ProductWriteIsFound(unicode, db, command);
    case VariantCreate(_, _, _, _) => VariantWriteIsFound(unicode, db, command);
    case VariantUpdate(_, _, _, _) => VariantWriteIsFound(unicode, db, command);
    case CategoryRemove(tenant, id) => RemovedCategoryIsMissing(db, tenant, id);
    case ProductRemove(tenant, id) => RemovedProductIsMissing(db, tenant, id);
    case VariantRemove(tenant, product, id) => RemovedVariantIsMissing(db, tenant, product, id);
  }

  // ---------------------------------------------------------------------------------------------
  // Whole runs
  // ---------------------------------------------------------------------------------------------

  /** What the last accepted write of the target replied, or what was found at the start if there was none. */
  function LastWrite(unicode: Slug.Unicode, db: Db, commands: seq<Command>, target: Target): Answer {
    if commands == [] then Find(db, target)
    else
      var before, last := commands[..|commands| - 1], commands[|commands| - 1];
      var reply := Reply(unicode, Run(unicode, db, before), last);
      if TargetOf(last) == target && reply.Ok? then reply.value else LastWrite(unicode, db, before, target)
  }

  /** After any run every read answers what the last accepted write of that entity replied. */
  lemma {:induction false} ReadsAnswerTheLastWrite(unicode: Slug.Unicode, db: Db, commands: seq<Command>, target: Target)
    requires Integrity(db) && FreshIds(unicode, db, commands)
    ensures Find(Run(unicode, db, commands), target) == LastWrite(unicode, db, commands, target)
  {
    if commands != [] {
      FreshPrefix(unicode, db, commands);
      var before, last := commands[..|commands| - 1], commands[|commands| - 1];
      ReadsAnswerTheLastWrite(unicode, db, before, target);
      RunKeepsIntegrity(unicode, db, before);
      var now := Run(unicode, db, before);
      if IsAccepted(unicode, now, last) {
        AcceptedWriteIsFound(unicode, now, last);
      } else {
        RefusedCommandChangesNothing(unicode, now, last);
      }
    }
  }

  /** The commands of a run that were accepted when their turn came. */
  function Accepted(unicode: Slug.Unicode, db: Db, commands: seq<Command>): seq<Command> {
    if commands == [] then []
    else
      var before, last := commands[..|commands| - 1], commands[|commands| - 1];
      Accepted(unicode, db, before) + if IsAccepted(unicode, Run(unicode, db, before), last) then [last] else []
  }

  lemma OneMore(unicode: Slug.Unicode, db: Db, before: seq<Command>, last: Command)
    ensures Run(unicode, db, before + [last]) == Execute(unicode, Run(unicode, db, before), last)
    ensures Accepted(unicode, db, before + [last])
         == Accepted(unicode, db, before) + if IsAccepted(unicode, Run(unicode, db, before), last) then [last] else []
  {
    assert (before + [last])[..|before|] == before;
  }

  /** The accepted commands of a run have its effect and are all accepted when they run without the others. */
  ghost predicate SameWithoutRefused(unicode: Slug.Unicode, db: Db, commands: seq<Command>) {
    var accepted := Accepted(unicode, db, commands);
    Run(unicode, db, accepted) == Run(unicode, db, commands) && Accepted(unicode, db, accepted) == accepted
  }

  lemma AcceptedIsKept(unicode: Slug.Unicode, db: Db, before: seq<Command>, last: Command)
    requires SameWithoutRefused(unicode, db, before) && IsAccepted(unicode, Run(unicode, db, before), last)
    ensures SameWithoutRefused(unicode, db, before + [last])
  {
    OneMore(unicode, db, before, last);
    OneMore(unicode, db, Accepted(unicode, db, before), last);
  }

  lemma RefusedIsDropped(unicode: Slug.Unicode, db: Db, before: seq<Command>, last: Command)
    requires SameWithoutRefused(unicode, db, before) && !IsAccepted(unicode, Run(unicode, db, before), last)
    ensures SameWithoutRefused(unicode, db, before + [last])
  {
    OneMore(unicode, db, before, last);
    RefusedCommandChangesNothing(unicode, Run(unicode, db, before), last);
    assert Accepted(unicode, db, before + [last]) == Accepted(unicode, db, before);
  }

  lemma OneMoreIsSame(unicode: Slug.Unicode, db: Db, before: seq<Command>, last: Command)
    requires SameWithoutRefused(unicode, db, before)
    ensures SameWithoutRefused(unicode, db, before + [last])
  {
    if IsAccepted(unicode, Run(unicode, db, before), last) {
      AcceptedIsKept(unicode, db, before, last);
    } else {
      RefusedIsDropped(unicode, db, before, last);
    }
  }

  lemma NothingIsSame(unicode: Slug.Unicode, db: Db)
    ensures SameWithoutRefused(unicode, db, [])
  {
  }

  lemma {:induction false} SameUpTo(unicode: Slug.Unicode, db: Db, commands: seq<Command>, n: nat)
    requires n <= |commands|
    ensures SameWithoutRefused(unicode, db, commands[..n])
  {
    if n == 0 {
      NothingIsSame(unicode, db);
      assert commands[..0] == [];
    } else {
      SameUpTo(unicode, db, commands, n - 1);
      OneMoreIsSame(unicode, db, commands[..n - 1], commands[n - 1]);
      assert commands[..n - 1] + [commands[n - 1]] == commands[..n];
    }
  }

  /** Refused commands can be deleted from a run: the rest has the same effect and is accepted throughout. */
  lemma RefusedCommandsLeaveNoTrace(unicode: Slug.Unicode, db: Db, commands: seq<Command>)
    ensures SameWithoutRefused(unicode, db, commands)
  {
    SameUpTo(unicode, db, commands, |commands|);
    assert commands[..|commands|] == commands;
  }
}
