/**
 * Any number of clients, each with one stock request, on one shared table.  A schedule names the
 * client that moves next; a client's move is one lookup, one read, one save with its commit, or the
 * publication of its event.  Between two moves of a client any number of others may move.
 */
module StockMachine {
  import opened Common
  import opened StockModel
  import opened StockHistory
  import Retry

  /** An attempt: how many commits there were at its read and at its save. */
  datatype Window = Window(lo: nat, hi: nat)

  datatype Phase =
    | Fresh
    | Ready(attempt: nat)
    | Holding(attempt: nat, draft: Draft, since: nat)
    | Committed(movement: Movement)
    | Returned(movement: Movement)
    | Failed(error: StockError, at: nat)

  /**
   * `lost` are the abandoned attempts and `last` is the one that settled the request; like the
   * positions in the phases they are bookkeeping, and no step looks at them.
   */
  datatype Client = Client(req: Request, phase: Phase, lost: seq<Window>, last: Window)

  datatype Event = Event(client: nat, movement: Movement)

  datatype State = State(
    dir: Directory,
    table: Table,
    clients: map<nat, Client>,
    log: seq<Commit>,
    events: seq<Event>)

  predicate Initial(s: State) {
    && s.log == []
    && s.events == []
    && forall c :: c in s.clients ==> s.clients[c].phase == Fresh && s.clients[c].lost == []
  }

  /** What the retry loop does with a failed attempt. */
  function AfterFailure(client: Client, attempt: nat, error: StockError, window: Window): Client {
    var lost := if error.VersionMismatch? then client.lost + [window] else client.lost;
    var options := RetryOptions();
    if !options.retryable(error) || attempt == options.maxAttempts then
      client.(phase := Failed(error, window.hi), lost := lost, last := window)
    else
      client.(phase := Ready(attempt + 1), lost := lost)
  }

  function Step(s: State, c: nat): State {
    if c !in s.clients then s
    else
      var client := s.clients[c];
      var now := |s.log|;
      match client.phase
      case Fresh =>
        var next := if Validates(s.dir, client.req) then Ready(1) else Failed(UnknownVariantOrWarehouse, now);
        s.(clients := s.clients[c := client.(phase := next)])
      case Ready(attempt) =>
        (match Load(client.req, s.table)
         case Refused(error) =>
           s.(clients := s.clients[c := AfterFailure(client, attempt, error, Window(now, now))])
         case Drafted(draft) =>
           s.(clients := s.clients[c := client.(phase := Holding(attempt, draft, now))]))
      case Holding(attempt, draft, since) =>
        (match Save(client.req, draft, s.table)
         case Rejected(error) =>
           s.(clients := s.clients[c := AfterFailure(client, attempt, error, Window(since, now))])
         case Stored(row) =>
           var movement := MovementOf(s.dir, client.req, draft, row);
           s.(table := s.table[client.req.key := row],
              clients := s.clients[c := client.(phase := Committed(movement), last := Window(since, now))],
              log := s.log + [Commit(c, client.req, row, movement)]))
      case Committed(movement) =>
        s.(clients := s.clients[c := client.(phase := Returned(movement))],
           events := s.events + [Event(c, movement)])
      case Returned(_) => s
      case Failed(_, _) => s
  }

  function Run(s: State, schedule: seq<nat>): State {
    if schedule == [] then s
    else Step(Run(s, schedule[..|schedule| - 1]), schedule[|schedule| - 1])
  }

  // ---------------------------------------------------------------------------------------------
  // The invariant
  // ---------------------------------------------------------------------------------------------

  /** Someone else committed to the row inside the window. */
  ghost predicate Overtaken(log: seq<Commit>, c: nat, key: Key, w: Window) {
    && w.lo <= w.hi <= |log|
    && exists j :: w.lo <= j < w.hi && On(log[j], key) && log[j].client != c
  }

  ghost predicate LostOk(log: seq<Commit>, c: nat, client: Client) {
    && (forall i :: 0 <= i < |client.lost| ==> Overtaken(log, c, client.req.key, client.lost[i]))
    && (forall i, j :: 0 <= i < j < |client.lost| ==> client.lost[i].hi <= client.lost[j].lo)
  }

  ghost predicate LostBefore(client: Client, at: nat) {
    forall i :: 0 <= i < |client.lost| ==> client.lost[i].hi <= at
  }

  /** The log holds the client's commit, with exactly this movement. */
  ghost predicate Logged(log: seq<Commit>, c: nat, req: Request, movement: Movement) {
    exists i :: 0 <= i < |log| && log[i].client == c && log[i].req == req && log[i].movement == movement
  }

  /** The refusal that the request would also meet if it ran alone at that point of the history. */
  ghost predicate RefusedAlone(start: State, log: seq<Commit>, req: Request, error: StockError, at: nat) {
    && Serial(start.dir, start.table, log)
    && at <= |log|
    && ExecuteAlone(start.dir, req, TableAt(start.dir, start.table, log, at)) == Err(error)
  }

  /** A replenishment that found no row of its own, while the (variant, warehouse) pair was taken at its save. */
  ghost predicate InsertRaced(start: State, log: seq<Commit>, req: Request, at: nat) {
    && Serial(start.dir, start.table, log)
    && at <= |log|
    && req.kind.Replenish?
    && req.key in TableAt(start.dir, start.table, log, at)
    && exists since :: 0 <= since <= at && FindOne(TableAt(start.dir, start.table, log, since), req.tenant, req.key) == None
  }

  ghost predicate FailureOk(start: State, log: seq<Commit>, client: Client, error: StockError, at: nat) {
    match error
    case UnknownVariantOrWarehouse => !Validates(start.dir, client.req) && client.lost == []
    case VersionMismatch => |client.lost| == MAX_ATTEMPTS
    case DuplicateRow => |client.lost| < MAX_ATTEMPTS && InsertRaced(start, log, client.req, at)
    case _ => |client.lost| < MAX_ATTEMPTS && RefusedAlone(start, log, client.req, error, at)
  }

  ghost predicate PhaseOk(start: State, log: seq<Commit>, c: nat, client: Client) {
    match client.phase
    case Fresh => client.lost == []
    case Ready(attempt) => 1 <= attempt <= MAX_ATTEMPTS && |client.lost| == attempt - 1 && LostBefore(client, |log|)
    case Holding(attempt, draft, since) =>
      && 1 <= attempt <= MAX_ATTEMPTS && |client.lost| == attempt - 1 && LostBefore(client, since)
      && DraftedAt(start.dir, start.table, log, since, client.req, draft)
    case Committed(movement) => |client.lost| < MAX_ATTEMPTS && Logged(log, c, client.req, movement)
    case Returned(movement) => |client.lost| < MAX_ATTEMPTS && Logged(log, c, client.req, movement)
    case Failed(error, at) => FailureOk(start, log, client, error, at)
  }

  ghost predicate ClientOk(start: State, log: seq<Commit>, c: nat, client: Client) {
    && LostOk(log, c, client)
    && PhaseOk(start, log, c, client)
    && (!client.phase.Fresh? && !(client.phase.Failed? && client.phase.error.UnknownVariantOrWarehouse?) ==>
          Validates(start.dir, client.req))
  }

  type Clients = map<nat, Client>

  ghost predicate ClientsOk(start: State, clients: Clients, log: seq<Commit>) {
    && clients.Keys == start.clients.Keys
    && (forall c :: c in clients ==> clients[c].req == start.clients[c].req)
    && (forall c :: c in clients ==> ClientOk(start, log, c, clients[c]))
  }

  predicate HasCommitted(phase: Phase) {
    phase.Committed? || phase.Returned?
  }

  /** Every commit in the log belongs to a client that knows about it, and no client has two. */
  ghost predicate LogOk(clients: Clients, log: seq<Commit>) {
    && (forall i :: 0 <= i < |log| ==>
          && log[i].client in clients
          && log[i].req == clients[log[i].client].req
          && HasCommitted(clients[log[i].client].phase)
          && log[i].movement == clients[log[i].client].phase.movement)
    && (forall i, j :: 0 <= i < j < |log| ==> log[i].client != log[j].client)
  }

  /** Every event belongs to a request that returned, every such request has one, and none has two. */
  ghost predicate EventsOk(clients: Clients, events: seq<Event>) {
    && (forall i :: 0 <= i < |events| ==>
          && events[i].client in clients
          && clients[events[i].client].phase == Returned(events[i].movement))
    && (forall i, j :: 0 <= i < j < |events| ==> events[i].client != events[j].client)
    && (forall c :: c in clients && clients[c].phase.Returned? ==>
          exists i :: 0 <= i < |events| && events[i].client == c)
  }

  ghost predicate Inv(start: State, s: State) {
    && s.dir == start.dir
    && Replay(start.dir, start.table, s.log) == Some(s.table)
    && ClientsOk(start, s.clients, s.log)
    && LogOk(s.clients, s.log)
    && EventsOk(s.clients, s.events)
  }

  // ---------------------------------------------------------------------------------------------
  // A longer log keeps what was said about a shorter one
  // ---------------------------------------------------------------------------------------------

  lemma TableAtIsStable(dir: Directory, start: Table, log: seq<Commit>, e: Commit, i: nat)
    requires Serial(dir, start, log + [e]) && i <= |log|
    ensures Serial(dir, start, log)
    ensures TableAt(dir, start, log + [e], i) == TableAt(dir, start, log, i)
  {
    PrefixIsSerial(dir, start, log + [e], |log|);
    assert (log + [e])[..|log|] == log;
    assert (log + [e])[..i] == log[..i];
  }

  lemma OvertakenIsStable(log: seq<Commit>, e: Commit, c: nat, key: Key, w: Window)
    requires Overtaken(log, c, key, w)
    ensures Overtaken(log + [e], c, key, w)
  {
    var j :| w.lo <= j < w.hi && On(log[j], key) && log[j].client != c;
    assert (log + [e])[j] == log[j];
  }

  lemma LoggedIsStable(log: seq<Commit>, e: Commit, c: nat, req: Request, movement: Movement)
    requires Logged(log, c, req, movement)
    ensures Logged(log + [e], c, req, movement)
  {
    var i :| 0 <= i < |log| && log[i].client == c && log[i].req == req && log[i].movement == movement;
    assert (log + [e])[i] == log[i];
  }

  lemma FailureIsStable(start: State, log: seq<Commit>, e: Commit, client: Client, error: StockError, at: nat)
    requires Serial(start.dir, start.table, log + [e]) && Serial(start.dir, start.table, log)
    requires FailureOk(start, log, client, error, at)
    ensures FailureOk(start, log + [e], client, error, at)
  {
    if error.DuplicateRow? {
      var since :| 0 <= since <= at && FindOne(TableAt(start.dir, start.table, log, since), client.req.tenant, client.req.key) == None;
      TableAtIsStable(start.dir, start.table, log, e, since);
      TableAtIsStable(start.dir, start.table, log, e, at);
    } else if !error.UnknownVariantOrWarehouse? && !error.VersionMismatch? {
      TableAtIsStable(start.dir, start.table, log, e, at);
    }
  }

  lemma ClientIsStable(start: State, log: seq<Commit>, e: Commit, c: nat, client: Client)
    requires Serial(start.dir, start.table, log + [e])
    requires ClientOk(start, log, c, client)
    ensures ClientOk(start, log + [e], c, client)
  {
    TableAtIsStable(start.dir, start.table, log, e, |log|);
    forall i | 0 <= i < |client.lost| ensures Overtaken(log + [e], c, client.req.key, client.lost[i]) {
      OvertakenIsStable(log, e, c, client.req.key, client.lost[i]);
    }
    match client.phase {
      case Fresh =>
      case Ready(_) =>
      case Holding(_, _, since) => TableAtIsStable(start.dir, start.table, log, e, since);
      case Committed(movement) => LoggedIsStable(log, e, c, client.req, movement);
      case Returned(movement) => LoggedIsStable(log, e, c, client.req, movement);
      case Failed(error, at) => FailureIsStable(start, log, e, client, error, at);
    }
  }

  // ---------------------------------------------------------------------------------------------
  // Every step keeps the invariant
  // ---------------------------------------------------------------------------------------------

  lemma LogIgnoresTheUncommitted(clients: Clients, log: seq<Commit>, c: nat, next: Client)
    requires LogOk(clients, log) && c in clients && !HasCommitted(clients[c].phase)
    ensures LogOk(clients[c := next], log)
    ensures forall i :: 0 <= i < |log| ==> log[i].client != c
  {
    forall i | 0 <= i < |log| ensures log[i].client != c {
      assert HasCommitted(clients[log[i].client].phase);
    }
  }

  lemma EventsIgnoreTheUnreturned(clients: Clients, events: seq<Event>, c: nat, next: Client)
    requires EventsOk(clients, events) && c in clients
    requires !clients[c].phase.Returned? && !next.phase.Returned?
    ensures EventsOk(clients[c := next], events)
    ensures forall i :: 0 <= i < |events| ==> events[i].client != c
  {
    forall i | 0 <= i < |events| ensures events[i].client != c {
      assert clients[events[i].client].phase.Returned?;
    }
  }

  lemma OthersStayOk(start: State, clients: Clients, log: seq<Commit>, c: nat, next: Client)
    requires ClientsOk(start, clients, log) && c in clients
    requires next.req == clients[c].req && ClientOk(start, log, c, next)
    ensures ClientsOk(start, clients[c := next], log)
  {
    assert clients[c := next].Keys == clients.Keys;
  }

  /** A move that neither commits nor publishes. */
  lemma PrivateMoveKeepsInv(start: State, s: State, c: nat, next: Client)
    requires Inv(start, s) && c in s.clients
    requires !HasCommitted(s.clients[c].phase) && !HasCommitted(next.phase)
    requires next.req == s.clients[c].req && ClientOk(start, s.log, c, next)
    ensures Inv(start, s.(clients := s.clients[c := next]))
  {
    LogIgnoresTheUncommitted(s.clients, s.log, c, next);
    EventsIgnoreTheUnreturned(s.clients, s.events, c, next);
    OthersStayOk(start, s.clients, s.log, c, next);
  }

  lemma ReadRefusalIsAlone(start: State, s: State, req: Request, error: StockError)
    requires Inv(start, s) && Load(req, s.table) == Refused(error)
    ensures RefusedAlone(start, s.log, req, error, |s.log|)
  {
    assert s.log[..|s.log|] == s.log;
  }

  /** The client a read leaves behind. */
  function AfterRead(client: Client, table: Table, now: nat): Client
    requires client.phase.Ready?
  {
    match Load(client.req, table)
    case Refused(error) => AfterFailure(client, client.phase.attempt, error, Window(now, now))
    case Drafted(draft) => client.(phase := Holding(client.phase.attempt, draft, now))
  }

  /** The client a refused save leaves behind. */
  function AfterRefusal(client: Client, table: Table, now: nat): Client
    requires client.phase.Holding? && Save(client.req, client.phase.draft, table).Rejected?
  {
    AfterFailure(
      client, client.phase.attempt, Save(client.req, client.phase.draft, table).error, Window(client.phase.since, now))
  }

  lemma RefusedReadKeepsClient(start: State, s: State, c: nat)
    requires Inv(start, s) && c in s.clients && s.clients[c].phase.Ready? && Load(s.clients[c].req, s.table).Refused?
    ensures
      var client := s.clients[c];
      ClientOk(start, s.log, c, AfterFailure(client, client.phase.attempt, Load(client.req, s.table).error, Window(|s.log|, |s.log|)))
  {
    var client := s.clients[c];
    assert ClientOk(start, s.log, c, client);
    assert s.log[..|s.log|] == s.log;
    ReadRefusalIsAlone(start, s, client.req, Load(client.req, s.table).error);
  }

  lemma DraftedReadKeepsClient(start: State, s: State, c: nat)
    requires Inv(start, s) && c in s.clients && s.clients[c].phase.Ready? && Load(s.clients[c].req, s.table).Drafted?
    ensures
      var client := s.clients[c];
      ClientOk(start, s.log, c, client.(phase := Holding(client.phase.attempt, Load(client.req, s.table).draft, |s.log|)))
  {
    assert ClientOk(start, s.log, c, s.clients[c]);
    assert s.log[..|s.log|] == s.log;
  }

  lemma ReadKeepsInv(start: State, s: State, c: nat)
    requires Inv(start, s) && c in s.clients && s.clients[c].phase.Ready?
    ensures Inv(start, s.(clients := s.clients[c := AfterRead(s.clients[c], s.table, |s.log|)]))
  {
    if Load(s.clients[c].req, s.table).Refused? {
      RefusedReadKeepsClient(start, s, c);
    } else {
      DraftedReadKeepsClient(start, s, c);
    }
    PrivateMoveKeepsInv(start, s, c, AfterRead(s.clients[c], s.table, |s.log|));
  }

  /** A refused save of a row that was read: somebody else's commit is in the window. */
  lemma MismatchMeansOvertaken(start: State, s: State, c: nat)
    requires Inv(start, s) && c in s.clients && s.clients[c].phase.Holding?
    requires Save(s.clients[c].req, s.clients[c].phase.draft, s.table) == Rejected(VersionMismatch)
    ensures Overtaken(s.log, c, s.clients[c].req.key, Window(s.clients[c].phase.since, |s.log|))
  {
    var client := s.clients[c];
    var since := client.phase.since;
    SaveSucceedsExactlyWhenQuiet(start.dir, start.table, s.log, since, client.req, client.phase.draft);
    assert !Quiet(s.log, client.req.key, since, |s.log|);
    var j :| since <= j < |s.log| && On(s.log[j], client.req.key);
    assert HasCommitted(s.clients[s.log[j].client].phase);
  }

  lemma OvertakenKeepsClient(start: State, log: seq<Commit>, c: nat, client: Client)
    requires ClientOk(start, log, c, client) && client.phase.Holding?
    requires Overtaken(log, c, client.req.key, Window(client.phase.since, |log|))
    ensures ClientOk(start, log, c, AfterFailure(client, client.phase.attempt, VersionMismatch, Window(client.phase.since, |log|)))
  {
    var next := AfterFailure(client, client.phase.attempt, VersionMismatch, Window(client.phase.since, |log|));
    assert LostOk(log, c, next);
  }

  lemma MismatchKeepsClient(start: State, s: State, c: nat)
    requires Inv(start, s) && c in s.clients && s.clients[c].phase.Holding?
    requires Save(s.clients[c].req, s.clients[c].phase.draft, s.table) == Rejected(VersionMismatch)
    ensures
      var Holding(attempt, _, since) := s.clients[c].phase;
      ClientOk(start, s.log, c, AfterFailure(s.clients[c], attempt, VersionMismatch, Window(since, |s.log|)))
  {
    MismatchMeansOvertaken(start, s, c);
    OvertakenKeepsClient(start, s.log, c, s.clients[c]);
  }

  lemma RacedInsertKeepsClient(start: State, log: seq<Commit>, c: nat, client: Client)
    requires ClientOk(start, log, c, client) && client.phase.Holding?
    requires InsertRaced(start, log, client.req, |log|)
    ensures ClientOk(start, log, c, AfterFailure(client, client.phase.attempt, DuplicateRow, Window(client.phase.since, |log|)))
  {
  }

  lemma DuplicateMeansRaced(start: State, log: seq<Commit>, table: Table, since: nat, req: Request, draft: Draft)
    requires Replay(start.dir, start.table, log) == Some(table) && DraftedAt(start.dir, start.table, log, since, req, draft)
    requires Save(req, draft, table) == Rejected(DuplicateRow)
    ensures InsertRaced(start, log, req, |log|)
  {
    assert log[..|log|] == log;
    assert FindOne(TableAt(start.dir, start.table, log, since), req.tenant, req.key) == None;
  }

  lemma DuplicateKeepsClient(start: State, s: State, c: nat)
    requires Inv(start, s) && c in s.clients && s.clients[c].phase.Holding?
    requires Save(s.clients[c].req, s.clients[c].phase.draft, s.table) == Rejected(DuplicateRow)
    ensures
      var Holding(attempt, _, since) := s.clients[c].phase;
      ClientOk(start, s.log, c, AfterFailure(s.clients[c], attempt, DuplicateRow, Window(since, |s.log|)))
  {
    var client := s.clients[c];
    assert ClientOk(start, s.log, c, client);
    DuplicateMeansRaced(start, s.log, s.table, client.phase.since, client.req, client.phase.draft);
    RacedInsertKeepsClient(start, s.log, c, client);
  }

  lemma RefusedSaveKeepsInv(start: State, s: State, c: nat)
    requires Inv(start, s) && c in s.clients && s.clients[c].phase.Holding?
    requires Save(s.clients[c].req, s.clients[c].phase.draft, s.table).Rejected?
    ensures Inv(start, s.(clients := s.clients[c := AfterRefusal(s.clients[c], s.table, |s.log|)]))
  {
    if Save(s.clients[c].req, s.clients[c].phase.draft, s.table).error.VersionMismatch? {
      MismatchKeepsClient(start, s, c);
    } else {
      DuplicateKeepsClient(start, s, c);
    }
    PrivateMoveKeepsInv(start, s, c, AfterRefusal(s.clients[c], s.table, |s.log|));
  }

  lemma StepReads(s: State, c: nat)
    requires c in s.clients && s.clients[c].phase.Ready?
    ensures Step(s, c) == s.(clients := s.clients[c := AfterRead(s.clients[c], s.table, |s.log|)])
  {
  }

  lemma StepIsRefused(s: State, c: nat)
    requires c in s.clients && s.clients[c].phase.Holding?
    requires Save(s.clients[c].req, s.clients[c].phase.draft, s.table).Rejected?
    ensures Step(s, c) == s.(clients := s.clients[c := AfterRefusal(s.clients[c], s.table, |s.log|)])
  {
  }

  function Committing(client: Client, movement: Movement, now: nat): Client
    requires client.phase.Holding?
  {
    client.(phase := Committed(movement), last := Window(client.phase.since, now))
  }

  /** What a successful save adds to the history. */
  function CommitOf(s: State, c: nat): Commit
    requires c in s.clients && s.clients[c].phase.Holding?
    requires Save(s.clients[c].req, s.clients[c].phase.draft, s.table).Stored?
  {
    var client := s.clients[c];
    var row := Save(client.req, client.phase.draft, s.table).row;
    Commit(c, client.req, row, MovementOf(s.dir, client.req, client.phase.draft, row))
  }

  lemma CommitExtendsReplay(dir: Directory, start: Table, log: seq<Commit>, c: nat, req: Request, draft: Draft, since: nat)
    requires DraftedAt(dir, start, log, since, req, draft)
    requires Save(req, draft, Replay(dir, start, log).value).Stored?
    ensures
      var table := Replay(dir, start, log).value;
      var row := Save(req, draft, table).row;
      var e := Commit(c, req, row, MovementOf(dir, req, draft, row));
      Replay(dir, start, log + [e]) == Some(table[req.key := row])
  {
    var table := Replay(dir, start, log).value;
    var row := Save(req, draft, table).row;
    var e := Commit(c, req, row, MovementOf(dir, req, draft, row));
    SaveSucceedsExactlyWhenQuiet(dir, start, log, since, req, draft);
    SaveActsAlone(dir, req, draft, table);
    assert (log + [e])[..|log + [e]| - 1] == log;
  }

  lemma CommitKeepsLog(clients: Clients, log: seq<Commit>, c: nat, e: Commit, next: Client)
    requires LogOk(clients, log) && c in clients && !HasCommitted(clients[c].phase)
    requires e.client == c && e.req == next.req && next.phase == Committed(e.movement)
    ensures LogOk(clients[c := next], log + [e])
  {
    LogIgnoresTheUncommitted(clients, log, c, next);
  }

  lemma CommittingClientIsOk(start: State, log: seq<Commit>, c: nat, e: Commit, client: Client)
    requires ClientOk(start, log, c, client) && client.phase.Holding?
    requires Serial(start.dir, start.table, log + [e])
    requires e.client == c && e.req == client.req
    ensures ClientOk(start, log + [e], c, Committing(client, e.movement, |log|))
  {
    ClientIsStable(start, log, e, c, client);
    assert (log + [e])[|log|] == e;
  }

  lemma CommitKeepsClients(start: State, clients: Clients, log: seq<Commit>, c: nat, e: Commit, next: Client)
    requires ClientsOk(start, clients, log) && c in clients && clients[c].phase.Holding?
    requires Serial(start.dir, start.table, log + [e])
    requires e.client == c && e.req == clients[c].req && next == Committing(clients[c], e.movement, |log|)
    ensures ClientsOk(start, clients[c := next], log + [e])
  {
    forall d | d in clients ensures ClientOk(start, log + [e], d, clients[d]) {
      ClientIsStable(start, log, e, d, clients[d]);
    }
    CommittingClientIsOk(start, log, c, e, clients[c]);
    OthersStayOk(start, clients, log + [e], c, next);
  }

  lemma StepCommits(s: State, c: nat)
    requires c in s.clients && s.clients[c].phase.Holding?
    requires Save(s.clients[c].req, s.clients[c].phase.draft, s.table).Stored?
    ensures
      var e := CommitOf(s, c);
      && Step(s, c).dir == s.dir
      && Step(s, c).clients == s.clients[c := Committing(s.clients[c], e.movement, |s.log|)]
      && Step(s, c).log == s.log + [e]
      && Step(s, c).table == s.table[e.req.key := e.row]
      && Step(s, c).events == s.events
  {
  }

  lemma CommitKeepsInv(start: State, s: State, c: nat)
    requires Inv(start, s) && c in s.clients && s.clients[c].phase.Holding?
    requires Save(s.clients[c].req, s.clients[c].phase.draft, s.table).Stored?
    ensures Inv(start, Step(s, c))
  {
    var e := CommitOf(s, c);
    var next := Committing(s.clients[c], e.movement, |s.log|);
    assert ClientOk(start, s.log, c, s.clients[c]);
    CommitExtendsReplay(start.dir, start.table, s.log, c, e.req, s.clients[c].phase.draft, s.clients[c].phase.since);
    CommitKeepsLog(s.clients, s.log, c, e, next);
    CommitKeepsClients(start, s.clients, s.log, c, e, next);
    EventsIgnoreTheUnreturned(s.clients, s.events, c, next);
    StepCommits(s, c);
  }

  lemma PublishKeepsEvents(clients: Clients, events: seq<Event>, c: nat, next: Client)
    requires EventsOk(clients, events) && c in clients && !clients[c].phase.Returned? && next.phase.Returned?
    ensures EventsOk(clients[c := next], events + [Event(c, next.phase.movement)])
  {
    var clients', events' := clients[c := next], events + [Event(c, next.phase.movement)];
    EventsIgnoreTheUnreturned(clients, events, c, clients[c]);
    forall d | d in clients' && clients'[d].phase.Returned?
      ensures exists i :: 0 <= i < |events'| && events'[i].client == d
    {
      if d == c {
        assert events'[|events|].client == c;
      } else {
        var i :| 0 <= i < |events| && events[i].client == d;
        assert events'[i].client == d;
      }
    }
  }

  lemma PublishKeepsInv(start: State, s: State, c: nat)
    requires Inv(start, s) && c in s.clients && s.clients[c].phase.Committed?
    ensures Inv(start, Step(s, c))
  {
    var next := s.clients[c].(phase := Returned(s.clients[c].phase.movement));
    assert ClientOk(start, s.log, c, s.clients[c]);
    assert LogOk(s.clients[c := next], s.log);
    PublishKeepsEvents(s.clients, s.events, c, next);
    OthersStayOk(start, s.clients, s.log, c, next);
  }

  lemma StepKeepsInv(start: State, s: State, c: nat)
    requires Inv(start, s)
    ensures Inv(start, Step(s, c))
  {
    if c in s.clients {
      var client := s.clients[c];
      match client.phase {
        case Fresh =>
          var now := |s.log|;
          var next := if Validates(s.dir, client.req) then Ready(1) else Failed(UnknownVariantOrWarehouse, now);
          PrivateMoveKeepsInv(start, s, c, client.(phase := next));
        case Ready(_) =>
          ReadKeepsInv(start, s, c);
          StepReads(s, c);
        case Holding(_, draft, _) =>
          if Save(client.req, draft, s.table).Stored? {
            CommitKeepsInv(start, s, c);
          } else {
            RefusedSaveKeepsInv(start, s, c);
            StepIsRefused(s, c);
          }
        case Committed(_) => PublishKeepsInv(start, s, c);
        case Returned(_) =>
        case Failed(_, _) =>
      }
    }
  }

  lemma {:induction false} RunKeepsInv(start: State, schedule: seq<nat>)
    requires Initial(start)
    ensures Inv(start, Run(start, schedule))
  {
    if schedule != [] {
      RunKeepsInv(start, schedule[..|schedule| - 1]);
      StepKeepsInv(start, Run(start, schedule[..|schedule| - 1]), schedule[|schedule| - 1]);
    }
  }

  // ---------------------------------------------------------------------------------------------
  // The attempts behind the bookkeeping
  // ---------------------------------------------------------------------------------------------

  ghost predicate InHistory(start: State, log: seq<Commit>, w: Window) {
    Serial(start.dir, start.table, log) && w.lo <= w.hi <= |log|
  }

  /** The attempt whose read and save met the tables at the ends of the window. */
  ghost function AttemptIn(start: State, log: seq<Commit>, req: Request, w: Window): Retry.Attempt<Movement, StockError>
    requires InHistory(start, log, w)
  {
    AttemptOutcome(
      start.dir, req, TableAt(start.dir, start.table, log, w.lo), TableAt(start.dir, start.table, log, w.hi))
  }

  ghost predicate Ended(start: State, log: seq<Commit>, req: Request, w: Window, call: Retry.Attempt<Movement, StockError>) {
    InHistory(start, log, w) && AttemptIn(start, log, req, w) == call
  }

  /** The recorded windows are those of attempts that ended the way the client's phase says. */
  ghost predicate CallsOk(start: State, log: seq<Commit>, client: Client) {
    && (forall i :: 0 <= i < |client.lost| ==>
          Ended(start, log, client.req, client.lost[i], Retry.Rejected(VersionMismatch)))
    && (HasCommitted(client.phase) ==>
          Ended(start, log, client.req, client.last, Retry.Resolved(client.phase.movement)))
    && (client.phase.Failed? && client.phase.error != UnknownVariantOrWarehouse ==>
          client.last.hi == client.phase.at && Ended(start, log, client.req, client.last, Retry.Rejected(client.phase.error)))
  }

  ghost predicate AllCallsOk(start: State, clients: Clients, log: seq<Commit>) {
    forall c :: c in clients ==> CallsOk(start, log, clients[c])
  }

  lemma EndedIsStable(start: State, log: seq<Commit>, e: Commit, req: Request, w: Window, call: Retry.Attempt<Movement, StockError>)
    requires Serial(start.dir, start.table, log + [e]) && Ended(start, log, req, w, call)
    ensures Ended(start, log + [e], req, w, call)
  {
    TableAtIsStable(start.dir, start.table, log, e, w.lo);
    TableAtIsStable(start.dir, start.table, log, e, w.hi);
  }

  lemma CallsAreStable(start: State, log: seq<Commit>, e: Commit, client: Client)
    requires Serial(start.dir, start.table, log + [e]) && CallsOk(start, log, client)
    ensures CallsOk(start, log + [e], client)
  {
    forall i | 0 <= i < |client.lost|
      ensures Ended(start, log + [e], client.req, client.lost[i], Retry.Rejected(VersionMismatch))
    {
      EndedIsStable(start, log, e, client.req, client.lost[i], Retry.Rejected(VersionMismatch));
    }
    if HasCommitted(client.phase) {
      EndedIsStable(start, log, e, client.req, client.last, Retry.Resolved(client.phase.movement));
    }
    if client.phase.Failed? && client.phase.error != UnknownVariantOrWarehouse {
      EndedIsStable(start, log, e, client.req, client.last, Retry.Rejected(client.phase.error));
    }
  }

  /** An attempt that is refused now. */
  lemma FailureKeepsCalls(start: State, log: seq<Commit>, client: Client, attempt: nat, error: StockError, w: Window)
    requires CallsOk(start, log, client) && !HasCommitted(client.phase) && !client.phase.Failed?
    requires Ended(start, log, client.req, w, Retry.Rejected(error))
    ensures CallsOk(start, log, AfterFailure(client, attempt, error, w))
  {
  }

  /** What the client's attempt meets at this moment: the table its read saw, and the current one. */
  lemma AttemptEndsNow(start: State, s: State, c: nat)
    requires Inv(start, s) && c in s.clients && s.clients[c].phase.Holding?
    ensures
      var client := s.clients[c];
      Ended(start, s.log, client.req, Window(client.phase.since, |s.log|),
        match Save(client.req, client.phase.draft, s.table)
        case Rejected(error) => Retry.Rejected(error)
        case Stored(row) => Retry.Resolved(MovementOf(s.dir, client.req, client.phase.draft, row)))
  {
    assert ClientOk(start, s.log, c, s.clients[c]);
    assert s.log[..|s.log|] == s.log;
  }

  lemma RefusedReadEndsNow(start: State, s: State, req: Request)
    requires Inv(start, s) && Load(req, s.table).Refused?
    ensures Ended(start, s.log, req, Window(|s.log|, |s.log|), Retry.Rejected(Load(req, s.table).error))
  {
    assert s.log[..|s.log|] == s.log;
  }

  lemma OthersKeepCalls(start: State, clients: Clients, log: seq<Commit>, c: nat, next: Client)
    requires AllCallsOk(start, clients, log) && c in clients && CallsOk(start, log, next)
    ensures AllCallsOk(start, clients[c := next], log)
  {
  }

  lemma AllCallsAreStable(start: State, clients: Clients, log: seq<Commit>, e: Commit)
    requires AllCallsOk(start, clients, log) && Serial(start.dir, start.table, log + [e])
    ensures AllCallsOk(start, clients, log + [e])
  {
    forall d | d in clients ensures CallsOk(start, log + [e], clients[d]) {
      CallsAreStable(start, log, e, clients[d]);
    }
  }

  lemma CommittedCallsOk(start: State, log: seq<Commit>, client: Client, movement: Movement, now: nat)
    requires CallsOk(start, log, client) && client.phase.Holding?
    requires Ended(start, log, client.req, Window(client.phase.since, now), Retry.Resolved(movement))
    ensures CallsOk(start, log, Committing(client, movement, now))
  {
  }

  lemma CommitKeepsCalls(start: State, s: State, c: nat)
    requires Inv(start, s) && AllCallsOk(start, s.clients, s.log)
    requires c in s.clients && s.clients[c].phase.Holding?
    requires Save(s.clients[c].req, s.clients[c].phase.draft, s.table).Stored?
    ensures
      var e := CommitOf(s, c);
      AllCallsOk(start, s.clients[c := Committing(s.clients[c], e.movement, |s.log|)], s.log + [e])
  {
    var e := CommitOf(s, c);
    var client := s.clients[c];
    assert ClientOk(start, s.log, c, client);
    CommitExtendsReplay(start.dir, start.table, s.log, c, e.req, client.phase.draft, client.phase.since);
    AttemptEndsNow(start, s, c);
    EndedIsStable(start, s.log, e, e.req, Window(client.phase.since, |s.log|), Retry.Resolved(e.movement));
    AllCallsAreStable(start, s.clients, s.log, e);
    CommittedCallsOk(start, s.log + [e], client, e.movement, |s.log|);
    OthersKeepCalls(start, s.clients, s.log + [e], c, Committing(client, e.movement, |s.log|));
  }

  lemma ReadKeepsCalls(start: State, s: State, c: nat)
    requires Inv(start, s) && AllCallsOk(start, s.clients, s.log)
    requires c in s.clients && s.clients[c].phase.Ready?
    ensures AllCallsOk(start, s.clients[c := AfterRead(s.clients[c], s.table, |s.log|)], s.log)
  {
    var client := s.clients[c];
    var now := Window(|s.log|, |s.log|);
    if Load(client.req, s.table).Refused? {
      RefusedReadEndsNow(start, s, client.req);
      FailureKeepsCalls(start, s.log, client, client.phase.attempt, Load(client.req, s.table).error, now);
    }
    OthersKeepCalls(start, s.clients, s.log, c, AfterRead(client, s.table, |s.log|));
  }

  lemma RefusedSaveKeepsCalls(start: State, s: State, c: nat)
    requires Inv(start, s) && AllCallsOk(start, s.clients, s.log)
    requires c in s.clients && s.clients[c].phase.Holding?
    requires Save(s.clients[c].req, s.clients[c].phase.draft, s.table).Rejected?
    ensures AllCallsOk(start, s.clients[c := AfterRefusal(s.clients[c], s.table, |s.log|)], s.log)
  {
    var client := s.clients[c];
    AttemptEndsNow(start, s, c);
    FailureKeepsCalls(
      start, s.log, client, client.phase.attempt, Save(client.req, client.phase.draft, s.table).error,
      Window(client.phase.since, |s.log|));
    OthersKeepCalls(start, s.clients, s.log, c, AfterRefusal(client, s.table, |s.log|));
  }

  lemma OtherStepsKeepCalls(start: State, s: State, c: nat)
    requires AllCallsOk(start, s.clients, s.log)
    requires c in s.clients && !s.clients[c].phase.Ready? && !s.clients[c].phase.Holding?
    ensures AllCallsOk(start, Step(s, c).clients, Step(s, c).log)
  {
    assert CallsOk(start, s.log, s.clients[c]);
    OthersKeepCalls(start, s.clients, s.log, c, Step(s, c).clients[c]);
  }

  lemma StepKeepsCalls(start: State, s: State, c: nat)
    requires Inv(start, s) && AllCallsOk(start, s.clients, s.log)
    ensures AllCallsOk(start, Step(s, c).clients, Step(s, c).log)
  {
    if c in s.clients {
      match s.clients[c].phase {
        case Ready(_) =>
          ReadKeepsCalls(start, s, c);
          StepReads(s, c);
        case Holding(_, draft, _) =>
          if Save(s.clients[c].req, draft, s.table).Stored? {
            CommitKeepsCalls(start, s, c);
            StepCommits(s, c);
          } else {
            RefusedSaveKeepsCalls(start, s, c);
            StepIsRefused(s, c);
          }
        case _ => OtherStepsKeepCalls(start, s, c);
      }
    }
  }

  lemma {:induction false} RunKeepsCalls(start: State, schedule: seq<nat>)
    requires Initial(start)
    ensures AllCallsOk(start, Run(start, schedule).clients, Run(start, schedule).log)
  {
    if schedule != [] {
      var prefix := schedule[..|schedule| - 1];
      RunKeepsCalls(start, prefix);
      RunKeepsInv(start, prefix);
      StepKeepsCalls(start, Run(start, prefix), schedule[|schedule| - 1]);
    }
  }

  // ---------------------------------------------------------------------------------------------
  // Schedules
  // ---------------------------------------------------------------------------------------------

  lemma {:induction false} RunConcat(s: State, a: seq<nat>, b: seq<nat>)
    ensures Run(s, a + b) == Run(Run(s, a), b)
  {
    if b == [] {
      assert a + b == a;
    } else {
      RunConcat(s, a, b[..|b| - 1]);
      assert (a + b)[..|a + b| - 1] == a + b[..|b| - 1];
    }
  }

  lemma RunOne(s: State, c: nat)
    ensures Run(s, [c]) == Step(s, c)
  {
    assert [c][..0] == [];
  }

  lemma RunThenStep(s: State, schedule: seq<nat>, c: nat)
    ensures Run(s, schedule + [c]) == Step(Run(s, schedule), c)
  {
    RunConcat(s, schedule, [c]);
    RunOne(Run(s, schedule), c);
  }
}
