/**
 * Serial histories: a log of committed operations, each run alone after the one before it.
 * Everything here is sequential; StockMachine shows that concurrent runs produce such logs.
 */
module StockHistory {
  import opened Common
  import opened StockModel

  /** A committed operation: who asked, what it did to its row, and what it reported. */
  datatype Commit = Commit(client: nat, req: Request, row: Row, movement: Movement)

  /** The table after running the logged operations one after another, if the log is a true account of that. */
  function Replay(dir: Directory, start: Table, log: seq<Commit>): Option<Table> {
    if log == [] then Some(start)
    else
      match Replay(dir, start, log[..|log| - 1])
      case None => None
      case Some(table) =>
        var last := log[|log| - 1];
        if ExecuteAlone(dir, last.req, table) == Ok(Executed(last.row, last.movement)) then
          Some(table[last.req.key := last.row])
        else
          None
  }

  ghost predicate Serial(dir: Directory, start: Table, log: seq<Commit>) {
    Replay(dir, start, log).Some?
  }

  lemma {:induction false} PrefixIsSerial(dir: Directory, start: Table, log: seq<Commit>, i: nat)
    requires Serial(dir, start, log) && i <= |log|
    ensures Serial(dir, start, log[..i])
  {
    if i < |log| {
      PrefixIsSerial(dir, start, log[..|log| - 1], i);
      assert log[..|log| - 1][..i] == log[..i];
    } else {
      assert log[..i] == log;
    }
  }

  /** The table between the i-th and the next commit. */
  ghost function TableAt(dir: Directory, start: Table, log: seq<Commit>, i: nat): Table
    requires Serial(dir, start, log) && i <= |log|
  {
    PrefixIsSerial(dir, start, log, i);
    Replay(dir, start, log[..i]).value
  }

  lemma TableSteps(dir: Directory, start: Table, log: seq<Commit>, i: nat)
    requires Serial(dir, start, log) && i < |log|
    ensures
      var (before, after) := (TableAt(dir, start, log, i), TableAt(dir, start, log, i + 1));
      && ExecuteAlone(dir, log[i].req, before) == Ok(Executed(log[i].row, log[i].movement))
      && after == before[log[i].req.key := log[i].row]
  {
    PrefixIsSerial(dir, start, log, i + 1);
    assert log[..i + 1][..i] == log[..i];
  }

  // ---------------------------------------------------------------------------------------------
  // Sums over a log
  // ---------------------------------------------------------------------------------------------

  predicate On(commit: Commit, key: Key) {
    commit.req.key == key
  }

  function Commits(log: seq<Commit>, key: Key): nat {
    if log == [] then 0
    else Commits(log[..|log| - 1], key) + if On(log[|log| - 1], key) then 1 else 0
  }

  /** How many units the committed operations of one kind moved on one row. */
  function Moved(log: seq<Commit>, key: Key, kind: Kind): nat {
    if log == [] then 0
    else
      var last := log[|log| - 1];
      Moved(log[..|log| - 1], key, kind) + if On(last, key) && last.req.kind == kind then last.req.quantity else 0
  }

  // ---------------------------------------------------------------------------------------------
  // What a serial history keeps
  // ---------------------------------------------------------------------------------------------

  /** What one commit does to the row of a key, and what it adds to the sums. */
  lemma CommitOnRow(dir: Directory, table: Table, e: Commit, key: Key)
    requires ExecuteAlone(dir, e.req, table) == Ok(Executed(e.row, e.movement))
    ensures
      var (after, on) := (table[e.req.key := e.row], On(e, key));
      && LevelsAt(after, key).available == LevelsAt(table, key).available + (if on then AvailableDelta(e.req) else 0)
      && LevelsAt(after, key).reserved == LevelsAt(table, key).reserved + (if on then ReservedDelta(e.req) else 0)
      && VersionAt(after, key) == VersionAt(table, key) + (if on then 1 else 0)
      && ThresholdAt(after, key) == ThresholdAt(table, key)
  {
  }

  /** The sums of a log and those of one operation more. */
  lemma SumsOneMore(log: seq<Commit>, key: Key)
    requires log != []
    ensures
      var (before, e) := (log[..|log| - 1], log[|log| - 1]);
      && Moved(log, key, Replenish) + Moved(log, key, Release) - Moved(log, key, Deduct) - Moved(log, key, Reserve)
         == Moved(before, key, Replenish) + Moved(before, key, Release) - Moved(before, key, Deduct) - Moved(before, key, Reserve)
            + (if On(e, key) then AvailableDelta(e.req) else 0)
      && Moved(log, key, Reserve) - Moved(log, key, Release)
         == Moved(before, key, Reserve) - Moved(before, key, Release) + (if On(e, key) then ReservedDelta(e.req) else 0)
  {
  }

  /**
   * Conservation: both columns of every row are the initial ones plus and minus exactly what the
   * committed operations moved, and the version counts the commits.
   */
  lemma {:induction false} Ledger(dir: Directory, start: Table, log: seq<Commit>, key: Key)
    requires Serial(dir, start, log)
    ensures
      var table := Replay(dir, start, log).value;
      && LevelsAt(table, key).available ==
         LevelsAt(start, key).available
           + Moved(log, key, Replenish) + Moved(log, key, Release)
           - Moved(log, key, Deduct) - Moved(log, key, Reserve)
      && LevelsAt(table, key).reserved ==
         LevelsAt(start, key).reserved + Moved(log, key, Reserve) - Moved(log, key, Release)
      && VersionAt(table, key) == VersionAt(start, key) + Commits(log, key)
      && ThresholdAt(table, key) == ThresholdAt(start, key)
  {
    if log != [] {
      var before := log[..|log| - 1];
      Ledger(dir, start, before, key);
      CommitOnRow(dir, Replay(dir, start, before).value, log[|log| - 1], key);
      SumsOneMore(log, key);
    }
  }

  ghost predicate NonNegative(table: Table) {
    forall key :: key in table ==> table[key].levels.available >= 0 && table[key].levels.reserved >= 0
  }

  /** No oversell: neither column of any row ever becomes negative. */
  lemma {:induction false} StaysNonNegative(dir: Directory, start: Table, log: seq<Commit>)
    requires Serial(dir, start, log) && NonNegative(start)
    ensures NonNegative(Replay(dir, start, log).value)
  {
    if log != [] {
      StaysNonNegative(dir, start, log[..|log| - 1]);
    }
  }

  lemma {:induction false} UnitsAreCommits(log: seq<Commit>, key: Key)
    requires forall i :: 0 <= i < |log| && On(log[i], key) ==> log[i].req.kind == Deduct && log[i].req.quantity == 1
    ensures Moved(log, key, Deduct) == Commits(log, key)
    ensures Moved(log, key, Replenish) == Moved(log, key, Reserve) == Moved(log, key, Release) == 0
  {
    if log != [] {
      UnitsAreCommits(log[..|log| - 1], key);
    }
  }

  /** A log in which every operation on the row takes one unit takes no more units than there were. */
  lemma UnitDeductionsAreBounded(dir: Directory, start: Table, log: seq<Commit>, key: Key)
    requires Serial(dir, start, log) && NonNegative(start)
    requires forall i :: 0 <= i < |log| && On(log[i], key) ==> log[i].req.kind == Deduct && log[i].req.quantity == 1
    ensures Commits(log, key) <= LevelsAt(start, key).available
    ensures LevelsAt(Replay(dir, start, log).value, key).available
         == LevelsAt(start, key).available - Commits(log, key)
  {
    Ledger(dir, start, log, key);
    StaysNonNegative(dir, start, log);
    UnitsAreCommits(log, key);
  }

  // ---------------------------------------------------------------------------------------------
  // Movements of one row chain
  // ---------------------------------------------------------------------------------------------

  ghost predicate Quiet(log: seq<Commit>, key: Key, lo: nat, hi: nat)
    requires lo <= hi <= |log|
  {
    forall m :: lo <= m < hi ==> !On(log[m], key)
  }

  lemma {:induction false} QuietKeepsTheRow(dir: Directory, start: Table, log: seq<Commit>, key: Key, lo: nat, hi: nat)
    requires Serial(dir, start, log) && lo <= hi <= |log| && Quiet(log, key, lo, hi)
    ensures
      var (before, after) := (TableAt(dir, start, log, lo), TableAt(dir, start, log, hi));
      (key in before <==> key in after) && (key in before ==> before[key] == after[key])
    decreases hi - lo
  {
    if lo < hi {
      QuietKeepsTheRow(dir, start, log, key, lo, hi - 1);
      TableSteps(dir, start, log, hi - 1);
    }
  }

  /**
   * Ordered by version, the movements of a row chain: each starts where the one before it ended,
   * the first at the initial levels, the last at the current ones, and versions rise one by one.
   */
  lemma MovementsChain(dir: Directory, start: Table, log: seq<Commit>, key: Key, i: nat, j: nat)
    requires Serial(dir, start, log) && i < j < |log|
    requires On(log[i], key) && On(log[j], key) && Quiet(log, key, i + 1, j)
    ensures log[j].movement.before == log[i].movement.after
    ensures log[j].row.version == log[i].row.version + 1
    ensures log[j].movement.stockLevelId == log[i].movement.stockLevelId
  {
    TableSteps(dir, start, log, i);
    TableSteps(dir, start, log, j);
    QuietKeepsTheRow(dir, start, log, key, i + 1, j);
  }

  lemma FirstMovementStartsAtTheInitialLevels(dir: Directory, start: Table, log: seq<Commit>, key: Key, j: nat)
    requires Serial(dir, start, log) && j < |log| && On(log[j], key) && Quiet(log, key, 0, j)
    ensures log[j].movement.before == LevelsAt(start, key)
    ensures log[j].row.version == VersionAt(start, key) + 1
  {
    TableSteps(dir, start, log, j);
    QuietKeepsTheRow(dir, start, log, key, 0, j);
    assert log[..0] == [];
  }

  lemma LastMovementEndsAtTheCurrentLevels(dir: Directory, start: Table, log: seq<Commit>, key: Key, i: nat)
    requires Serial(dir, start, log) && i < |log| && On(log[i], key) && Quiet(log, key, i + 1, |log|)
    ensures log[i].movement.after == LevelsAt(Replay(dir, start, log).value, key)
    ensures log[i].row.version == VersionAt(Replay(dir, start, log).value, key)
  {
    TableSteps(dir, start, log, i);
    QuietKeepsTheRow(dir, start, log, key, i + 1, |log|);
    assert log[..|log|] == log;
  }

  // ---------------------------------------------------------------------------------------------
  // Saves that meet a later table
  // ---------------------------------------------------------------------------------------------

  lemma {:induction false} CommitsGrow(log: seq<Commit>, key: Key, i: nat)
    requires i <= |log|
    ensures Commits(log[..i], key) <= Commits(log, key)
    ensures Commits(log[..i], key) == Commits(log, key) <==> Quiet(log, key, i, |log|)
  {
    if i < |log| {
      var prefix := log[..|log| - 1];
      CommitsGrow(prefix, key, i);
      assert prefix[..i] == log[..i];
      assert Quiet(log, key, i, |log|) <==> Quiet(prefix, key, i, |prefix|) && !On(log[|log| - 1], key);
    } else {
      assert log[..i] == log;
    }
  }

  /** The draft is what a read at the `since`-th table of the history produced. */
  ghost predicate DraftedAt(dir: Directory, start: Table, log: seq<Commit>, since: nat, req: Request, draft: Draft) {
    && Serial(dir, start, log)
    && since <= |log|
    && Load(req, TableAt(dir, start, log, since)) == Drafted(draft)
  }

  /** Rows are never deleted and keep their identity. */
  lemma {:induction false} RowsStay(dir: Directory, start: Table, log: seq<Commit>, key: Key, i: nat)
    requires Serial(dir, start, log) && i <= |log| && key in TableAt(dir, start, log, i)
    ensures
      var table := Replay(dir, start, log).value;
      key in table && table[key].id == TableAt(dir, start, log, i)[key].id
  {
    if i < |log| {
      PrefixIsSerial(dir, start, log, |log| - 1);
      assert log[..|log| - 1][..i] == log[..i];
      RowsStay(dir, start, log[..|log| - 1], key, i);
    } else {
      assert log[..i] == log;
    }
  }

  /** A row's version tells whether it was touched. */
  lemma VersionsShowCommits(dir: Directory, start: Table, log: seq<Commit>, key: Key, i: nat)
    requires Serial(dir, start, log) && i <= |log|
    ensures
      var (before, after) := (VersionAt(TableAt(dir, start, log, i), key), VersionAt(Replay(dir, start, log).value, key));
      before <= after && (before == after <==> Quiet(log, key, i, |log|))
  {
    Ledger(dir, start, log, key);
    PrefixIsSerial(dir, start, log, i);
    Ledger(dir, start, log[..i], key);
    CommitsGrow(log, key, i);
  }

  /** What a read hands out is the row it saw. */
  lemma ReadHoldsTheRow(req: Request, table: Table, draft: Draft)
    requires Load(req, table) == Drafted(draft) && draft.loaded.Some?
    ensures req.key in table && table[req.key] == draft.loaded.value && draft.loaded.value.tenant == req.tenant
  {
  }

  lemma SaveComparesVersions(req: Request, draft: Draft, table: Table)
    requires SnapshotOf(req, draft, table) && draft.loaded.Some?
    ensures Save(req, draft, table).Stored? <==> draft.loaded.value.version == table[req.key].version
  {
  }

  /** The row that was read is still the tenant's, and its version shows whether it was touched. */
  lemma SnapshotOfHistory(dir: Directory, start: Table, log: seq<Commit>, since: nat, key: Key)
    requires Serial(dir, start, log) && since <= |log| && key in TableAt(dir, start, log, since)
    ensures
      var (was, now) := (TableAt(dir, start, log, since), Replay(dir, start, log).value);
      && key in now && now[key].id == was[key].id && was[key].version <= now[key].version
      && (was[key].version == now[key].version <==> Quiet(log, key, since, |log|))
      && (was[key].version == now[key].version ==> was[key] == now[key])
  {
    RowsStay(dir, start, log, key, since);
    VersionsShowCommits(dir, start, log, key, since);
    if Quiet(log, key, since, |log|) {
      QuietKeepsTheRow(dir, start, log, key, since, |log|);
      assert log[..|log|] == log;
    }
  }

  /** The version check is exact: an entity that was read is saved just when no commit touched its row since. */
  lemma SaveSucceedsExactlyWhenQuiet(
    dir: Directory, start: Table, log: seq<Commit>, since: nat, req: Request, draft: Draft)
    requires DraftedAt(dir, start, log, since, req, draft)
    ensures
      var table := Replay(dir, start, log).value;
      && SnapshotOf(req, draft, table)
      && (draft.loaded.Some? ==> (Save(req, draft, table).Stored? <==> Quiet(log, req.key, since, |log|)))
      && (Save(req, draft, table) == Rejected(VersionMismatch) ==> !Quiet(log, req.key, since, |log|))
  {
    if draft.loaded.Some? {
      ReadHoldsTheRow(req, TableAt(dir, start, log, since), draft);
      SnapshotOfHistory(dir, start, log, since, req.key);
      SaveComparesVersions(req, draft, Replay(dir, start, log).value);
    }
  }
}
