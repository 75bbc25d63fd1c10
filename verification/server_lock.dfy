/**
 * The server lock: a row per action name in the `server_lock` table, with a
 * version used for compare-and-swap and the time of the last execution in
 * whole Unix seconds. A server runs the action only when the last execution
 * is older than the requested interval and its versioned update wins.
 *
 * Time is a parameter: `now` is the wall clock in nanoseconds since the Unix
 * epoch and intervals are durations in nanoseconds.
 */
module ServerLock {
  import opened Wrappers

  const NanosPerSecond: int := 1_000_000_000
  const Millisecond: int := 1_000_000
  const Hour: int := 3600 * NanosPerSecond

  datatype LockRow = LockRow(id: int, operationUid: string, version: int, lastExecution: int)

  /** The statements the service issues; any of them can be told to fail. */
  datatype Stmt = FindStmt | InsertStmt | UpdateStmt | DeleteStmt

  datatype LockError = DbError(stmt: Stmt)

  /** `time.Now().Unix()`: whole seconds, rounded down. */
  function UnixSeconds(now: nat): (s: nat)
    ensures s * 1_000_000_000 <= now < (s + 1) * 1_000_000_000
  {
    now / 1_000_000_000
  }

  /**
   * isLockWithinInterval: a row that never ran is never within the interval;
   * otherwise it is when less than `maxInterval` has passed since the start
   * of the second it last ran in.
   */
  predicate IsLockWithinInterval(row: LockRow, maxInterval: int, now: nat) {
    row.lastExecution != 0 && now - row.lastExecution * 1_000_000_000 < maxInterval
  }

  /** A row stamped at `stamped` is still within any interval exceeding the time since then by a second. */
  lemma StampedRowWithinInterval(row: LockRow, stamped: nat, later: nat, maxInterval: int)
    requires stamped >= NanosPerSecond && stamped <= later
    requires row.lastExecution == UnixSeconds(stamped)
    requires later - stamped + NanosPerSecond <= maxInterval
    ensures IsLockWithinInterval(row, maxInterval, later)
  {
  }

  /** A row that never ran does not hold the gate, however long the interval. */
  lemma NeverRunRowNotWithinInterval(row: LockRow, now: nat, maxInterval: int)
    requires row.lastExecution == 0
    ensures !IsLockWithinInterval(row, maxInterval, now)
  {
  }

  /** Once the interval has elapsed since a row was stamped, it no longer holds the gate. */
  lemma ElapsedRowNotWithinInterval(row: LockRow, stamped: nat, later: nat, maxInterval: int)
    requires row.lastExecution == UnixSeconds(stamped)
    requires later - stamped >= maxInterval
    ensures !IsLockWithinInterval(row, maxInterval, later)
  {
  }

  // ---------------------------------------------------------------------------
  // The table

  /** `SELECT ... WHERE operation_uid = ?`, first row: a row for the action. */
  function FirstWithUid(rows: seq<LockRow>, operationUid: string): (r: Option<LockRow>)
    ensures r.Some? ==> r.value in rows && r.value.operationUid == operationUid
  {
    if rows == [] then None
    else if rows[0].operationUid == operationUid then Some(rows[0])
    else FirstWithUid(rows[1..], operationUid)
  }

  /** No row is found exactly when no row is for the action. */
  lemma {:induction false} FirstWithUidNone(rows: seq<LockRow>, operationUid: string)
    ensures FirstWithUid(rows, operationUid).None? <==> forall x :: x in rows ==> x.operationUid != operationUid
  {
    if rows != [] {
      FirstWithUidNone(rows[1..], operationUid);
      assert forall x :: x in rows <==> x == rows[0] || x in rows[1..];
    }
  }

  /** How many rows `WHERE id = ? AND version = ?` selects. */
  function CountMatching(rows: seq<LockRow>, id: int, version: int): (n: nat)
    ensures n <= |rows|
    ensures n == 0 <==> forall x :: x in rows ==> !(x.id == id && x.version == version)
  {
    if rows == [] then 0
    else (if rows[0].id == id && rows[0].version == version then 1 else 0) + CountMatching(rows[1..], id, version)
  }

  /** The row as `UPDATE server_lock SET version, last_execution WHERE id AND version` leaves it. */
  function StampRow(x: LockRow, id: int, version: int, newVersion: int, lastExecution: int): LockRow {
    if x.id == id && x.version == version then x.(version := newVersion, lastExecution := lastExecution) else x
  }

  /** The table after the update: exactly the selected rows get the new version and last execution. */
  function Stamp(rows: seq<LockRow>, id: int, version: int, newVersion: int, lastExecution: int): (r: seq<LockRow>)
    ensures |r| == |rows|
  {
    seq(|rows|, i requires 0 <= i < |rows| => StampRow(rows[i], id, version, newVersion, lastExecution))
  }

  /** `DELETE FROM server_lock WHERE id AND version`. */
  function Release(rows: seq<LockRow>, id: int, version: int): (r: seq<LockRow>)
    ensures |r| <= |rows|
  {
    if rows == [] then []
    else (if rows[0].id == id && rows[0].version == version then [] else [rows[0]]) + Release(rows[1..], id, version)
  }

  /** The delete keeps exactly the rows whose id and version do not both match. */
  lemma {:induction false} ReleaseMembers(rows: seq<LockRow>, id: int, version: int)
    ensures forall x :: x in Release(rows, id, version) <==> x in rows && !(x.id == id && x.version == version)
  {
    if rows != [] {
      ReleaseMembers(rows[1..], id, version);
      assert forall x :: x in rows <==> x == rows[0] || x in rows[1..];
    }
  }

  ghost predicate UniqueIds(rows: seq<LockRow>) {
    forall i, j :: 0 <= i < j < |rows| ==> rows[i].id != rows[j].id
  }

  /** With unique ids, the versioned update selects at most one row: the lock is taken exactly when the row is present with that version. */
  lemma {:induction false} CountMatchingUnique(rows: seq<LockRow>, id: int, version: int)
    requires UniqueIds(rows)
    ensures CountMatching(rows, id, version) <= 1
    ensures CountMatching(rows, id, version) == 1 <==> exists x :: x in rows && x.id == id && x.version == version
  {
    if rows != [] {
      assert UniqueIds(rows[1..]) by {
        forall i, j | 0 <= i < j < |rows[1..]| ensures rows[1..][i].id != rows[1..][j].id {
          assert rows[1..][i] == rows[i + 1] && rows[1..][j] == rows[j + 1];
        }
      }
      CountMatchingUnique(rows[1..], id, version);
      if rows[0].id == id {
        forall x | x in rows[1..] ensures x.id != id {
          var k :| 0 <= k < |rows[1..]| && rows[1..][k] == x;
          assert rows[k + 1] == x;
        }
      }
      assert forall x :: x in rows <==> x == rows[0] || x in rows[1..];
    }
  }

  lemma StampKeepsUniqueIds(rows: seq<LockRow>, id: int, version: int, newVersion: int, lastExecution: int)
    requires UniqueIds(rows)
    ensures UniqueIds(Stamp(rows, id, version, newVersion, lastExecution))
    ensures forall x :: x in Stamp(rows, id, version, newVersion, lastExecution) ==> exists y :: y in rows && y.id == x.id
  {
    var r := Stamp(rows, id, version, newVersion, lastExecution);
    forall x | x in r ensures exists y :: y in rows && y.id == x.id {
      var k :| 0 <= k < |r| && r[k] == x;
      assert rows[k].id == x.id;
    }
  }

  /** Stamping a row appended last, when no earlier row shares its id, rewrites only that row. */
  lemma StampFreshRow(rows: seq<LockRow>, row: LockRow, lastExecution: int)
    requires forall i :: 0 <= i < |rows| ==> rows[i].id != row.id
    ensures Stamp(rows + [row], row.id, row.version, row.version + 1, lastExecution)
      == rows + [row.(version := row.version + 1, lastExecution := lastExecution)]
  {
    var t := rows + [row];
    forall i | 0 <= i < |rows| ensures t[i].id != row.id {
      assert t[i] == rows[i];
    }
  }

  /** After stamping a present row and deleting it by the bumped version, no row has its id. */
  lemma StampThenReleaseRemovesRow(rows: seq<LockRow>, row: LockRow, lastExecution: int)
    requires UniqueIds(rows) && row in rows
    ensures forall x :: x in Release(Stamp(rows, row.id, row.version, row.version + 1, lastExecution), row.id, row.version + 1) ==> x.id != row.id
  {
    var stamped := Stamp(rows, row.id, row.version, row.version + 1, lastExecution);
    var j :| 0 <= j < |rows| && rows[j] == row;
    ReleaseMembers(stamped, row.id, row.version + 1);
    forall x | x in Release(stamped, row.id, row.version + 1) ensures x.id != row.id {
      var k :| 0 <= k < |stamped| && stamped[k] == x;
      if k != j {
        assert rows[k].id != rows[j].id;
      }
    }
  }

  lemma {:induction false} ReleaseKeepsUniqueIds(rows: seq<LockRow>, id: int, version: int)
    requires UniqueIds(rows)
    ensures UniqueIds(Release(rows, id, version))
    ensures forall x :: x in Release(rows, id, version) ==> x in rows
  {
    if rows != [] {
      var tail := rows[1..];
      assert UniqueIds(tail) by {
        forall i, j | 0 <= i < j < |tail| ensures tail[i].id != tail[j].id {
          assert tail[i] == rows[i + 1] && tail[j] == rows[j + 1];
        }
      }
      ReleaseKeepsUniqueIds(tail, id, version);
      var rest := Release(tail, id, version);
      forall x | x in rest ensures x.id != rows[0].id {
        var k :| 0 <= k < |tail| && tail[k] == x;
        assert rows[k + 1] == x;
      }
    }
  }


  /** Deleting the last row by its id and version leaves the rows before it. */
  lemma {:induction false} ReleaseLast(rows: seq<LockRow>, last: LockRow)
    requires forall i :: 0 <= i < |rows| ==> rows[i].id != last.id
    ensures Release(rows + [last], last.id, last.version) == rows
  {
    if rows != [] {
      assert (rows + [last])[1..] == rows[1..] + [last];
      ReleaseLast(rows[1..], last);
    } else {
      assert [last][1..] == [];
    }
  }

  /** The table invariant: ids are unique, positive and below the next id to allocate. */
  ghost predicate ValidTable(rows: seq<LockRow>, nextId: int) {
    && nextId > 0
    && UniqueIds(rows)
    && forall i :: 0 <= i < |rows| ==> 0 < rows[i].id < nextId
  }

  // ---------------------------------------------------------------------------
  // The steps of the service, as functions of the table

  /** What getOrCreate returns, and the table and next id it leaves. */
  datatype Fetched = Fetched(row: Option<LockRow>, err: Option<LockError>, rows: seq<LockRow>, nextId: int)

  /**
   * getOrCreate: the first row for the action; when there is none, a row with
   * the next id, version 0 and last execution 0 is inserted.
   */
  function GetOrCreateStep(rows: seq<LockRow>, nextId: int, failing: set<Stmt>, actionName: string): (f: Fetched)
    ensures f.err.Some? <==> f.row.None?
    ensures f.err.Some? ==> f.err.value.stmt in failing && f.rows == rows && f.nextId == nextId
    ensures f.row.Some? ==> f.row.value in f.rows && f.row.value.operationUid == actionName
    ensures FindStmt !in failing && FirstWithUid(rows, actionName).Some? ==> f.row == FirstWithUid(rows, actionName)
    ensures || (f.rows == rows && f.nextId == nextId)
            || (&& FirstWithUid(rows, actionName).None?
                && f.row == Some(LockRow(nextId, actionName, 0, 0))
                && f.rows == rows + [f.row.value] && f.nextId == nextId + 1)
  {
    if FindStmt in failing then Fetched(None, Some(DbError(FindStmt)), rows, nextId)
    else match FirstWithUid(rows, actionName)
      case Some(found) => Fetched(Some(found), None, rows, nextId)
      case None =>
        if InsertStmt in failing then Fetched(None, Some(DbError(InsertStmt)), rows, nextId)
        else
          var created := LockRow(nextId, actionName, 0, 0);
          Fetched(Some(created), None, rows + [created], nextId + 1)
  }

  lemma GetOrCreateKeepsValid(rows: seq<LockRow>, nextId: int, failing: set<Stmt>, actionName: string)
    requires ValidTable(rows, nextId)
    ensures ValidTable(GetOrCreateStep(rows, nextId, failing, actionName).rows, GetOrCreateStep(rows, nextId, failing, actionName).nextId)
  {
    var f := GetOrCreateStep(rows, nextId, failing, actionName);
    if f.rows != rows {
      var t := f.rows;
      forall i, j | 0 <= i < j < |t| ensures t[i].id != t[j].id {
        assert t[i] == rows[i];
        if j < |rows| {
          assert t[j] == rows[j];
        }
      }
      forall i | 0 <= i < |t| ensures 0 < t[i].id < f.nextId {
        if i < |rows| {
          assert t[i] == rows[i];
        }
      }
    }
  }

  /** What acquireLock returns, and the table it leaves. */
  datatype Acquired = Acquired(acquired: bool, newVersion: int, err: Option<LockError>, rows: seq<LockRow>)

  /**
   * acquireLock: the versioned update stamps the rows that still have the
   * version read; the lock is taken when exactly one row was affected. The
   * bumped version is returned in every case.
   */
  function AcquireStep(rows: seq<LockRow>, failing: set<Stmt>, row: LockRow, now: nat): (a: Acquired)
    ensures a.newVersion == row.version + 1
    ensures a.err.Some? <==> UpdateStmt in failing
    ensures a.err.Some? ==> a.err == Some(DbError(UpdateStmt)) && !a.acquired && a.rows == rows
    ensures a.acquired ==> exists x :: x in rows && x.id == row.id && x.version == row.version
  {
    if UpdateStmt in failing then Acquired(false, row.version + 1, Some(DbError(UpdateStmt)), rows)
    else
      var affected := CountMatching(rows, row.id, row.version);
      Acquired(affected == 1, row.version + 1, None, Stamp(rows, row.id, row.version, row.version + 1, UnixSeconds(now)))
  }

  /** With unique ids the update takes the lock exactly when the row still has the version read. */
  lemma AcquireStepTakesLock(rows: seq<LockRow>, failing: set<Stmt>, row: LockRow, now: nat)
    requires UniqueIds(rows) && UpdateStmt !in failing
    ensures AcquireStep(rows, failing, row, now).acquired <==> exists x :: x in rows && x.id == row.id && x.version == row.version
  {
    CountMatchingUnique(rows, row.id, row.version);
  }

  lemma AcquireKeepsValid(rows: seq<LockRow>, nextId: int, failing: set<Stmt>, row: LockRow, now: nat)
    requires ValidTable(rows, nextId)
    ensures ValidTable(AcquireStep(rows, failing, row, now).rows, nextId)
  {
    if UpdateStmt !in failing {
      StampKeepsUniqueIds(rows, row.id, row.version, row.version + 1, UnixSeconds(now));
      var t := AcquireStep(rows, failing, row, now).rows;
      forall i | 0 <= i < |t| ensures 0 < t[i].id < nextId {
        assert t[i].id == rows[i].id;
      }
    }
  }

  /** What releaseLock returns, and the table it leaves. */
  datatype Deleted = Deleted(err: Option<LockError>, rows: seq<LockRow>)

  /** releaseLock: deletes the row if it still has the version this server wrote. */
  function ReleaseStep(rows: seq<LockRow>, failing: set<Stmt>, newVersion: int, row: LockRow): (d: Deleted)
    ensures d.err.Some? <==> DeleteStmt in failing
    ensures d.err.Some? ==> d.err == Some(DbError(DeleteStmt)) && d.rows == rows
    ensures |d.rows| <= |rows|
  {
    if DeleteStmt in failing then Deleted(Some(DbError(DeleteStmt)), rows)
    else Deleted(None, Release(rows, row.id, newVersion))
  }

  lemma ReleaseKeepsValid(rows: seq<LockRow>, nextId: int, failing: set<Stmt>, newVersion: int, row: LockRow)
    requires ValidTable(rows, nextId)
    ensures ValidTable(ReleaseStep(rows, failing, newVersion, row).rows, nextId)
  {
    if DeleteStmt !in failing {
      ReleaseKeepsUniqueIds(rows, row.id, newVersion);
      var kept := Release(rows, row.id, newVersion);
      forall i | 0 <= i < |kept| ensures 0 < kept[i].id < nextId {
        assert kept[i] in kept;
        var j :| 0 <= j < |rows| && rows[j] == kept[i];
      }
    }
  }

  /** What a public call returns, whether `fn` ran, and the table and next id it leaves. */
  datatype Outcome = Outcome(err: Option<LockError>, ran: bool, rows: seq<LockRow>, nextId: int)

  /**
   * LockAndExecute: get or create the row, stop when it is within the
   * interval, otherwise run `fn` when the versioned update takes the lock.
   */
  function LockAndExecuteStep(rows: seq<LockRow>, nextId: int, failing: set<Stmt>, actionName: string, maxInterval: int, now: nat): (o: Outcome)
    ensures o.ran ==> o.err.None?
    ensures o.err.Some? ==> o.err.value.stmt in failing && o.err.value.stmt != DeleteStmt
  {
    var f := GetOrCreateStep(rows, nextId, failing, actionName);
    if f.err.Some? then Outcome(f.err, false, f.rows, f.nextId)
    else if IsLockWithinInterval(f.row.value, maxInterval, now) then Outcome(None, false, f.rows, f.nextId)
    else
      var a := AcquireStep(f.rows, failing, f.row.value, now);
      if a.err.Some? then Outcome(a.err, false, a.rows, f.nextId)
      else Outcome(None, a.acquired, a.rows, f.nextId)
  }

  /**
   * LockExecuteAndRelease: as LockAndExecute, then the row is deleted by the
   * bumped version whether or not the lock was taken; a failed delete is not
   * reported.
   */
  function LockExecuteAndReleaseStep(rows: seq<LockRow>, nextId: int, failing: set<Stmt>, actionName: string, maxInterval: int, now: nat): (o: Outcome)
    ensures o.ran ==> o.err.None?
    ensures o.err.Some? ==> o.err.value.stmt in failing && o.err.value.stmt != DeleteStmt
  {
    var f := GetOrCreateStep(rows, nextId, failing, actionName);
    if f.err.Some? then Outcome(f.err, false, f.rows, f.nextId)
    else if IsLockWithinInterval(f.row.value, maxInterval, now) then Outcome(None, false, f.rows, f.nextId)
    else
      var a := AcquireStep(f.rows, failing, f.row.value, now);
      if a.err.Some? then Outcome(a.err, false, a.rows, f.nextId)
      else
        var d := ReleaseStep(a.rows, failing, a.newVersion, f.row.value);
        Outcome(None, a.acquired, d.rows, f.nextId)
  }

  /** Both public calls keep the table invariant. */
  lemma StepsKeepValid(rows: seq<LockRow>, nextId: int, failing: set<Stmt>, actionName: string, maxInterval: int, now: nat)
    requires ValidTable(rows, nextId)
    ensures var o := LockAndExecuteStep(rows, nextId, failing, actionName, maxInterval, now); ValidTable(o.rows, o.nextId)
    ensures var o := LockExecuteAndReleaseStep(rows, nextId, failing, actionName, maxInterval, now); ValidTable(o.rows, o.nextId)
  {
    var f := GetOrCreateStep(rows, nextId, failing, actionName);
    GetOrCreateKeepsValid(rows, nextId, failing, actionName);
    if f.err.None? {
      var a := AcquireStep(f.rows, failing, f.row.value, now);
      AcquireKeepsValid(f.rows, f.nextId, failing, f.row.value, now);
      ReleaseKeepsValid(a.rows, f.nextId, failing, a.newVersion, f.row.value);
    }
  }

  /** A row still within the interval stops both calls: nothing runs and nothing changes. */
  lemma WithinIntervalChangesNothing(rows: seq<LockRow>, nextId: int, failing: set<Stmt>, actionName: string, maxInterval: int, now: nat)
    requires FindStmt !in failing && FirstWithUid(rows, actionName).Some?
    requires IsLockWithinInterval(FirstWithUid(rows, actionName).value, maxInterval, now)
    ensures LockAndExecuteStep(rows, nextId, failing, actionName, maxInterval, now) == Outcome(None, false, rows, nextId)
    ensures LockExecuteAndReleaseStep(rows, nextId, failing, actionName, maxInterval, now) == Outcome(None, false, rows, nextId)
  {
  }

  /**
   * An existing row outside the interval: the update takes the lock, `fn`
   * runs, and the row is stamped with the bumped version and now.
   */
  lemma LockAndExecuteRunsExisting(rows: seq<LockRow>, nextId: int, failing: set<Stmt>, actionName: string, maxInterval: int, now: nat)
    requires ValidTable(rows, nextId) && FindStmt !in failing && UpdateStmt !in failing
    requires FirstWithUid(rows, actionName).Some?
    requires !IsLockWithinInterval(FirstWithUid(rows, actionName).value, maxInterval, now)
    ensures var row := FirstWithUid(rows, actionName).value;
      LockAndExecuteStep(rows, nextId, failing, actionName, maxInterval, now)
        == Outcome(None, true, Stamp(rows, row.id, row.version, row.version + 1, UnixSeconds(now)), nextId)
  {
    AcquireStepTakesLock(rows, failing, FirstWithUid(rows, actionName).value, now);
  }

  /**
   * No row for the action yet: one is inserted, the lock on it is taken at
   * once, `fn` runs, and the new row holds version 1 and now.
   */
  lemma LockAndExecuteRunsFresh(rows: seq<LockRow>, nextId: int, failing: set<Stmt>, actionName: string, maxInterval: int, now: nat)
    requires ValidTable(rows, nextId)
    requires FindStmt !in failing && InsertStmt !in failing && UpdateStmt !in failing
    requires FirstWithUid(rows, actionName).None?
    ensures LockAndExecuteStep(rows, nextId, failing, actionName, maxInterval, now)
      == Outcome(None, true, rows + [LockRow(nextId, actionName, 1, UnixSeconds(now))], nextId + 1)
  {
    var created := LockRow(nextId, actionName, 0, 0);
    GetOrCreateKeepsValid(rows, nextId, failing, actionName);
    AcquireStepTakesLock(rows + [created], failing, created, now);
    assert created in rows + [created];
    StampFreshRow(rows, created, UnixSeconds(now));
  }

  /**
   * With release, an existing row outside the interval: `fn` runs, and when
   * the delete succeeds no row with that id is left.
   */
  lemma LockExecuteAndReleaseRunsExisting(rows: seq<LockRow>, nextId: int, failing: set<Stmt>, actionName: string, maxInterval: int, now: nat)
    requires ValidTable(rows, nextId) && FindStmt !in failing && UpdateStmt !in failing
    requires FirstWithUid(rows, actionName).Some?
    requires !IsLockWithinInterval(FirstWithUid(rows, actionName).value, maxInterval, now)
    ensures var o := LockExecuteAndReleaseStep(rows, nextId, failing, actionName, maxInterval, now);
      && o.err.None? && o.ran && o.nextId == nextId
      && (DeleteStmt !in failing ==> forall x :: x in o.rows ==> x.id != FirstWithUid(rows, actionName).value.id)
  {
    var row := FirstWithUid(rows, actionName).value;
    assert GetOrCreateStep(rows, nextId, failing, actionName) == Fetched(Some(row), None, rows, nextId);
    assert row in rows;
    AcquireStepTakesLock(rows, failing, row, now);
    var a := AcquireStep(rows, failing, row, now);
    assert a.acquired && a.rows == Stamp(rows, row.id, row.version, row.version + 1, UnixSeconds(now));
    if DeleteStmt !in failing {
      assert ReleaseStep(a.rows, failing, a.newVersion, row).rows == Release(a.rows, row.id, row.version + 1);
      StampThenReleaseRemovesRow(rows, row, UnixSeconds(now));
    }
  }

  /**
   * With release, no row for the action yet: `fn` runs, and when the delete
   * succeeds the table is as it was before the call.
   */
  lemma LockExecuteAndReleaseRunsFresh(rows: seq<LockRow>, nextId: int, failing: set<Stmt>, actionName: string, maxInterval: int, now: nat)
    requires ValidTable(rows, nextId)
    requires FindStmt !in failing && InsertStmt !in failing && UpdateStmt !in failing
    requires FirstWithUid(rows, actionName).None?
    ensures var o := LockExecuteAndReleaseStep(rows, nextId, failing, actionName, maxInterval, now);
      && o.err.None? && o.ran && o.nextId == nextId + 1
      && (DeleteStmt !in failing ==> o.rows == rows)
  {
    var created := LockRow(nextId, actionName, 0, 0);
    GetOrCreateKeepsValid(rows, nextId, failing, actionName);
    AcquireStepTakesLock(rows + [created], failing, created, now);
    assert created in rows + [created];
    StampFreshRow(rows, created, UnixSeconds(now));
    ReleaseLast(rows, created.(version := 1, lastExecution := UnixSeconds(now)));
  }

  // ---------------------------------------------------------------------------
  // The service

  class ServerLockService {
    var rows: seq<LockRow>
    var nextId: int
    var failing: set<Stmt>
    /** The action names `fn` ran for, in order. */
    var runs: seq<string>

    ghost predicate Valid()
      reads this
    {
      ValidTable(rows, nextId)
    }

    constructor ()
      ensures Valid()
      ensures rows == [] && nextId == 1 && failing == {} && runs == []
    {
      rows := [];
      nextId := 1;
      failing := {};
      runs := [];
    }

    method GetOrCreate(actionName: string) returns (row: Option<LockRow>, err: Option<LockError>)
      requires Valid()
      modifies this`rows, this`nextId
      ensures Valid()
      ensures Fetched(row, err, rows, nextId) == GetOrCreateStep(old(rows), old(nextId), failing, actionName)
    {
      GetOrCreateKeepsValid(rows, nextId, failing, actionName);
      if FindStmt in failing {
        return None, Some(DbError(FindStmt));
      }
      var found := FirstWithUid(rows, actionName);
      if found.Some? {
        return found, None;
      }
      if InsertStmt in failing {
        return None, Some(DbError(InsertStmt));
      }
      var created := LockRow(nextId, actionName, 0, 0);
      rows := rows + [created];
      nextId := nextId + 1;
      return Some(created), None;
    }

    method AcquireLock(row: LockRow, now: nat) returns (acquired: bool, newVersion: int, err: Option<LockError>)
      requires Valid()
      modifies this`rows
      ensures Valid()
      ensures Acquired(acquired, newVersion, err, rows) == AcquireStep(old(rows), failing, row, now)
    {
      AcquireKeepsValid(rows, nextId, failing, row, now);
      newVersion := row.version + 1;
      if UpdateStmt in failing {
        return false, newVersion, Some(DbError(UpdateStmt));
      }
      var affected := CountMatching(rows, row.id, row.version);
      rows := Stamp(rows, row.id, row.version, newVersion, UnixSeconds(now));
      return affected == 1, newVersion, None;
    }

    method ReleaseLock(newVersion: int, row: LockRow) returns (err: Option<LockError>)
      requires Valid()
      modifies this`rows
      ensures Valid()
      ensures Deleted(err, rows) == ReleaseStep(old(rows), failing, newVersion, row)
    {
      ReleaseKeepsValid(rows, nextId, failing, newVersion, row);
      if DeleteStmt in failing {
        return Some(DbError(DeleteStmt));
      }
      rows := Release(rows, row.id, newVersion);
      return None;
    }

    method LockAndExecute(actionName: string, maxInterval: int, now: nat) returns (err: Option<LockError>)
      requires Valid()
      modifies this`rows, this`nextId, this`runs
      ensures Valid()
      ensures var o := LockAndExecuteStep(old(rows), old(nextId), failing, actionName, maxInterval, now);
        && err == o.err && rows == o.rows && nextId == o.nextId
        && runs == if o.ran then old(runs) + [actionName] else old(runs)
    {
      var row, e := GetOrCreate(actionName);
      if e.Some? {
        return e;
      }
      if IsLockWithinInterval(row.value, maxInterval, now) {
        return None;
      }
      var acquired, _, e2 := AcquireLock(row.value, now);
      if e2.Some? {
        return e2;
      }
      if acquired {
        runs := runs + [actionName];
      }
      return None;
    }

    method LockExecuteAndRelease(actionName: string, maxInterval: int, now: nat) returns (err: Option<LockError>)
      requires Valid()
      modifies this`rows, this`nextId, this`runs
      ensures Valid()
      ensures var o := LockExecuteAndReleaseStep(old(rows), old(nextId), failing, actionName, maxInterval, now);
        && err == o.err && rows == o.rows && nextId == o.nextId
        && runs == if o.ran then old(runs) + [actionName] else old(runs)
    {
      var row, e := GetOrCreate(actionName);
      if e.Some? {
        return e;
      }
      if IsLockWithinInterval(row.value, maxInterval, now) {
        return None;
      }
      var acquired, newVersion, e2 := AcquireLock(row.value, now);
      if e2.Some? {
        return e2;
      }
      if acquired {
        runs := runs + [actionName];
      }
      var _ := ReleaseLock(newVersion, row.value);
      return None;
    }
  }

  // ---------------------------------------------------------------------------
  // The integration scenarios

  /** A first LockAndExecute on an empty table with nothing failing inserts the row, stamps it and runs the action. */
  method RunOnEmptyTable(sl: ServerLockService, name: string, maxInterval: int, now: nat)
    requires sl.Valid() && sl.rows == [] && sl.failing == {}
    modifies sl`rows, sl`nextId, sl`runs
    ensures sl.Valid()
    ensures sl.rows == [LockRow(old(sl.nextId), name, 1, UnixSeconds(now))] && sl.nextId == old(sl.nextId) + 1
    ensures sl.runs == old(sl.runs) + [name]
  {
    LockAndExecuteRunsFresh([], sl.nextId, {}, name, maxInterval, now);
    var _ := sl.LockAndExecute(name, maxInterval, now);
  }

  /** LockAndExecute on the action's only row, with nothing failing, runs it exactly when the row is outside the interval. */
  method RunOnSingleRow(sl: ServerLockService, row: LockRow, maxInterval: int, now: nat)
    requires sl.Valid() && sl.rows == [row] && sl.failing == {}
    modifies sl`rows, sl`nextId, sl`runs
    ensures sl.Valid() && sl.nextId == old(sl.nextId)
    ensures IsLockWithinInterval(row, maxInterval, now) ==> sl.rows == [row] && sl.runs == old(sl.runs)
    ensures !IsLockWithinInterval(row, maxInterval, now) ==>
      && sl.rows == [row.(version := row.version + 1, lastExecution := UnixSeconds(now))]
      && sl.runs == old(sl.runs) + [row.operationUid]
  {
    var name := row.operationUid;
    if IsLockWithinInterval(row, maxInterval, now) {
      WithinIntervalChangesNothing([row], sl.nextId, {}, name, maxInterval, now);
    } else {
      LockAndExecuteRunsExisting([row], sl.nextId, {}, name, maxInterval, now);
    }
    var _ := sl.LockAndExecute(name, maxInterval, now);
  }

  /**
   * Repeated LockAndExecute with a one-hour interval runs the action once;
   * with a one-millisecond interval, a later call runs it again.
   */
  method LockAndExecuteScenario(t1: nat, t2: nat, t3: nat, t4: nat) returns (counts: seq<int>)
    requires NanosPerSecond <= t1 <= t2 <= t3 < t1 + Hour - NanosPerSecond
    requires t4 >= t1 + Millisecond
    ensures counts == [1, 1, 1, 2]
  {
    var name := "test-operation";
    var sl := new ServerLockService();
    RunOnEmptyTable(sl, name, Hour, t1);
    counts := [|sl.runs|];
    var stamped := LockRow(1, name, 1, UnixSeconds(t1));
    StampedRowWithinInterval(stamped, t1, t2, Hour);
    RunOnSingleRow(sl, stamped, Hour, t2);
    counts := counts + [|sl.runs|];
    StampedRowWithinInterval(stamped, t1, t3, Hour);
    RunOnSingleRow(sl, stamped, Hour, t3);
    counts := counts + [|sl.runs|];
    ElapsedRowNotWithinInterval(stamped, t1, t4, Millisecond);
    RunOnSingleRow(sl, stamped, Millisecond, t4);
    counts := counts + [|sl.runs|];
  }

  /** LockExecuteAndRelease on an empty table with nothing failing runs the action and leaves the table empty. */
  method RunAndReleaseOnEmptyTable(sl: ServerLockService, name: string, maxInterval: int, now: nat)
    requires sl.Valid() && sl.rows == [] && sl.failing == {}
    modifies sl`rows, sl`nextId, sl`runs
    ensures sl.Valid() && sl.rows == []
    ensures sl.runs == old(sl.runs) + [name]
  {
    LockExecuteAndReleaseRunsFresh([], sl.nextId, {}, name, maxInterval, now);
    var _ := sl.LockExecuteAndRelease(name, maxInterval, now);
  }

  /** LockExecuteAndRelease runs the action on every call, whatever the interval. */
  method LockExecuteAndReleaseScenario(t1: nat, t2: nat, t3: nat) returns (counts: seq<int>)
    requires t1 <= t2 <= t3
    ensures counts == [1, 2, 3]
  {
    var name := "test-operation";
    var sl := new ServerLockService();
    RunAndReleaseOnEmptyTable(sl, name, Hour, t1);
    counts := [|sl.runs|];
    RunAndReleaseOnEmptyTable(sl, name, Hour, t2);
    counts := counts + [|sl.runs|];
    RunAndReleaseOnEmptyTable(sl, name, Hour, t3);
    counts := counts + [|sl.runs|];
  }
}
