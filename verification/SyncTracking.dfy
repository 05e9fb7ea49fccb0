/**
 Tracking of one sync job: a run marks itself started, asks the circuit breaker, works, and records
 its outcome, with two fallbacks when recording fails. Every database call may fail.
 */
module SyncTracking {
  import opened Common

  type Time = int

  // ----- the tables -----

  datatype Health = Unknown | Warning | Healthy | Failing

  /** The job's row in sync_status. */
  datatype Row = Row(status: Health, failures: nat, lastFailure: Option<Time>)

  /** The status of a row of sync_history. */
  datatype RunStatus = Running | Success | Errored | Cancelled

  /** The updates a run makes to the job's sync_status row. */
  datatype Write = Started | Succeeded | Failed(at: Time) | Skipped(at: Time)

  datatype Change = NewHistory | SetHistory(id: nat, status: RunStatus) | SetStatus(write: Write)

  /** The committed state; the log lists the committed updates of the status row. A job may have no such row. */
  datatype Db = Db(row: Option<Row>, history: seq<RunStatus>, log: seq<Write>)

  function RowAfter(r: Row, w: Write): Row {
    match w
    case Started => r.(status := Warning)
    case Succeeded => r.(status := Healthy, failures := 0)
    case Failed(at) => Row(Failing, r.failures + 1, Some(at))
    case Skipped(at) => r.(failures := r.failures + 1, lastFailure := Some(at))
  }

  function Apply(db: Db, c: Change): Db {
    match c
    case NewHistory => db.(history := db.history + [Running])
    case SetHistory(id, status) => if id < |db.history| then db.(history := db.history[id := status]) else db
    case SetStatus(w) =>
      match db.row
      case None => db
      case Some(r) => db.(row := Some(RowAfter(r, w)), log := db.log + [w])
  }

  function ApplyAll(db: Db, cs: seq<Change>): Db {
    if cs == [] then db else Apply(ApplyAll(db, cs[..|cs| - 1]), cs[|cs| - 1])
  }

  lemma ApplyTwo(db: Db, c: Change, d: Change)
    ensures ApplyAll(db, [c]) == Apply(db, c)
    ensures ApplyAll(db, [c, d]) == Apply(Apply(db, c), d)
  {
    assert [c][..0] == [] && [c, d][..1] == [c];
    assert ApplyAll(db, []) == db;
  }

  // ----- a run's inputs -----

  /** Which database calls fail, in the order a run makes them. */
  datatype Faults = Faults(
    connect: bool, insert: bool, mark: bool, startCommit: bool,
    read: bool,
    cancelHistory: bool, cancelStatus: bool, cancelCommit: bool,
    rollback: bool,
    history: bool, status: bool, commit: bool, rollbackAgain: bool,
    fallback: bool, fallbackCommit: bool,
    reconnect: bool, recovery: bool, recoveryCommit: bool)

  /** A statement, one inside a savepoint, a commit, a rollback or an exception of the job's own work. */
  datatype BodyOp = Statement(fails: bool, caught: bool)
                  | Guarded(fails: bool, caught: bool)
                  | CommitWork(fails: bool, caught: bool)
                  | RollbackWork(fails: bool, caught: bool)
                  | Raise

  /** now is when the breaker looks at the clock; stamp is the database's time for a failure or a skip. */
  datatype Run = Run(dryRun: bool, now: Time, stamp: Time, body: seq<BodyOp>, faults: Faults)

  datatype Config = Config(threshold: int, timeout: int)

  // ----- what a run does, as functions -----

  function Starts(run: Run): bool {
    !run.dryRun && !run.faults.connect && !run.faults.insert && !run.faults.mark && !run.faults.startCommit
  }

  function AfterStart(db: Db): Db {
    Apply(Apply(db, NewHistory), SetStatus(Started))
  }

  /** The breaker's verdict on the row it reads. */
  predicate Open(row: Option<Row>, now: Time, cfg: Config) {
    match row
    case None => false
    case Some(r) =>
      && r.failures >= Threshold(cfg)
      && r.lastFailure.Some?
      && now - r.lastFailure.value < cfg.timeout
  }

  function Threshold(cfg: Config): int {
    if cfg.threshold > 1 then cfg.threshold else 1
  }

  /** Whether an operation of the body raises, and whether the transaction is aborted after it. */
  function OpEnd(op: BodyOp, aborted: bool): (r: (bool, bool)) {
    match op
    case Statement(fails, _) => (fails || aborted, fails || aborted)
    case Guarded(fails, _) => (fails || aborted, aborted)
    case CommitWork(fails, _) => (fails, false)
    case RollbackWork(fails, _) => (fails, fails && aborted)
    case Raise => (true, aborted)
  }

  predicate Uncaught(op: BodyOp) {
    op.Raise? || !op.caught
  }

  /** The same for the whole body: an exception that nothing catches ends it. */
  function BodyEnd(ops: seq<BodyOp>, aborted: bool): (r: (bool, bool)) {
    if ops == [] then (false, aborted)
    else
      var (raised, aborted') := OpEnd(ops[0], aborted);
      if raised && Uncaught(ops[0]) then (true, aborted') else BodyEnd(ops[1..], aborted')
  }

  predicate MainWritten(f: Faults, aborted: bool) {
    !aborted && !f.history && !f.status && !f.commit
  }

  predicate FallbackWritten(f: Faults, aborted: bool) {
    !((aborted || f.history || f.status) && f.rollbackAgain) && !f.fallback && !f.fallbackCommit
  }

  predicate RecoveryWritten(f: Faults) {
    !f.reconnect && !f.recovery && !f.recoveryCommit
  }

  /** The transaction's state when the outcome is about to be recorded. */
  predicate AbortedAtExit(raised: bool, aborted: bool, f: Faults) {
    aborted && (!raised || f.rollback)
  }

  predicate SkipWritten(f: Faults) {
    !f.cancelHistory && !f.cancelStatus && !f.cancelCommit
  }

  /** Where a run's outcome ends up: in both tables, in the status row alone, or nowhere. */
  datatype Written = Nowhere | Skip | Main | Fallback | Recovery

  function AfterWrite(db: Db, id: nat, w: Written, raised: bool, stamp: Time): Db {
    match w
    case Nowhere => db
    case Skip => Apply(Apply(db, SetHistory(id, Cancelled)), SetStatus(Skipped(stamp)))
    case Main =>
      Apply(Apply(db, SetHistory(id, if raised then Errored else Success)),
            SetStatus(if raised then Failed(stamp) else Succeeded))
    case _ => Apply(db, SetStatus(Failed(stamp)))
  }

  /** Skip if the skip is recorded. */
  function SkipWrite(f: Faults): Written {
    if SkipWritten(f) then Skip else Nowhere
  }

  /** The first of the three ways of recording that goes through. */
  function ExitWrite(raised: bool, aborted: bool, f: Faults): Written {
    var still := AbortedAtExit(raised, aborted, f);
    if MainWritten(f, still) then Main
    else if FallbackWritten(f, still) then Fallback
    else if RecoveryWritten(f) then Recovery
    else Nowhere
  }

  /** The breaker reads the row and finds it open. */
  predicate Skips(db: Db, run: Run, cfg: Config) {
    Starts(run) && !run.faults.read && Open(AfterStart(db).row, run.now, cfg)
  }

  function RunWrite(db: Db, run: Run, cfg: Config): Written {
    var (raised, aborted) := BodyEnd(run.body, run.faults.read);
    if Skips(db, run, cfg) then SkipWrite(run.faults) else ExitWrite(raised, aborted, run.faults)
  }

  function AfterRun(db: Db, run: Run, cfg: Config): Db {
    if !Starts(run) then db
    else
      var (raised, _) := BodyEnd(run.body, run.faults.read);
      AfterWrite(AfterStart(db), |db.history|, RunWrite(db, run, cfg), raised, run.stamp)
  }

  function AfterRuns(db: Db, runs: seq<Run>, cfg: Config): Db {
    if runs == [] then db else AfterRun(AfterRuns(db, runs[..|runs| - 1], cfg), runs[|runs| - 1], cfg)
  }

  // ----- the same, step by step -----

  class Database {
    var state: Db

    constructor (state: Db)
      ensures this.state == state
    {
      this.state := state;
    }
  }

  /** One connection: changes wait for a commit, and after an error only ending the transaction works. */
  class Connection {
    const db: Database
    var pending: seq<Change>
    var aborted: bool

    constructor (db: Database)
      ensures this.db == db && pending == [] && !aborted
    {
      this.db := db;
      pending := [];
      aborted := false;
    }

    method Execute(c: Change, fails: bool) returns (raised: bool)
      modifies this
      ensures raised == (old(aborted) || fails) && aborted == raised
      ensures pending == if raised then old(pending) else old(pending) + [c]
    {
      raised := aborted || fails;
      if raised {
        aborted := true;
      } else {
        pending := pending + [c];
      }
    }

    /** A statement that changes no tracking table. */
    method Query(fails: bool) returns (raised: bool)
      modifies this
      ensures raised == (old(aborted) || fails) && aborted == raised && pending == old(pending)
    {
      raised := aborted || fails;
      aborted := raised;
    }

    /** All or nothing. Committing an aborted transaction rolls it back without an error. */
    method Commit(fails: bool) returns (raised: bool)
      modifies this, db
      ensures raised == fails && !aborted && pending == []
      ensures db.state == if fails || old(aborted) then old(db.state) else ApplyAll(old(db.state), old(pending))
    {
      raised := fails;
      if !fails && !aborted {
        db.state := ApplyAll(db.state, pending);
      }
      pending, aborted := [], false;
    }

    method Rollback(fails: bool) returns (raised: bool)
      modifies this
      ensures raised == fails
      ensures if fails then pending == old(pending) && aborted == old(aborted) else pending == [] && !aborted
    {
      raised := fails;
      if !fails {
        pending, aborted := [], false;
      }
    }
  }

  datatype Raised = Nothing | BreakerOpen | Exception

  class SyncContext {
    const db: Database
    const dryRun: bool
    var conn: Connection?
    var historyId: Option<nat>

    constructor (db: Database, dryRun: bool)
      ensures this.db == db && this.dryRun == dryRun && conn == null && historyId == None
    {
      this.db := db;
      this.dryRun := dryRun;
      conn := null;
      historyId := None;
    }

    /** Entered: a clean connection of its own, and a history row unless it is a dry run. */
    ghost predicate Ready()
      reads this, conn
    {
      conn != null && conn.db == db && conn.pending == [] && (historyId.Some? <==> !dryRun)
    }

    method Enter(f: Faults) returns (raised: bool)
      requires conn == null && historyId == None
      modifies this, db
      ensures raised == (f.connect || (!dryRun && (f.insert || f.mark || f.startCommit)))
      ensures db.state == if raised || dryRun then old(db.state) else AfterStart(old(db.state))
      ensures !raised ==> Ready() && !conn.aborted && fresh(conn)
      ensures !raised && !dryRun ==> historyId == Some(|old(db.state).history|)
    {
      if f.connect {
        return true;
      }
      conn := new Connection(db);
      raised := false;
      if !dryRun {
        raised := StartSync(f);
      }
    }

    method StartSync(f: Faults) returns (raised: bool)
      requires conn != null && conn.db == db && conn.pending == [] && !conn.aborted && historyId == None && !dryRun
      modifies this, conn, db
      ensures conn == old(conn)
      ensures raised == (f.insert || f.mark || f.startCommit)
      ensures db.state == if raised then old(db.state) else AfterStart(old(db.state))
      ensures !raised ==> Ready() && !conn.aborted && historyId == Some(|old(db.state).history|)
    {
      raised := conn.Execute(NewHistory, f.insert);
      if raised { return; }
      var id := |db.state.history|;
      raised := conn.Execute(SetStatus(Started), f.mark);
      if raised { return; }
      ApplyTwo(db.state, NewHistory, SetStatus(Started));
      assert conn.pending == [NewHistory, SetStatus(Started)];
      raised := conn.Commit(f.startCommit);
      if !raised {
        historyId := Some(id);
      }
    }

    /** Raises only when the breaker is open; an error of its own is swallowed, and the transaction stays aborted. */
    method CheckCircuitBreaker(now: Time, cfg: Config, f: Faults) returns (open: bool)
      requires Ready() && !conn.aborted
      modifies conn
      ensures Ready()
      ensures open == (!dryRun && !f.read && Open(db.state.row, now, cfg))
      ensures conn.aborted == (!dryRun && f.read)
    {
      if dryRun {
        return false;
      }
      var threshold := if cfg.threshold > 1 then cfg.threshold else 1;
      var failed := conn.Query(f.read);
      if failed {
        return false;
      }
      match db.state.row {
        case None => return false;
        case Some(row) =>
          if row.failures < threshold || row.lastFailure == None {
            return false;
          }
          if now - row.lastFailure.value >= cfg.timeout {
            return false;
          }
          return true;
      }
    }

    /** The job's own work, on the same connection. */
    method Body(ops: seq<BodyOp>) returns (raised: bool)
      requires Ready()
      modifies conn, db
      ensures Ready() && db.state == old(db.state)
      ensures (raised, conn.aborted) == BodyEnd(ops, old(conn.aborted))
    {
      var i := 0;
      while i < |ops|
        invariant i <= |ops| && Ready() && db.state == old(db.state)
        invariant BodyEnd(ops[i..], conn.aborted) == BodyEnd(ops, old(conn.aborted))
      {
        assert ops[i..][1..] == ops[i + 1..];
        var failed := true;
        match ops[i] {
          case Statement(fails, _) => failed := conn.Query(fails);
          case Guarded(fails, _) => failed := conn.aborted || fails;
          case CommitWork(fails, _) => failed := conn.Commit(fails);
          case RollbackWork(fails, _) => failed := conn.Rollback(fails);
          case Raise =>
        }
        if failed && Uncaught(ops[i]) {
          return true;
        }
        i := i + 1;
      }
      return false;
    }

    method CompleteSync(failed: bool, stamp: Time, f: Faults) returns (raised: bool)
      requires Ready() && historyId.Some?
      modifies conn, db
      ensures raised == !MainWritten(f, old(conn.aborted))
      ensures raised ==> db.state == old(db.state)
      ensures raised ==> conn.aborted == (old(conn.aborted) || f.history || f.status)
      ensures raised && !conn.aborted ==> conn.pending == []
      ensures !raised ==> db.state == AfterWrite(old(db.state), historyId.value, Main, failed, stamp)
    {
      var outcome := SetHistory(historyId.value, if failed then Errored else Success);
      var status := SetStatus(if failed then Failed(stamp) else Succeeded);
      raised := conn.Execute(outcome, f.history);
      if raised { return; }
      raised := conn.Execute(status, f.status);
      if raised { return; }
      ApplyTwo(db.state, outcome, status);
      assert conn.pending == [outcome, status];
      raised := conn.Commit(f.commit);
    }

    method RecordSkip(stamp: Time, f: Faults) returns (raised: bool)
      requires Ready() && historyId.Some? && !conn.aborted
      modifies conn, db
      ensures raised == !SkipWritten(f)
      ensures db.state == AfterWrite(old(db.state), historyId.value, if raised then Nowhere else Skip, true, stamp)
    {
      var cancelled := SetHistory(historyId.value, Cancelled);
      raised := conn.Execute(cancelled, f.cancelHistory);
      if raised { return; }
      raised := conn.Execute(SetStatus(Skipped(stamp)), f.cancelStatus);
      if raised { return; }
      ApplyTwo(db.state, cancelled, SetStatus(Skipped(stamp)));
      assert conn.pending == [cancelled, SetStatus(Skipped(stamp))];
      raised := conn.Commit(f.cancelCommit);
    }

    /** The first fallback, on the connection of the run. */
    method Fallback(stamp: Time, f: Faults) returns (raised: bool)
      requires conn != null && conn.db == db && (!conn.aborted ==> conn.pending == [])
      modifies conn, db
      ensures raised == (old(conn.aborted) || f.fallback || f.fallbackCommit)
      ensures db.state == if raised then old(db.state) else Apply(old(db.state), SetStatus(Failed(stamp)))
    {
      var failed := SetStatus(Failed(stamp));
      raised := conn.Execute(failed, f.fallback);
      if raised { return; }
      ApplyTwo(db.state, failed, failed);
      assert conn.pending == [failed];
      raised := conn.Commit(f.fallbackCommit);
    }

    /** The second fallback, on a connection of its own. */
    method Recover(stamp: Time, f: Faults) returns (raised: bool)
      modifies db
      ensures raised == !RecoveryWritten(f)
      ensures db.state == if raised then old(db.state) else Apply(old(db.state), SetStatus(Failed(stamp)))
    {
      if f.reconnect { return true; }
      var own := new Connection(db);
      var failed := SetStatus(Failed(stamp));
      raised := own.Execute(failed, f.recovery);
      if raised { return; }
      ApplyTwo(db.state, failed, failed);
      assert own.pending == [failed];
      raised := own.Commit(f.recoveryCommit);
    }

    /** Nothing is recorded twice: each way is tried only after the one before it raised. */
    method Exit(exc: Raised, stamp: Time, f: Faults) returns (ghost written: Written)
      requires Ready()
      requires exc == BreakerOpen ==> !conn.aborted && !dryRun
      modifies conn, db
      ensures dryRun ==> written == Nowhere && db.state == old(db.state)
      ensures !dryRun ==>
                && written == (if exc == BreakerOpen then SkipWrite(f)
                               else ExitWrite(exc == Exception, old(conn.aborted), f))
                && db.state == AfterWrite(old(db.state), historyId.value, written, exc == Exception, stamp)
    {
      written := Nowhere;
      if exc == BreakerOpen {
        var raised := RecordSkip(stamp, f);
        return if raised then Nowhere else Skip;
      }
      if exc == Exception {
        var _ := conn.Rollback(f.rollback);
      }
      if !dryRun {
        var raised := CompleteSync(exc == Exception, stamp, f);
        written := Main;
        if raised {
          var _ := conn.Rollback(f.rollbackAgain);
          raised := Fallback(stamp, f);
          written := Written.Fallback;
          if raised {
            raised := Recover(stamp, f);
            written := if raised then Nowhere else Recovery;
          }
        }
      }
    }
  }

  /**
   A whole run of a sync job. A run that starts shows 'warning' in the end exactly when no way of
   recording its own outcome went through, or it was skipped; and its history row stays 'running'
   exactly when neither the main write nor a skip's went through.
   */
  method RunSync(db: Database, run: Run, cfg: Config) returns (started: bool, ghost written: Written)
    modifies db
    ensures db.state == AfterRun(old(db.state), run, cfg) && started == Starts(run)
    ensures started ==> written == RunWrite(old(db.state), run, cfg)
    ensures started && old(db.state).row.Some? ==>
              && (db.state.row.value.status == Warning <==> written == Nowhere || written == Skip)
              && (db.state.row.value.status == Healthy <==> written == Main && !BodyEnd(run.body, run.faults.read).0)
    ensures started ==>
              && |db.state.history| == |old(db.state).history| + 1
              && (db.state.history[|old(db.state).history|] == Running <==> written != Main && written != Skip)
  {
    var ctx := new SyncContext(db, run.dryRun);
    var raised := ctx.Enter(run.faults);
    started, written := !raised && !run.dryRun, Nowhere;
    if raised {
      return;
    }
    var open := ctx.CheckCircuitBreaker(run.now, cfg, run.faults);
    if open {
      written := ctx.Exit(BreakerOpen, run.stamp, run.faults);
      return;
    }
    raised := ctx.Body(run.body);
    written := ctx.Exit(if raised then Exception else Nothing, run.stamp, run.faults);
  }
}
