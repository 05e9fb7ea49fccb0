/** What runs of a sync job keep, over any sequence of runs and any failures of the database. */
module SyncTheorems {
  import opened Common
  import opened SyncTracking

  // ----- the counter and what was recorded -----

  /** Recorded failures and skips since the last recorded success. */
  function SinceSuccess(log: seq<Write>): nat {
    if log == [] then 0
    else
      match log[|log| - 1]
      case Succeeded => 0
      case Started => SinceSuccess(log[..|log| - 1])
      case _ => SinceSuccess(log[..|log| - 1]) + 1
  }

  /** When the last failure or skip was recorded. */
  function LastStamp(log: seq<Write>): Option<Time> {
    if log == [] then None
    else
      match log[|log| - 1]
      case Failed(at) => Some(at)
      case Skipped(at) => Some(at)
      case _ => LastStamp(log[..|log| - 1])
  }

  ghost predicate Tracked(db: Db) {
    match db.row
    case None => db.log == []
    case Some(r) => r.failures == SinceSuccess(db.log) && r.lastFailure == LastStamp(db.log)
  }

  lemma ApplyTracks(db: Db, c: Change)
    requires Tracked(db)
    ensures Tracked(Apply(db, c))
  {
    if c.SetStatus? && db.row.Some? {
      assert (db.log + [c.write])[..|db.log|] == db.log;
    }
  }

  /** What a started run records in the status row, if anything. */
  function Outcome(db: Db, run: Run, cfg: Config): Option<Write> {
    match RunWrite(db, run, cfg)
    case Nowhere => None
    case Skip => Some(Skipped(run.stamp))
    case Main => if BodyEnd(run.body, run.faults.read).0 then Some(Failed(run.stamp)) else Some(Succeeded)
    case _ => Some(Failed(run.stamp))
  }

  /** The row and the log after an update of the row, if any. */
  predicate Updates(before: Db, after: Db, w: Option<Write>) {
    match w
    case None => after.row == before.row && after.log == before.log
    case Some(w) => after.row == Apply(before, SetStatus(w)).row && after.log == Apply(before, SetStatus(w)).log
  }

  lemma RunWrites(db: Db, run: Run, cfg: Config)
    requires Starts(run)
    ensures Updates(AfterStart(db), AfterRun(db, run, cfg), Outcome(db, run, cfg))
  {
  }

  /** How a run extends the log: nothing, a start, or a start and one outcome. */
  ghost predicate OneOutcome(before: seq<Write>, after: seq<Write>) {
    || after == before
    || after == before + [Started]
    || exists w: Write :: w != Started && after == before + [Started, w]
  }

  /** Whatever fails, one run records at most one outcome, so it adds at most one to the counter. */
  lemma RunRecordsOnce(db: Db, run: Run, cfg: Config)
    requires Tracked(db)
    ensures Tracked(AfterRun(db, run, cfg))
    ensures OneOutcome(db.log, AfterRun(db, run, cfg).log)
    ensures db.row.Some? <==> AfterRun(db, run, cfg).row.Some?
    ensures db.row.Some? ==> AfterRun(db, run, cfg).row.value.failures <= db.row.value.failures + 1
  {
    if Starts(run) {
      RunWrites(db, run, cfg);
      ApplyTracks(db, NewHistory);
      ApplyTracks(Apply(db, NewHistory), SetStatus(Started));
      match Outcome(db, run, cfg) {
        case None =>
        case Some(w) =>
          ApplyTracks(AfterStart(db), SetStatus(w));
          assert db.log + [Started] + [w] == db.log + [Started, w];
      }
    }
  }

  // ----- the counter and the table of runs -----

  /** Rows of sync_history after its last 'success' that ended in an error or were cancelled. */
  function EndedBadly(history: seq<RunStatus>): nat {
    if history == [] then 0
    else EndedStep(EndedBadly(history[..|history| - 1]), history[|history| - 1])
  }

  function EndedStep(n: nat, status: RunStatus): nat {
    match status
    case Success => 0
    case Running => n
    case _ => n + 1
  }

  /** Rows after the last 'success' that still say 'running'. */
  function LeftRunning(history: seq<RunStatus>): nat {
    if history == [] then 0
    else RunningStep(LeftRunning(history[..|history| - 1]), history[|history| - 1])
  }

  function RunningStep(n: nat, status: RunStatus): nat {
    match status
    case Success => 0
    case Running => n + 1
    case _ => n
  }

  /**
   consecutive_failures against sync_history: every failed or cancelled row is counted, and anything
   more is a failure recorded while its run's row was left 'running'.
   */
  ghost predicate TablesAgree(db: Db) {
    db.row.Some? ==>
      EndedBadly(db.history) <= db.row.value.failures <= EndedBadly(db.history) + LeftRunning(db.history)
  }

  lemma HistorySnoc(history: seq<RunStatus>, status: RunStatus)
    ensures EndedBadly(history + [status]) == EndedStep(EndedBadly(history), status)
    ensures LeftRunning(history + [status]) == RunningStep(LeftRunning(history), status)
  {
    assert (history + [status])[..|history|] == history;
  }

  /** The row a started run leaves in the table of runs. */
  function HistoryRow(db: Db, run: Run, cfg: Config): RunStatus {
    match RunWrite(db, run, cfg)
    case Skip => Cancelled
    case Main => if BodyEnd(run.body, run.faults.read).0 then Errored else Success
    case _ => Running
  }

  lemma RunAddsRow(db: Db, run: Run, cfg: Config)
    requires Starts(run)
    ensures AfterRun(db, run, cfg).history == db.history + [HistoryRow(db, run, cfg)]
  {
    var status := HistoryRow(db, run, cfg);
    assert (db.history + [Running])[|db.history| := status] == db.history + [status];
  }

  lemma RunKeepsTablesAgree(db: Db, run: Run, cfg: Config)
    requires TablesAgree(db)
    ensures TablesAgree(AfterRun(db, run, cfg))
  {
    if Starts(run) {
      RunWrites(db, run, cfg);
      RunAddsRow(db, run, cfg);
      HistorySnoc(db.history, HistoryRow(db, run, cfg));
    }
  }

  /**
   After any runs and any failures of the database, consecutive_failures is between the failed and
   cancelled rows of sync_history since its last 'success' and those together with the rows left
   'running'; and it is the number of failures and skips whose recording went through.
   */
  lemma {:induction false} CounterIsHistory(db: Db, runs: seq<Run>, cfg: Config)
    requires Tracked(db) && TablesAgree(db)
    ensures Tracked(AfterRuns(db, runs, cfg)) && TablesAgree(AfterRuns(db, runs, cfg))
    ensures AfterRuns(db, runs, cfg).row.Some? <==> db.row.Some?
  {
    if runs != [] {
      CounterIsHistory(db, runs[..|runs| - 1], cfg);
      RunRecordsOnce(AfterRuns(db, runs[..|runs| - 1], cfg), runs[|runs| - 1], cfg);
      RunKeepsTablesAgree(AfterRuns(db, runs[..|runs| - 1], cfg), runs[|runs| - 1], cfg);
    }
  }

  // ----- the status runs leave -----

  /** The run starts, and is skipped or fails in all three ways of recording its outcome. */
  predicate LeavesWarning(db: Db, run: Run, cfg: Config) {
    Starts(run) && (RunWrite(db, run, cfg) == Nowhere || RunWrite(db, run, cfg) == Skip)
  }

  /** The last of the runs that started left 'warning'; with none started, the status was 'warning' before. */
  predicate LastLeftWarning(db: Db, runs: seq<Run>, cfg: Config) {
    if runs == [] then db.row.Some? && db.row.value.status == Warning
    else
      var init, last := runs[..|runs| - 1], runs[|runs| - 1];
      if Starts(last) then LeavesWarning(AfterRuns(db, init, cfg), last, cfg) else LastLeftWarning(db, init, cfg)
  }

  /** How many of the runs started and wrote neither their outcome nor a skip to both tables. */
  function Unfinished(db: Db, runs: seq<Run>, cfg: Config): nat {
    if runs == [] then 0
    else
      var init, last := runs[..|runs| - 1], runs[|runs| - 1];
      Unfinished(db, init, cfg)
      + if Starts(last) && HistoryRow(AfterRuns(db, init, cfg), last, cfg) == Running then 1 else 0
  }

  /**
   After any runs the job shows 'warning' exactly when the last run that started was skipped or could
   not record its outcome in any of the three ways, and the rows of sync_history left 'running' are one
   for each run whose main write (for a skip, the skip's write) did not go through.
   */
  lemma {:induction false} StuckExactly(db: Db, runs: seq<Run>, cfg: Config)
    requires db.row.Some?
    ensures var after := AfterRuns(db, runs, cfg);
            && after.row.Some? && (after.row.value.status == Warning <==> LastLeftWarning(db, runs, cfg))
            && multiset(after.history)[Running] == multiset(db.history)[Running] + Unfinished(db, runs, cfg)
  {
    if runs != [] {
      var init, last := runs[..|runs| - 1], runs[|runs| - 1];
      StuckExactly(db, init, cfg);
      if Starts(last) {
        RunWrites(AfterRuns(db, init, cfg), last, cfg);
        RunAddsRow(AfterRuns(db, init, cfg), last, cfg);
      }
    }
  }

  // ----- the breaker's own failure -----

  /** Ends the transaction, so that an abort is forgotten. */
  predicate Resets(op: BodyOp) {
    op.CommitWork? || (op.RollbackWork? && !op.fails)
  }

  /** None of the ops from lo up to hi ends the transaction. */
  predicate NoReset(ops: seq<BodyOp>, lo: nat, hi: nat)
    requires hi <= |ops|
  {
    forall m | lo <= m < hi :: !Resets(ops[m])
  }

  /** Op j finds the transaction aborted: by what was there before, or by a statement, and nothing ended it since. */
  predicate AbortedAt(ops: seq<BodyOp>, aborted: bool, j: nat)
    requires j <= |ops|
  {
    || (aborted && NoReset(ops, 0, j))
    || exists i | 0 <= i < j :: ops[i].Statement? && ops[i].fails && NoReset(ops, i + 1, j)
  }

  /** Op j raises: by itself, or because the server refuses it in an aborted transaction. */
  predicate RaisesAt(ops: seq<BodyOp>, aborted: bool, j: nat)
    requires j < |ops|
  {
    ops[j].Raise? || ops[j].fails || ((ops[j].Statement? || ops[j].Guarded?) && AbortedAt(ops, aborted, j))
  }

  /** The job catches every exception of its work, and leaves a transaction that can be committed. */
  predicate WorksOut(ops: seq<BodyOp>, aborted: bool) {
    && (forall j | 0 <= j < |ops| :: RaisesAt(ops, aborted, j) ==> !Uncaught(ops[j]))
    && !AbortedAt(ops, aborted, |ops|)
  }

  lemma NoResetNext(ops: seq<BodyOp>, lo: nat, hi: nat)
    requires hi < |ops|
    ensures NoReset(ops, lo + 1, hi + 1) <==> NoReset(ops[1..], lo, hi)
  {
    if NoReset(ops[1..], lo, hi) {
      forall m | lo + 1 <= m < hi + 1 ensures !Resets(ops[m]) {
        assert !Resets(ops[1..][m - 1]);
      }
    }
  }

  lemma AbortedNext(ops: seq<BodyOp>, aborted: bool, j: nat)
    requires j < |ops|
    ensures AbortedAt(ops, aborted, j + 1) <==> AbortedAt(ops[1..], OpEnd(ops[0], aborted).1, j)
  {
    var rest, next := ops[1..], OpEnd(ops[0], aborted).1;
    forall i: nat | i <= j ensures NoReset(ops, i + 1, j + 1) <==> NoReset(rest, i, j) {
      NoResetNext(ops, i, j);
    }
    assert NoReset(ops, 0, j + 1) <==> !Resets(ops[0]) && NoReset(rest, 0, j);
    if i: nat :| i < j && rest[i].Statement? && rest[i].fails && NoReset(rest, i + 1, j) {
      assert ops[i + 1].Statement? && ops[i + 1].fails && NoReset(ops, i + 2, j + 1);
    }
    if i: nat :| i < j + 1 && ops[i].Statement? && ops[i].fails && NoReset(ops, i + 1, j + 1) {
      assert i > 0 ==> rest[i - 1] == ops[i] && NoReset(rest, i, j);
    }
  }

  lemma RaisesNext(ops: seq<BodyOp>, aborted: bool, j: nat)
    requires j + 1 < |ops|
    ensures RaisesAt(ops, aborted, j + 1) <==> RaisesAt(ops[1..], OpEnd(ops[0], aborted).1, j)
  {
    AbortedNext(ops, aborted, j);
  }

  /** Run op by op, the work ends without an exception and without an abort exactly when it works out. */
  lemma {:induction false} EndsWell(ops: seq<BodyOp>, aborted: bool)
    ensures BodyEnd(ops, aborted) == (false, false) <==> WorksOut(ops, aborted)
  {
    if ops != [] {
      var rest, next := ops[1..], OpEnd(ops[0], aborted).1;
      EndsWell(rest, next);
      AbortedNext(ops, aborted, |rest|);
      forall j: nat | j < |rest| ensures RaisesAt(ops, aborted, j + 1) <==> RaisesAt(rest, next, j) {
        RaisesNext(ops, aborted, j);
      }
      assert RaisesAt(ops, aborted, 0) <==> OpEnd(ops[0], aborted).0;
      StepWorksOut(ops, aborted);
    }
  }

  lemma StepWorksOut(ops: seq<BodyOp>, aborted: bool)
    requires ops != [] && (RaisesAt(ops, aborted, 0) <==> OpEnd(ops[0], aborted).0)
    requires var next := OpEnd(ops[0], aborted).1;
             && (AbortedAt(ops, aborted, |ops|) <==> AbortedAt(ops[1..], next, |ops| - 1))
             && forall j: nat | j < |ops| - 1 :: RaisesAt(ops, aborted, j + 1) <==> RaisesAt(ops[1..], next, j)
    ensures WorksOut(ops, aborted) <==>
            !(OpEnd(ops[0], aborted).0 && Uncaught(ops[0])) && WorksOut(ops[1..], OpEnd(ops[0], aborted).1)
  {
    var rest, next := ops[1..], OpEnd(ops[0], aborted).1;
    if WorksOut(ops, aborted) {
      forall j: nat | j < |rest| ensures RaisesAt(rest, next, j) ==> !Uncaught(rest[j]) {
        assert RaisesAt(ops, aborted, j + 1) ==> !Uncaught(ops[j + 1]);
      }
    }
    if !(OpEnd(ops[0], aborted).0 && Uncaught(ops[0])) && WorksOut(rest, next) {
      forall j: nat | j < |ops| ensures RaisesAt(ops, aborted, j) ==> !Uncaught(ops[j]) {
        if j > 0 {
          assert RaisesAt(ops, aborted, (j - 1) + 1) <==> RaisesAt(rest, next, j - 1);
        }
      }
    }
  }

  /**
   When the breaker's query fails the run proceeds on an aborted transaction. It is recorded as a
   success exactly when the job's own work catches every exception, ends that transaction and leaves
   none aborted, and the main write goes through. Otherwise what is recorded, if anything, is a failure.
   */
  lemma FailedCheckIsNoSuccess(db: Db, run: Run, cfg: Config)
    requires db.row.Some? && Starts(run) && run.faults.read
    ensures var after, f := AfterRun(db, run, cfg), run.faults;
            if WorksOut(run.body, true) && !f.history && !f.status && !f.commit then
              after.log == db.log + [Started, Succeeded] && after.row.value.status == Healthy
            else if RunWrite(db, run, cfg) == Nowhere then
              after.log == db.log + [Started] && after.row.value.status == Warning
            else
              && after.log == db.log + [Started, Failed(run.stamp)]
              && after.row == Some(Row(Failing, db.row.value.failures + 1, Some(run.stamp)))
  {
    EndsWell(run.body, true);
    RunWrites(db, run, cfg);
    assert db.log + [Started] + [Failed(run.stamp)] == db.log + [Started, Failed(run.stamp)];
    assert db.log + [Started] + [Succeeded] == db.log + [Started, Succeeded];
  }

  /** Work made of statements alone, all their errors caught, raises nothing and is still no success. */
  lemma {:induction false} CaughtStatements(ops: seq<BodyOp>, aborted: bool)
    requires forall op | op in ops :: op.Statement? && op.caught
    ensures !BodyEnd(ops, aborted).0 && (aborted ==> !WorksOut(ops, aborted))
  {
    if ops != [] {
      assert ops[0] in ops;
      CaughtStatements(ops[1..], OpEnd(ops[0], aborted).1);
    }
    EndsWell(ops, aborted);
  }

  /** Two such runs with nothing else failing: no transaction ended, and one ended in vain. */
  lemma FailedCheckWitness(db: Db, run: Run, cfg: Config)
    requires db.row.Some? && Starts(run) && run.faults.read
    requires !run.faults.rollbackAgain && !run.faults.fallback && !run.faults.fallbackCommit
    requires || run.body == [Statement(false, true)]
             || run.body == [RollbackWork(false, true), Statement(true, true)]
    ensures !BodyEnd(run.body, true).0 && AfterRun(db, run, cfg).row.value.status == Failing
  {
    var ops := run.body;
    if |ops| == 2 {
      assert ops[1..] == [Statement(true, true)];
      assert BodyEnd(ops, true) == BodyEnd(ops[1..], false) == (false, true);
    } else {
      CaughtStatements(ops, true);
    }
    EndsWell(ops, true);
    FailedCheckIsNoSuccess(db, run, cfg);
  }

  // ----- the breaker over runs -----

  /** Enough failures and skips were recorded, and the last of them within the timeout of this time. */
  predicate OpenAt(log: seq<Write>, now: Time, cfg: Config) {
    && SinceSuccess(log) >= Threshold(cfg)
    && LastStamp(log).Some? && now - LastStamp(log).value < cfg.timeout
  }

  lemma SkipsOnLog(db: Db, run: Run, cfg: Config)
    requires Tracked(db) && db.row.Some? && Starts(run) && !run.faults.read
    ensures Skips(db, run, cfg) <==> OpenAt(db.log, run.now, cfg)
  {
  }

  /**
   After any runs, the next run that starts and can read its row is skipped exactly when enough was
   recorded, and too recently. The failed and cancelled rows of sync_history decide it when no row
   since the last 'success' is left 'running'.
   */
  lemma SkippedExactly(start: Db, runs: seq<Run>, run: Run, cfg: Config)
    requires Tracked(start) && TablesAgree(start) && start.row.Some? && Starts(run) && !run.faults.read
    ensures var db := AfterRuns(start, runs, cfg);
            && (Skips(db, run, cfg) <==> OpenAt(db.log, run.now, cfg))
            && (LeftRunning(db.history) == 0 ==>
                  (Skips(db, run, cfg) <==>
                     && EndedBadly(db.history) >= Threshold(cfg)
                     && LastStamp(db.log).Some? && run.now - LastStamp(db.log).value < cfg.timeout))
  {
    CounterIsHistory(start, runs, cfg);
    SkipsOnLog(AfterRuns(start, runs, cfg), run, cfg);
  }

  /** Nothing that leads to or records a skip fails. */
  ghost predicate Clean(run: Run) {
    Starts(run) && !run.faults.read && SkipWritten(run.faults)
  }

  /** A recorded skip counts as a failure and moves the time the breaker looks at. */
  lemma SkipMovesStamp(db: Db, run: Run, cfg: Config)
    requires Tracked(db) && Skips(db, run, cfg) && SkipWritten(run.faults)
    ensures var after := AfterRun(db, run, cfg);
            && after.log == db.log + [Started, Skipped(run.stamp)]
            && SinceSuccess(after.log) == SinceSuccess(db.log) + 1
            && LastStamp(after.log) == Some(run.stamp)
            && after.row.Some?
  {
    var log := db.log + [Started, Skipped(run.stamp)];
    assert db.log + [Started] + [Skipped(run.stamp)] == log;
    assert log[..|log| - 1] == db.log + [Started];
    assert (db.log + [Started])[..|db.log|] == db.log;
  }

  /** Every run comes within the timeout of the recorded time of the one before it. */
  ghost predicate Frequent(last: Time, runs: seq<Run>, cfg: Config) {
    forall k: nat | k < |runs| :: runs[k].now - Before(last, runs, k) < cfg.timeout
  }

  function Before(last: Time, runs: seq<Run>, k: nat): Time
    requires k <= |runs|
  {
    if k == 0 then last else runs[k - 1].stamp
  }

  /** The breaker is open on this log: count failures and skips, the last one recorded at t. */
  ghost predicate OpenSince(db: Db, count: nat, t: Time, cfg: Config) {
    && Tracked(db) && db.row.Some?
    && SinceSuccess(db.log) == count >= Threshold(cfg) && LastStamp(db.log) == Some(t)
  }

  lemma SkippedAgain(db: Db, run: Run, count: nat, t: Time, cfg: Config)
    requires OpenSince(db, count, t, cfg) && Clean(run) && run.now - t < cfg.timeout
    ensures Skips(db, run, cfg)
    ensures OpenSince(AfterRun(db, run, cfg), count + 1, run.stamp, cfg)
  {
    SkipsOnLog(db, run, cfg);
    SkipMovesStamp(db, run, cfg);
    RunRecordsOnce(db, run, cfg);
  }

  lemma FrequentPrefix(last: Time, runs: seq<Run>, k: nat, cfg: Config)
    requires k <= |runs| && Frequent(last, runs, cfg)
    ensures Frequent(last, runs[..k], cfg) && Before(last, runs[..k], k) == Before(last, runs, k)
    ensures k < |runs| ==> runs[k].now - Before(last, runs, k) < cfg.timeout
  {
    forall j: nat | j < k ensures runs[..k][j].now - Before(last, runs[..k], j) < cfg.timeout {
      assert Before(last, runs[..k], j) == Before(last, runs, j);
    }
  }

  lemma {:induction false} StaysOpen(db: Db, runs: seq<Run>, count: nat, t: Time, cfg: Config)
    requires OpenSince(db, count, t, cfg) && Frequent(t, runs, cfg)
    requires forall r | r in runs :: Clean(r)
    ensures OpenSince(AfterRuns(db, runs, cfg), count + |runs|, Before(t, runs, |runs|), cfg)
  {
    if runs != [] {
      var init, run := runs[..|runs| - 1], runs[|runs| - 1];
      FrequentPrefix(t, runs, |init|, cfg);
      StaysOpen(db, init, count, t, cfg);
      assert run in runs;
      SkippedAgain(AfterRuns(db, init, cfg), run, count + |init|, Before(t, runs, |init|), cfg);
    }
  }

  /** Once open, the breaker of a job that runs more often than the timeout never closes: every run is skipped. */
  lemma NeverAttemptsAgain(db: Db, runs: seq<Run>, cfg: Config)
    requires Tracked(db) && db.row.Some? && SinceSuccess(db.log) >= Threshold(cfg)
    requires LastStamp(db.log).Some? && Frequent(LastStamp(db.log).value, runs, cfg)
    requires forall r | r in runs :: Clean(r)
    ensures forall k | 0 <= k < |runs| :: Skips(AfterRuns(db, runs[..k], cfg), runs[k], cfg)
  {
    var count, t := SinceSuccess(db.log), LastStamp(db.log).value;
    forall k | 0 <= k < |runs| ensures Skips(AfterRuns(db, runs[..k], cfg), runs[k], cfg) {
      FrequentPrefix(t, runs, k, cfg);
      StaysOpen(db, runs[..k], count, t, cfg);
      assert runs[k] in runs;
      SkippedAgain(AfterRuns(db, runs[..k], cfg), runs[k], count + k, Before(t, runs, k), cfg);
    }
  }

  /** A run that leaves no outcome in the status row. */
  predicate Silent(db: Db, run: Run, cfg: Config) {
    Starts(run) ==> Outcome(db, run, cfg) == None
  }

  lemma SilentKeepsOpen(db: Db, run: Run, count: nat, t: Time, cfg: Config)
    requires OpenSince(db, count, t, cfg) && Silent(db, run, cfg)
    ensures OpenSince(AfterRun(db, run, cfg), count, t, cfg)
  {
    RunRecordsOnce(db, run, cfg);
    if Starts(run) {
      RunWrites(db, run, cfg);
      assert (db.log + [Started])[..|db.log|] == db.log;
    }
  }

  lemma {:induction false} StaysOpenSilently(db: Db, runs: seq<Run>, count: nat, t: Time, cfg: Config)
    requires OpenSince(db, count, t, cfg)
    requires forall k | 0 <= k < |runs| :: Silent(AfterRuns(db, runs[..k], cfg), runs[k], cfg)
    ensures OpenSince(AfterRuns(db, runs, cfg), count, t, cfg)
  {
    if runs != [] {
      var init := runs[..|runs| - 1];
      forall k | 0 <= k < |init| ensures Silent(AfterRuns(db, init[..k], cfg), init[k], cfg) {
        assert init[..k] == runs[..k];
      }
      StaysOpenSilently(db, init, count, t, cfg);
      SilentKeepsOpen(AfterRuns(db, init, cfg), runs[|init|], count, t, cfg);
    }
  }

  /** The time announced at an open breaker is kept while no outcome is recorded: runs attempt exactly from then on. */
  lemma RetryHonoured(db: Db, between: seq<Run>, next: Run, count: nat, t: Time, cfg: Config)
    requires OpenSince(db, count, t, cfg) && Starts(next) && !next.faults.read
    requires forall k | 0 <= k < |between| :: Silent(AfterRuns(db, between[..k], cfg), between[k], cfg)
    ensures Skips(AfterRuns(db, between, cfg), next, cfg) <==> next.now < t + cfg.timeout
  {
    StaysOpenSilently(db, between, count, t, cfg);
    SkipsOnLog(AfterRuns(db, between, cfg), next, cfg);
  }

  /**
   The announced retry time moves: after any runs and a recorded skip, and while no outcome is recorded,
   runs attempt exactly when the timeout has passed since the skip, not since the failure before it.
   */
  lemma RetryMoves(start: Db, runs: seq<Run>, skipped: Run, between: seq<Run>, next: Run, cfg: Config)
    requires Tracked(start) && TablesAgree(start) && Starts(next) && !next.faults.read
    requires Skips(AfterRuns(start, runs, cfg), skipped, cfg) && SkipWritten(skipped.faults)
    requires var db := AfterRuns(start, runs + [skipped], cfg);
             forall k | 0 <= k < |between| :: Silent(AfterRuns(db, between[..k], cfg), between[k], cfg)
    ensures var db := AfterRuns(start, runs + [skipped], cfg);
            Skips(AfterRuns(db, between, cfg), next, cfg) <==> next.now < skipped.stamp + cfg.timeout
  {
    var before, db := AfterRuns(start, runs, cfg), AfterRuns(start, runs + [skipped], cfg);
    assert (runs + [skipped])[..|runs|] == runs;
    CounterIsHistory(start, runs, cfg);
    SkipMovesStamp(before, skipped, cfg);
    RunRecordsOnce(before, skipped, cfg);
    SkipsOnLog(before, skipped, cfg);
    RetryHonoured(db, between, next, SinceSuccess(before.log) + 1, skipped.stamp, cfg);
  }
}
