/** Scripts are all or nothing and accounted for. */
module StoreLaws {
  import opened Outcomes
  import opened Text
  import opened Config
  import opened Guard
  import opened Script
  import opened Store

  // ------------------------------------------------------- all or nothing

  // Run the statements from i on with no limit: the final database, and the
  // rows that each statement counts.
  function Fold(engine: Engine, statements: seq<ScriptStatement>, i: nat, db: Db): Option<(Db, seq<int>)>
    requires i <= |statements|
    decreases |statements| - i
  {
    if i == |statements| then Some((db, []))
    else
      match engine.exec(i, db, statements[i].sql)
      case None => None
      case Some(outcome) =>
        match Fold(engine, statements, i + 1, outcome.db)
        case None => None
        case Some((last, rows)) => Some((last, [if statements[i].mode == DML then outcome.rows else 0] + rows))
  }

  function Sum(xs: seq<int>): int {
    if xs == [] then 0 else xs[0] + Sum(xs[1..])
  }

  lemma {:induction false} SumAppend(xs: seq<int>, x: int)
    ensures Sum(xs + [x]) == Sum(xs) + x
  {
    if xs == [] {
      assert Sum([x]) == x + Sum([]);
    } else {
      assert (xs + [x])[1..] == xs[1..] + [x];
      SumAppend(xs[1..], x);
    }
  }

  // The driver reports row counts as 64-bit integers that are not negative.
  ghost predicate Int64Counts(engine: Engine) {
    forall i, db, sql :: engine.exec(i, db, sql).Some? ==> 0 <= engine.exec(i, db, sql).value.rows <= MAX_INT64
  }

  // Every running total, as 64-bit addition gives it, is within the limit.
  predicate RunningTotalsFit(total: int, rows: seq<int>, limit: int)
    decreases |rows|
  {
    rows == [] || (Add64(total, rows[0]) <= limit && RunningTotalsFit(Add64(total, rows[0]), rows[1..], limit))
  }

  // Whatever the row counts, a run is not stopped exactly when every statement
  // succeeds and every running total is within the limit, and then it is the
  // fold of its statements.
  lemma {:induction false} ExecuteExactly(engine: Engine, statements: seq<ScriptStatement>, i: nat, db: Db,
                                          r: ScriptResult, limit: int)
    requires i <= |statements| && Int64Counts(engine) && r.rowsAffected <= MAX_INT64
    ensures
      var run, fold := Execute(engine, statements, i, db, r, limit), Fold(engine, statements, i, db);
      && (run.error.None? <==> fold.Some? && RunningTotalsFit(r.rowsAffected, fold.value.1, limit))
      && (run.error.None? ==> run.db == fold.value.0)
    decreases |statements| - i
  {
    if i < |statements| && engine.exec(i, db, statements[i].sql).Some? {
      var s, outcome := statements[i], engine.exec(i, db, statements[i].sql).value;
      var x := if s.mode == DML then outcome.rows else 0;
      var counted := Counted(r, s, outcome.rows);
      assert counted.rowsAffected == Add64(r.rowsAffected, x) <= MAX_INT64;
      var fold := Fold(engine, statements, i + 1, outcome.db);
      if fold.Some? {
        assert ([x] + fold.value.1)[1..] == fold.value.1;
      }
      if counted.rowsAffected <= limit {
        ExecuteExactly(engine, statements, i + 1, outcome.db, Reported(counted, s, i, outcome.rows), limit);
      }
    }
  }

  function StatementsOf(cfg: ConnectionConfig, script: string): seq<ScriptStatement> {
    ScriptAnswer(script, cfg, cfg.maxScriptStatements).validation.statements
  }

  // What it takes for a script to be run and committed, its statements apart.
  predicate Ready(cfg: ConnectionConfig, w: Weather, script: string) {
    && ByteLength(script) <= cfg.maxScriptBytes && ScriptAnswer(script, cfg, cfg.maxScriptStatements).error.None?
    && w.begin && w.searchPath && w.commit
  }

  // A script changes the database exactly when it is ready, every statement
  // succeeds, and the row counts fit; then the database is the fold of the
  // statements. Otherwise nothing changes.
  ghost predicate AllOrNothing(c: Conn, step: (Conn, Reply), ready: bool, fold: Option<(Db, seq<int>)>, fits: bool) {
    && (step.1.RanScript? <==> ready && fold.Some? && fits)
    && (if step.1.RanScript? then step.0.db == fold.value.0 else step.0 == c)
  }

  // The code has it with every running total within the limit.
  lemma ScriptIsAllOrNothing(engine: Engine, cfg: ConnectionConfig, c: Conn, w: Weather, script: string)
    requires Int64Counts(engine)
    ensures
      var fold := Fold(engine, StatementsOf(cfg, script), 0, c.db);
      AllOrNothing(c, ScriptStep(engine, cfg, c, w, script), Ready(cfg, w, script), fold,
                   fold.Some? && RunningTotalsFit(0, fold.value.1, cfg.maxScriptAffectedRows))
  {
    ExecuteExactly(engine, StatementsOf(cfg, script), 0, c.db, NO_RESULT, cfg.maxScriptAffectedRows);
  }

  // -------------------------------------------------- the limit as intended

  predicate AreCounts(rows: seq<int>) {
    forall k | 0 <= k < |rows| :: 0 <= rows[k] <= MAX_INT64
  }

  lemma {:induction false} FoldGivesCounts(engine: Engine, statements: seq<ScriptStatement>, i: nat, db: Db)
    requires i <= |statements| && Int64Counts(engine) && Fold(engine, statements, i, db).Some?
    ensures AreCounts(Fold(engine, statements, i, db).value.1)
    decreases |statements| - i
  {
    if i < |statements| {
      FoldGivesCounts(engine, statements, i + 1, engine.exec(i, db, statements[i].sql).value.db);
    }
  }

  lemma {:induction false} SumIsNotNegative(rows: seq<int>)
    requires AreCounts(rows)
    ensures Sum(rows) >= 0
  {
    if rows != [] {
      SumIsNotNegative(rows[1..]);
    }
  }

  // While the final total is a 64-bit integer, stopping as soon as the limit is
  // passed agrees with comparing only that total.
  lemma {:induction false} OnlyTheTotalMatters(total: int, rows: seq<int>, limit: int)
    requires 0 <= total <= limit && AreCounts(rows) && total + Sum(rows) <= MAX_INT64
    ensures RunningTotalsFit(total, rows, limit) <==> total + Sum(rows) <= limit
    decreases |rows|
  {
    if rows != [] {
      SumIsNotNegative(rows[1..]);
      if total + rows[0] <= limit {
        OnlyTheTotalMatters(total + rows[0], rows[1..], limit);
      }
    }
  }

  // For all counts the two agree exactly when those that pass the running check
  // add up to a 64-bit integer.
  lemma TotalsAgree(rows: seq<int>, limit: int)
    requires 0 <= limit <= MAX_INT64 && AreCounts(rows)
    ensures (RunningTotalsFit(0, rows, limit) <==> Sum(rows) <= limit)
      <==> (RunningTotalsFit(0, rows, limit) ==> Sum(rows) <= MAX_INT64)
  {
    if Sum(rows) <= MAX_INT64 {
      OnlyTheTotalMatters(0, rows, limit);
    }
  }

  // What is intended: the same with the rows of all the statements together
  // within the limit.
  ghost predicate KeepsLimit(engine: Engine, cfg: ConnectionConfig, c: Conn, w: Weather, script: string) {
    var fold := Fold(engine, StatementsOf(cfg, script), 0, c.db);
    AllOrNothing(c, ScriptStep(engine, cfg, c, w, script), Ready(cfg, w, script), fold,
                 fold.Some? && Sum(fold.value.1) <= cfg.maxScriptAffectedRows)
  }

  // The rows that the statements count together, where all of them succeed.
  function ScriptRows(engine: Engine, cfg: ConnectionConfig, c: Conn, script: string): int {
    var fold := Fold(engine, StatementsOf(cfg, script), 0, c.db);
    if fold.Some? then Sum(fold.value.1) else 0
  }

  lemma AgreesWithRunning(c: Conn, step: (Conn, Reply), ready: bool, db: Db, rows: seq<int>, limit: int)
    requires 0 <= limit <= MAX_INT64 && AreCounts(rows)
    requires AllOrNothing(c, step, ready, Some((db, rows)), RunningTotalsFit(0, rows, limit))
    ensures AllOrNothing(c, step, ready, Some((db, rows)), Sum(rows) <= limit)
      <==> (step.1.RanScript? ==> Sum(rows) <= MAX_INT64)
  {
    TotalsAgree(rows, limit);
    if Sum(rows) <= limit {
      OnlyTheTotalMatters(0, rows, limit);
    }
  }

  // It is kept exactly when no script is committed whose rows add up to more
  // than a 64-bit integer.
  lemma ScriptIsAtomic(engine: Engine, cfg: ConnectionConfig, c: Conn, w: Weather, script: string)
    requires Int64Counts(engine) && 0 <= cfg.maxScriptAffectedRows <= MAX_INT64
    ensures
      KeepsLimit(engine, cfg, c, w, script)
      <==> (ScriptStep(engine, cfg, c, w, script).1.RanScript? ==> ScriptRows(engine, cfg, c, script) <= MAX_INT64)
  {
    var fold := Fold(engine, StatementsOf(cfg, script), 0, c.db);
    ScriptIsAllOrNothing(engine, cfg, c, w, script);
    if fold.Some? {
      FoldGivesCounts(engine, StatementsOf(cfg, script), 0, c.db);
      AgreesWithRunning(c, ScriptStep(engine, cfg, c, w, script), Ready(cfg, w, script), fold.value.0, fold.value.1,
                        cfg.maxScriptAffectedRows);
    }
  }

  // ------------------------------------------------ which scripts keep it

  // The number of DML statements from i on.
  function DMLFrom(statements: seq<ScriptStatement>, i: nat): nat
    requires i <= |statements|
    decreases |statements| - i
  {
    if i == |statements| then 0 else (if statements[i].mode == DML then 1 else 0) + DMLFrom(statements, i + 1)
  }

  // One DML statement cannot pass what a 64-bit integer holds.
  lemma {:induction false} OneCountFits(engine: Engine, statements: seq<ScriptStatement>, i: nat, db: Db)
    requires i <= |statements| && Int64Counts(engine) && Fold(engine, statements, i, db).Some?
    requires DMLFrom(statements, i) <= 1
    ensures Sum(Fold(engine, statements, i, db).value.1) <= if DMLFrom(statements, i) == 0 then 0 else MAX_INT64
    decreases |statements| - i
  {
    if i < |statements| {
      var outcome := engine.exec(i, db, statements[i].sql).value;
      OneCountFits(engine, statements, i + 1, outcome.db);
      var x := if statements[i].mode == DML then outcome.rows else 0;
      var rest := Fold(engine, statements, i + 1, outcome.db).value.1;
      assert ([x] + rest)[1..] == rest;
    }
  }

  // Under a limit of no rows nothing is counted.
  lemma {:induction false} NoRowsFit(rows: seq<int>)
    requires AreCounts(rows) && RunningTotalsFit(0, rows, 0)
    ensures Sum(rows) == 0
  {
    if rows != [] {
      NoRowsFit(rows[1..]);
    }
  }

  lemma {:induction false} FirstDML(statements: seq<ScriptStatement>, i: nat) returns (p: nat)
    requires i <= |statements| && DMLFrom(statements, i) > 0
    ensures i <= p < |statements| && statements[p].mode == DML
    ensures DMLFrom(statements, p + 1) == DMLFrom(statements, i) - 1
    decreases |statements| - i
  {
    if statements[i].mode == DML {
      p := i;
    } else {
      p := FirstDML(statements, i + 1);
    }
  }

  // Row counts of which two pass the limit together: the limit itself at p, and
  // at q what takes the total past the largest 64-bit integer.
  function Planned(p: nat, q: nat, limit: int, k: int): int {
    if k == p then limit else if k == q then MAX_INT64 - limit + 1 else 0
  }

  function PlannedRows(p: nat, q: nat, limit: int, i: nat, n: nat): seq<int>
    requires i <= n
    decreases n - i
  {
    if i == n then [] else [Planned(p, q, limit, i)] + PlannedRows(p, q, limit, i + 1, n)
  }

  // With these counts the total is the limit after p, and the smallest 64-bit
  // integer after q.
  lemma {:induction false} PlannedTotals(p: nat, q: nat, limit: int, i: nat, n: nat)
    requires p < q < n && i <= n && 0 < limit <= MAX_INT64
    ensures
      var total := if i <= p then 0 else if i <= q then limit else -MAX_INT64 - 1;
      RunningTotalsFit(total, PlannedRows(p, q, limit, i, n), limit)
    ensures Sum(PlannedRows(p, q, limit, i, n))
      == (if i <= p then limit else 0) + (if i <= q then MAX_INT64 - limit + 1 else 0)
    decreases n - i
  {
    if i < n {
      PlannedTotals(p, q, limit, i + 1, n);
      var rest := PlannedRows(p, q, limit, i + 1, n);
      assert ([Planned(p, q, limit, i)] + rest)[1..] == rest;
    }
  }

  lemma {:induction false} PlannedFold(engine: Engine, statements: seq<ScriptStatement>, i: nat, db: Db,
                                       p: nat, q: nat, limit: int)
    requires p < q < |statements| && statements[p].mode == DML && statements[q].mode == DML && i <= |statements|
    requires forall k: nat, d, sql :: engine.exec(k, d, sql) == Some(Outcome(d, Planned(p, q, limit, k)))
    ensures Fold(engine, statements, i, db) == Some((db, PlannedRows(p, q, limit, i, |statements|)))
    decreases |statements| - i
  {
    if i < |statements| {
      PlannedFold(engine, statements, i + 1, db, p, q, limit);
    }
  }

  lemma OverflowingEngine(e: Engine, statements: seq<ScriptStatement>, db: Db, p: nat, q: nat, limit: int)
    returns (engine: Engine)
    requires p < q < |statements| && statements[p].mode == DML && statements[q].mode == DML
    requires 0 < limit <= MAX_INT64
    ensures Int64Counts(engine)
    ensures
      var fold := Fold(engine, statements, 0, db);
      fold.Some? && Sum(fold.value.1) > limit && RunningTotalsFit(0, fold.value.1, limit)
  {
    engine := e.(exec := (k, d, sql) => Some(Outcome(d, Planned(p, q, limit, k))));
    PlannedFold(engine, statements, 0, db, p, q, limit);
    PlannedTotals(p, q, limit, 0, |statements|);
  }

  // Counts that wrap break the rule, whatever the limit: for every accepted
  // script with two DML statements there are counts with which it passes the
  // limit and is committed.
  lemma OverflowPassesLimit(e: Engine, cfg: ConnectionConfig, c: Conn, w: Weather, script: string, p: nat, q: nat)
    returns (engine: Engine)
    requires 0 < cfg.maxScriptAffectedRows <= MAX_INT64 && Ready(cfg, w, script)
    requires
      var statements := StatementsOf(cfg, script);
      p < q < |statements| && statements[p].mode == DML && statements[q].mode == DML
    ensures Int64Counts(engine)
    ensures
      && Fold(engine, StatementsOf(cfg, script), 0, c.db).Some?
      && ScriptRows(engine, cfg, c, script) > cfg.maxScriptAffectedRows
      && ScriptStep(engine, cfg, c, w, script).1.RanScript?
  {
    engine := OverflowingEngine(e, StatementsOf(cfg, script), c.db, p, q, cfg.maxScriptAffectedRows);
    CommitsWhatFits(engine, cfg, c, w, script);
  }

  lemma CommitsWhatFits(engine: Engine, cfg: ConnectionConfig, c: Conn, w: Weather, script: string)
    requires Int64Counts(engine) && Ready(cfg, w, script)
    requires
      var fold := Fold(engine, StatementsOf(cfg, script), 0, c.db);
      fold.Some? && RunningTotalsFit(0, fold.value.1, cfg.maxScriptAffectedRows)
    ensures ScriptStep(engine, cfg, c, w, script).1.RanScript?
  {
    ScriptIsAllOrNothing(engine, cfg, c, w, script);
  }

  // One DML statement, or a limit of no rows, keeps the rule whatever is counted.
  lemma FewDMLKeepLimit(engine: Engine, cfg: ConnectionConfig, c: Conn, w: Weather, script: string)
    requires Int64Counts(engine) && 0 <= cfg.maxScriptAffectedRows <= MAX_INT64
    requires cfg.maxScriptAffectedRows == 0 || DMLFrom(StatementsOf(cfg, script), 0) <= 1
    ensures KeepsLimit(engine, cfg, c, w, script)
  {
    var fold := Fold(engine, StatementsOf(cfg, script), 0, c.db);
    ScriptIsAtomic(engine, cfg, c, w, script);
    ScriptIsAllOrNothing(engine, cfg, c, w, script);
    if fold.Some? && RunningTotalsFit(0, fold.value.1, cfg.maxScriptAffectedRows) {
      FoldGivesCounts(engine, StatementsOf(cfg, script), 0, c.db);
      if cfg.maxScriptAffectedRows == 0 {
        NoRowsFit(fold.value.1);
      } else {
        OneCountFits(engine, StatementsOf(cfg, script), 0, c.db);
      }
    }
  }

  lemma ManyDMLBreakLimit(e: Engine, cfg: ConnectionConfig, c: Conn, w: Weather, script: string)
    returns (engine: Engine)
    requires 0 < cfg.maxScriptAffectedRows <= MAX_INT64 && Ready(cfg, w, script)
    requires DMLFrom(StatementsOf(cfg, script), 0) >= 2
    ensures Int64Counts(engine) && !KeepsLimit(engine, cfg, c, w, script)
  {
    var p := FirstDML(StatementsOf(cfg, script), 0);
    var q := FirstDML(StatementsOf(cfg, script), p + 1);
    engine := OverflowPassesLimit(e, cfg, c, w, script, p, q);
    OverLimitBreaks(engine, cfg, c, w, script);
  }

  lemma OverLimitBreaks(engine: Engine, cfg: ConnectionConfig, c: Conn, w: Weather, script: string)
    requires ScriptStep(engine, cfg, c, w, script).1.RanScript?
    requires ScriptRows(engine, cfg, c, script) > cfg.maxScriptAffectedRows
    ensures !KeepsLimit(engine, cfg, c, w, script)
  {
  }

  // A script that nothing but its counts can stop keeps the rule whatever is
  // counted exactly when it has at most one DML statement or the limit is zero.
  lemma LimitIsKeptExactly(e: Engine, cfg: ConnectionConfig, c: Conn, w: Weather, script: string)
    requires 0 <= cfg.maxScriptAffectedRows <= MAX_INT64 && Ready(cfg, w, script)
    ensures (forall engine | Int64Counts(engine) :: KeepsLimit(engine, cfg, c, w, script))
      <==> cfg.maxScriptAffectedRows == 0 || DMLFrom(StatementsOf(cfg, script), 0) <= 1
  {
    if cfg.maxScriptAffectedRows == 0 || DMLFrom(StatementsOf(cfg, script), 0) <= 1 {
      forall engine | Int64Counts(engine)
        ensures KeepsLimit(engine, cfg, c, w, script)
      {
        FewDMLKeepLimit(engine, cfg, c, w, script);
      }
    } else {
      var engine := ManyDMLBreakLimit(e, cfg, c, w, script);
    }
  }

  // ------------------------------------------------------------- accounting

  function RowsOf(results: seq<StatementResult>): seq<int> {
    seq(|results|, k requires 0 <= k < |results| => results[k].rowsAffected)
  }

  // What 64-bit addition makes of the counts, from the first on.
  function Total64(rows: seq<int>): int {
    if rows == [] then 0 else Add64(Total64(rows[..|rows| - 1]), rows[|rows| - 1])
  }

  lemma {:induction false} TotalIsInt64(rows: seq<int>)
    requires AreCounts(rows)
    ensures Total64(rows) <= MAX_INT64
  {
    if rows != [] {
      TotalIsInt64(rows[..|rows| - 1]);
    }
  }

  lemma {:induction false} NothingWraps(rows: seq<int>)
    requires AreCounts(rows) && Sum(rows) <= MAX_INT64
    ensures Total64(rows) == Sum(rows) >= 0
  {
    if rows != [] {
      var init, last := rows[..|rows| - 1], rows[|rows| - 1];
      assert rows == init + [last];
      SumAppend(init, last);
      NothingWraps(init);
    }
  }

  // It is their sum exactly when that is a 64-bit integer.
  lemma TotalIsSum(rows: seq<int>)
    requires AreCounts(rows)
    ensures Total64(rows) == Sum(rows) <==> Sum(rows) <= MAX_INT64
  {
    TotalIsInt64(rows);
    if Sum(rows) <= MAX_INT64 {
      NothingWraps(rows);
    }
  }

  function CountMode(statements: seq<ScriptStatement>, n: nat, mode: Mode): nat
    requires n <= |statements|
  {
    if n == 0 then 0 else CountMode(statements, n - 1, mode) + (if statements[n - 1].mode == mode then 1 else 0)
  }

  // The first n statements have been reported.
  predicate Reports(r: ScriptResult, statements: seq<ScriptStatement>, n: nat) {
    && n <= |statements| && r.statementsExecuted == n == |r.results|
    && forall k | 0 <= k < n ::
         && r.results[k].index == k + 1 && r.results[k].mode == statements[k].mode
         && r.results[k].operation == statements[k].validation.operation
         && r.results[k].tables == statements[k].validation.tables
  }

  // They have been counted, and nothing else has.
  predicate Balanced(r: ScriptResult, statements: seq<ScriptStatement>, n: nat) {
    && Reports(r, statements, n)
    && AreCounts(RowsOf(r.results)) && r.rowsAffected == Total64(RowsOf(r.results))
    && r.dmlStatements == CountMode(statements, n, DML)
    && r.dmlStatements + r.ddlStatements == n
  }

  lemma ReportKeepsBalance(statements: seq<ScriptStatement>, i: nat, r: ScriptResult, rows: int)
    requires i < |statements| && Balanced(r, statements, i)
    requires 0 <= rows <= MAX_INT64
    ensures Balanced(Reported(Counted(r, statements[i], rows), statements[i], i, rows), statements, i + 1)
  {
    var s := statements[i];
    var r1 := Reported(Counted(r, s, rows), s, i, rows);
    var x := if s.mode == DML then rows else 0;
    assert RowsOf(r1.results) == RowsOf(r.results) + [x];
    assert (RowsOf(r.results) + [x])[..|RowsOf(r.results)|] == RowsOf(r.results);
    TotalIsInt64(RowsOf(r.results));
  }

  // A DML statement has passed the limit: it is counted, but not reported.
  predicate StoppedByLimit(r: ScriptResult, statements: seq<ScriptStatement>, rows: int, limit: int) {
    var n := |r.results|;
    && Reports(r, statements, n)
    && n < |statements| && statements[n].mode == DML
    && r.rowsAffected == rows > limit >= Total64(RowsOf(r.results))
    && r.dmlStatements == CountMode(statements, n + 1, DML)
    && r.dmlStatements + r.ddlStatements == n + 1
  }

  // Where an execution stops, and how many statements it has then reported.
  function ReportedCount(statements: seq<ScriptStatement>, error: Option<StoreError>, r: ScriptResult): nat {
    match error
    case Some(StatementFailed(k)) => if k > 0 then k - 1 else 0
    case Some(_) => |r.results|
    case None => |statements|
  }

  // Results are numbered from 1, their rows add up to the 64-bit total, and every
  // statement is counted once, as DML or as DDL. A statement that fails leaves
  // the ones before it reported; one that passes the limit is counted but not
  // reported.
  lemma {:induction false} ExecutionIsAccounted(engine: Engine, statements: seq<ScriptStatement>, i: nat, db: Db,
                                                r: ScriptResult, limit: int)
    requires i <= |statements| && Int64Counts(engine)
    requires Balanced(r, statements, i) && r.rowsAffected <= limit
    ensures
      var run := Execute(engine, statements, i, db, r, limit);
      var n := ReportedCount(statements, run.error, run.result);
      && Reports(run.result, statements, n)
      && (run.error.None? || run.error.value.StatementFailed? ==> Balanced(run.result, statements, n))
      && (run.error.Some? && run.error.value.TooManyRows? ==>
            StoppedByLimit(run.result, statements, run.error.value.rows, limit))
    decreases |statements| - i
  {
    if i < |statements| && engine.exec(i, db, statements[i].sql).Some? {
      var s, outcome := statements[i], engine.exec(i, db, statements[i].sql).value;
      var counted := Counted(r, s, outcome.rows);
      if counted.rowsAffected <= limit {
        ReportKeepsBalance(statements, i, r, outcome.rows);
        ExecutionIsAccounted(engine, statements, i + 1, outcome.db, Reported(counted, s, i, outcome.rows), limit);
      }
    }
  }

  // A reply accounts for the statements of its script: all of them on commit;
  // those before the failed one on a failure; those before the one that passes
  // the limit when the limit stops it; all or none where the transaction fails.
  predicate Accounted(reply: Reply, statements: seq<ScriptStatement>, limit: int) {
    && (reply.RanScript? ==> Balanced(reply.result, statements, |statements|))
    && (reply.Failed? && reply.error.StatementFailed? ==>
          0 < reply.error.index && Balanced(reply.partial, statements, reply.error.index - 1))
    && (reply.Failed? && reply.error.TooManyRows? ==>
          StoppedByLimit(reply.partial, statements, reply.error.rows, limit))
    && (reply.Failed? && reply.error.TransactionFailed? ==>
          reply.partial == NO_RESULT || Balanced(reply.partial, statements, |statements|))
  }

  // The reply is what a run in the transaction gives.
  predicate RepliesWith(reply: Reply, run: ScriptRun) {
    && (reply.RanScript? ==> run.error.None? && reply.result == run.result)
    && (reply.Failed? && (reply.error.StatementFailed? || reply.error.TooManyRows?) ==>
          run.error == Some(reply.error) && reply.partial == run.result)
    && (reply.Failed? && reply.error.TransactionFailed? ==>
          reply.partial == NO_RESULT || (run.error.None? && reply.partial == run.result))
  }

  lemma ScriptRepliesWithRun(engine: Engine, cfg: ConnectionConfig, c: Conn, w: Weather, script: string)
    ensures
      RepliesWith(ScriptStep(engine, cfg, c, w, script).1,
                  Execute(engine, StatementsOf(cfg, script), 0, c.db, NO_RESULT, cfg.maxScriptAffectedRows))
  {
    FailuresAreNumbered(engine, StatementsOf(cfg, script), 0, c.db, NO_RESULT, cfg.maxScriptAffectedRows);
  }

  lemma RunIsAccounted(engine: Engine, statements: seq<ScriptStatement>, db: Db, limit: int, reply: Reply)
    requires 0 <= limit && Int64Counts(engine)
    requires RepliesWith(reply, Execute(engine, statements, 0, db, NO_RESULT, limit))
    ensures Accounted(reply, statements, limit)
  {
    assert RowsOf([]) == [];
    ExecutionIsAccounted(engine, statements, 0, db, NO_RESULT, limit);
    FailuresAreNumbered(engine, statements, 0, db, NO_RESULT, limit);
  }

  // Every reply to a script accounts for its statements.
  lemma ScriptIsAccounted(engine: Engine, cfg: ConnectionConfig, c: Conn, w: Weather, script: string)
    requires 0 <= cfg.maxScriptAffectedRows && Int64Counts(engine)
    ensures Accounted(ScriptStep(engine, cfg, c, w, script).1, StatementsOf(cfg, script), cfg.maxScriptAffectedRows)
  {
    var statements := StatementsOf(cfg, script);
    ScriptRepliesWithRun(engine, cfg, c, w, script);
    RunIsAccounted(engine, statements, c.db, cfg.maxScriptAffectedRows, ScriptStep(engine, cfg, c, w, script).1);
  }

  lemma {:induction false} FailuresAreNumbered(engine: Engine, statements: seq<ScriptStatement>, i: nat, db: Db,
                                               r: ScriptResult, limit: int)
    requires i <= |statements|
    ensures
      var error := Execute(engine, statements, i, db, r, limit).error;
      error.Some? ==> error.value.TooManyRows? || (error.value.StatementFailed? && error.value.index > 0)
    decreases |statements| - i
  {
    if i < |statements| && engine.exec(i, db, statements[i].sql).Some? {
      var s, outcome := statements[i], engine.exec(i, db, statements[i].sql).value;
      var counted := Counted(r, s, outcome.rows);
      FailuresAreNumbered(engine, statements, i + 1, outcome.db, Reported(counted, s, i, outcome.rows), limit);
    }
  }
}
