/** The store of one connection: statements and scripts in transactions, and a
    cache of table descriptions. PostgreSQL is an engine that the store cannot
    look into. */
module Store {
  import opened Outcomes
  import opened Text
  import opened Config
  import opened Guard
  import opened Script

  // The committed contents of a database.
  type Db(!new)

  datatype Column = Column(name: string, kind: string, isPrimaryKey: bool)

  // What the catalog queries of one table return.
  datatype CatalogEntry = CatalogEntry(
    primaryKey: seq<string>, columns: seq<(string, string)>, foreignKeys: seq<string>, indexes: seq<string>)

  datatype TableDescription = TableDescription(
    schema: string, table: string, columns: seq<Column>, primaryKey: seq<string>,
    foreignKeys: seq<string>, indexes: seq<string>)

  datatype Outcome = Outcome(db: Db, rows: int)

  // exec runs the i-th statement of a transaction, or fails; catalog is what the
  // information schema says of a table.
  datatype Engine = Engine(
    exec: (nat, Db, string) -> Option<Outcome>,
    catalog: (Db, string, string) -> CatalogEntry)

  // Which of the other requests to the server succeed during one operation.
  datatype Weather = Weather(begin: bool, searchPath: bool, commit: bool, queries: bool)

  datatype StoreError =
    | SchemaNotAllowed
    | QueryFailed
    | ScriptTooLong
    | ScriptRefused(error: ScriptError)
    | StatementRefused(reason: Option<Reason>)
    | TransactionFailed
    | StatementFailed(index: nat)
    | TooManyRows(rows: int)

  const MAX_INT64: int := 0x7FFF_FFFF_FFFF_FFFF

  // Addition of 64-bit integers, which wraps around.
  function Add64(a: int, b: int): int {
    var sum := a + b;
    if sum > MAX_INT64 then sum - 2 * (MAX_INT64 + 1) else sum
  }

  // ------------------------------------------------------------ descriptions

  function MarkPrimaryKey(columns: seq<(string, string)>, primaryKey: seq<string>): seq<Column> {
    seq(|columns|, i requires 0 <= i < |columns| =>
      Column(columns[i].0, columns[i].1, columns[i].0 in primaryKey))
  }

  function Description(engine: Engine, db: Db, schema: string, table: string): TableDescription {
    var entry := engine.catalog(db, schema, table);
    TableDescription(schema, table, MarkPrimaryKey(entry.columns, entry.primaryKey), entry.primaryKey,
                     entry.foreignKeys, entry.indexes)
  }

  function CacheKey(schema: string, table: string): string {
    schema + "." + table
  }

  type Cache = map<string, TableDescription>

  // ----------------------------------------------------------------- scripts

  datatype StatementResult = StatementResult(
    index: nat, mode: Mode, operation: string, tables: seq<string>, rowsAffected: int)

  datatype ScriptResult = ScriptResult(
    statementsExecuted: nat, dmlStatements: nat, ddlStatements: nat, rowsAffected: int,
    results: seq<StatementResult>)

  const NO_RESULT := ScriptResult(0, 0, 0, 0, [])

  // The counters after statement s has affected so many rows.
  function Counted(r: ScriptResult, s: ScriptStatement, rows: int): ScriptResult {
    if s.mode == DML then
      r.(dmlStatements := r.dmlStatements + 1, rowsAffected := Add64(r.rowsAffected, rows))
    else r.(ddlStatements := r.ddlStatements + 1)
  }

  function Reported(r: ScriptResult, s: ScriptStatement, i: nat, rows: int): ScriptResult {
    var result := StatementResult(i + 1, s.mode, s.validation.operation, s.validation.tables,
                                  if s.mode == DML then rows else 0);
    r.(statementsExecuted := r.statementsExecuted + 1, results := r.results + [result])
  }

  datatype ScriptRun = ScriptRun(db: Db, result: ScriptResult, error: Option<StoreError>)

  // The loop inside the transaction, from statement i on: db is the database as
  // the transaction sees it.
  function Execute(engine: Engine, statements: seq<ScriptStatement>, i: nat, db: Db, r: ScriptResult, limit: int)
    : ScriptRun
    requires i <= |statements|
    decreases |statements| - i
  {
    if i == |statements| then ScriptRun(db, r, None)
    else
      var s := statements[i];
      match engine.exec(i, db, s.sql)
      case None => ScriptRun(db, r, Some(StatementFailed(i + 1)))
      case Some(outcome) =>
        var counted := Counted(r, s, outcome.rows);
        if counted.rowsAffected > limit then ScriptRun(db, counted, Some(TooManyRows(counted.rowsAffected)))
        else Execute(engine, statements, i + 1, outcome.db, Reported(counted, s, i, outcome.rows), limit)
  }

  // ------------------------------------------------- operations, as functions

  // What one connection holds: the committed database and the cache.
  datatype Conn = Conn(db: Db, cache: Cache)

  datatype Operation =
    | Describe(schema: string, table: string)
    | RunDDL(sql: string)
    | RunDML(sql: string)
    | RunScript(script: string)
    | Refresh

  datatype Reply =
    | Described(description: TableDescription)
    | RanDDL(validation: Verdict)
    | RanDML(rows: int)
    | RanScript(result: ScriptResult)
    | Refreshed
    | Failed(error: StoreError, partial: ScriptResult)

  function Fail(error: StoreError): Reply {
    Failed(error, NO_RESULT)
  }

  // cached is false for a store that never looks into its cache.
  function DescribeStep(engine: Engine, cfg: ConnectionConfig, cached: bool, c: Conn, w: Weather,
                        schema: string, table: string): (Conn, Reply)
  {
    var key := CacheKey(schema, table);
    if !cfg.SchemaAllowed(schema) then (c, Fail(SchemaNotAllowed))
    else if cached && key in c.cache then (c, Described(c.cache[key]))
    else if !w.queries then (c, Fail(QueryFailed))
    else
      var description := Description(engine, c.db, schema, table);
      (c.(cache := c.cache[key := description]), Described(description))
  }

  function DDLStep(engine: Engine, cfg: ConnectionConfig, c: Conn, w: Weather, sql: string): (Conn, Reply) {
    var v := Validate(sql, cfg, DDL);
    if !v.valid then (c, Fail(StatementRefused(v.reason)))
    else if !w.begin || !w.searchPath then (c, Fail(TransactionFailed))
    else
      match engine.exec(0, c.db, sql)
      case None => (c, Fail(StatementFailed(1)))
      case Some(outcome) =>
        if !w.commit then (c, Fail(TransactionFailed)) else (Conn(outcome.db, map[]), RanDDL(v))
  }

  function DMLStep(engine: Engine, cfg: ConnectionConfig, c: Conn, w: Weather, sql: string): (Conn, Reply) {
    var v := Validate(sql, cfg, DML);
    if !v.valid then (c, Fail(StatementRefused(v.reason)))
    else if !w.begin || !w.searchPath then (c, Fail(TransactionFailed))
    else
      match engine.exec(0, c.db, sql)
      case None => (c, Fail(StatementFailed(1)))
      case Some(outcome) =>
        if outcome.rows > cfg.maxAffectedRows then (c, Fail(TooManyRows(outcome.rows)))
        else if !w.commit then (c, Fail(TransactionFailed))
        else (c.(db := outcome.db), RanDML(outcome.rows))
  }

  // The length of a text in UTF-8.
  function ByteLength(s: string): nat {
    if s == "" then 0
    else
      var n := s[0] as int;
      (if n < 0x80 then 1 else if n < 0x800 then 2 else if n < 0x1_0000 then 3 else 4) + ByteLength(s[1..])
  }

  function ScriptStep(engine: Engine, cfg: ConnectionConfig, c: Conn, w: Weather, script: string): (Conn, Reply) {
    var answer := ScriptAnswer(script, cfg, cfg.maxScriptStatements);
    if ByteLength(script) > cfg.maxScriptBytes then (c, Fail(ScriptTooLong))
    else if answer.error.Some? then (c, Fail(ScriptRefused(answer.error.value)))
    else if !w.begin || !w.searchPath then (c, Fail(TransactionFailed))
    else
      var run := Execute(engine, answer.validation.statements, 0, c.db, NO_RESULT, cfg.maxScriptAffectedRows);
      if run.error.Some? then (c, Failed(run.error.value, run.result))
      else if !w.commit then (c, Failed(TransactionFailed, run.result))
      else (Conn(run.db, if run.result.ddlStatements > 0 then map[] else c.cache), RanScript(run.result))
  }

  function Step(engine: Engine, cfg: ConnectionConfig, cached: bool, c: Conn, w: Weather, op: Operation)
    : (Conn, Reply)
  {
    match op
    case Describe(schema, table) => DescribeStep(engine, cfg, cached, c, w, schema, table)
    case RunDDL(sql) => DDLStep(engine, cfg, c, w, sql)
    case RunDML(sql) => DMLStep(engine, cfg, c, w, sql)
    case RunScript(script) => ScriptStep(engine, cfg, c, w, script)
    case Refresh => (c.(cache := map[]), Refreshed)
  }

  // --------------------------------------------------------------- the object

  class Database {
    const cfg: ConnectionConfig
    const engine: Engine
    var db: Db            // committed
    var cache: Cache

    constructor (cfg: ConnectionConfig, engine: Engine, db: Db)
      ensures this.cfg == cfg && this.engine == engine && this.db == db && cache == map[]
    {
      this.cfg := cfg;
      this.engine := engine;
      this.db := db;
      this.cache := map[];
    }

    function State(): Conn
      reads this
    {
      Conn(db, cache)
    }

    method DescribeTable(schema: string, table: string, w: Weather) returns (r: Reply)
      modifies this`cache
      ensures (State(), r) == Step(engine, cfg, true, old(State()), w, Describe(schema, table))
    {
      if !cfg.SchemaAllowed(schema) {
        return Fail(SchemaNotAllowed);
      }
      var cacheKey := CacheKey(schema, table);
      if cacheKey in cache {
        return Described(cache[cacheKey]);
      }
      if !w.queries {
        return Fail(QueryFailed);
      }
      var description := Description(engine, db, schema, table);
      cache := cache[cacheKey := description];
      return Described(description);
    }

    method ExecuteDDL(sql: string, w: Weather) returns (r: Reply)
      modifies this`db, this`cache
      ensures (State(), r) == Step(engine, cfg, true, old(State()), w, RunDDL(sql))
    {
      var validation := Validate(sql, cfg, DDL);
      if !validation.valid {
        return Fail(StatementRefused(validation.reason));
      }
      if !w.begin || !w.searchPath {
        return Fail(TransactionFailed);
      }
      var outcome := engine.exec(0, db, sql);
      if outcome.None? {
        return Fail(StatementFailed(1));
      }
      if !w.commit {
        return Fail(TransactionFailed);
      }
      db := outcome.value.db;
      cache := map[];
      return RanDDL(validation);
    }

    method ExecuteDML(sql: string, w: Weather) returns (r: Reply)
      modifies this`db
      ensures (State(), r) == Step(engine, cfg, true, old(State()), w, RunDML(sql))
    {
      var validation := Validate(sql, cfg, DML);
      if !validation.valid {
        return Fail(StatementRefused(validation.reason));
      }
      if !w.begin || !w.searchPath {
        return Fail(TransactionFailed);
      }
      var outcome := engine.exec(0, db, sql);
      if outcome.None? {
        return Fail(StatementFailed(1));
      }
      if outcome.value.rows > cfg.maxAffectedRows {
        return Fail(TooManyRows(outcome.value.rows));
      }
      if !w.commit {
        return Fail(TransactionFailed);
      }
      db := outcome.value.db;
      return RanDML(outcome.value.rows);
    }

    method ExecuteScript(script: string, w: Weather) returns (r: Reply)
      modifies this`db, this`cache
      ensures (State(), r) == Step(engine, cfg, true, old(State()), w, RunScript(script))
    {
      if ByteLength(script) > cfg.maxScriptBytes {
        return Fail(ScriptTooLong);
      }
      var validation, refused := ValidateScript(script, cfg, cfg.maxScriptStatements);
      if refused.Some? {
        return Fail(ScriptRefused(refused.value));
      }
      if !w.begin || !w.searchPath {
        return Fail(TransactionFailed);
      }
      var tx := db;
      var result := NO_RESULT;
      var statements := validation.statements;
      ghost var run := Execute(engine, statements, 0, db, NO_RESULT, cfg.maxScriptAffectedRows);
      var i := 0;
      while i < |statements|
        invariant i <= |statements|
        invariant Execute(engine, statements, i, tx, result, cfg.maxScriptAffectedRows) == run
      {
        var statement := statements[i];
        var outcome := engine.exec(i, tx, statement.sql);
        if outcome.None? {
          return Failed(StatementFailed(i + 1), result);
        }
        var rowsAffected := outcome.value.rows;
        result := Counted(result, statement, rowsAffected);
        if result.rowsAffected > cfg.maxScriptAffectedRows {
          return Failed(TooManyRows(result.rowsAffected), result);
        }
        result := Reported(result, statement, i, rowsAffected);
        tx := outcome.value.db;
        i := i + 1;
      }
      if !w.commit {
        return Failed(TransactionFailed, result);
      }
      db := tx;
      if result.ddlStatements > 0 {
        cache := map[];
      }
      return RanScript(result);
    }

    method RefreshSchemaCache(w: Weather) returns (r: Reply)
      modifies this`cache
      ensures (State(), r) == Step(engine, cfg, true, old(State()), w, Refresh)
    {
      cache := map[];
      return Refreshed;
    }
  }
}
