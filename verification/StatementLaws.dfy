/** What single operations of the store do to the database and the cache. */
module StatementLaws {
  import opened Outcomes
  import opened Text
  import opened Config
  import opened Guard
  import opened Script
  import opened Store
  import opened StoreLaws

  // ------------------------------------------------------- single statements

  // A statement changes the database exactly when it is accepted as DML, the
  // transaction succeeds, the statement succeeds, and its rows are within the
  // limit. Then the database is what the statement makes of it and its rows are
  // reported; the cache stays. Otherwise nothing changes.
  lemma DMLIsAllOrNothing(engine: Engine, cfg: ConnectionConfig, c: Conn, w: Weather, sql: string)
    ensures
      var (c1, reply) := Step(engine, cfg, true, c, w, RunDML(sql));
      var outcome := engine.exec(0, c.db, sql);
      && (reply.RanDML? <==>
            && Validate(sql, cfg, DML).valid && w.begin && w.searchPath && w.commit
            && outcome.Some? && outcome.value.rows <= cfg.maxAffectedRows)
      && (if reply.RanDML? then c1 == Conn(outcome.value.db, c.cache) && reply.rows == outcome.value.rows
          else c1 == c && reply.Failed?)
  {
  }

  // DDL is the same without a limit, and empties the cache.
  lemma DDLIsAllOrNothing(engine: Engine, cfg: ConnectionConfig, c: Conn, w: Weather, sql: string)
    ensures
      var (c1, reply) := Step(engine, cfg, true, c, w, RunDDL(sql));
      var outcome := engine.exec(0, c.db, sql);
      && (reply.RanDDL? <==> Validate(sql, cfg, DDL).valid && w.begin && w.searchPath && w.commit && outcome.Some?)
      && (if reply.RanDDL? then c1 == Conn(outcome.value.db, map[]) && reply.validation == Validate(sql, cfg, DDL)
          else c1 == c && reply.Failed?)
  {
  }

  // Why a statement is not run: refused, failed, or with too many rows.
  lemma FailureIsTold(engine: Engine, cfg: ConnectionConfig, c: Conn, w: Weather, sql: string, op: Operation)
    requires op == RunDML(sql) || op == RunDDL(sql)
    ensures
      var reply := Step(engine, cfg, true, c, w, op).1;
      var v, outcome := Validate(sql, cfg, if op.RunDML? then DML else DDL), engine.exec(0, c.db, sql);
      var over := op.RunDML? && outcome.Some? && outcome.value.rows > cfg.maxAffectedRows;
      reply.Failed? ==>
        && (reply.error.StatementRefused? <==> !v.valid)
        && (reply.error.StatementRefused? ==> reply.error.reason == v.reason)
        && (reply.error.StatementFailed? <==> v.valid && w.begin && w.searchPath && outcome.None?)
        && (reply.error.TooManyRows? <==> v.valid && w.begin && w.searchPath && over)
        && (reply.error.TooManyRows? ==> reply.error.rows == outcome.value.rows)
        && (reply.error.TransactionFailed? <==>
              v.valid && (!w.begin || !w.searchPath || (outcome.Some? && !over && !w.commit)))
  {
  }

  // ------------------------------------------------------------ descriptions

  // What the catalog says of a table: its columns in order, those of the primary
  // key marked, and the rest as it is.
  predicate Describes(d: TableDescription, schema: string, table: string, entry: CatalogEntry) {
    && d.schema == schema && d.table == table
    && |d.columns| == |entry.columns|
    && (forall i | 0 <= i < |d.columns| ::
          && d.columns[i].name == entry.columns[i].0 && d.columns[i].kind == entry.columns[i].1
          && (d.columns[i].isPrimaryKey <==> entry.columns[i].0 in entry.primaryKey))
    && d.primaryKey == entry.primaryKey && d.foreignKeys == entry.foreignKeys && d.indexes == entry.indexes
  }

  // A table of an allowed schema is described from the cache, or else from the
  // catalog, if that can be asked; then the description goes into the cache under
  // the key of the table, and nothing else changes.
  lemma DescribeIsExact(engine: Engine, cfg: ConnectionConfig, c: Conn, w: Weather, schema: string, table: string)
    ensures
      var (c1, reply) := Step(engine, cfg, true, c, w, Describe(schema, table));
      var key := CacheKey(schema, table);
      && (reply.Described? <==> cfg.SchemaAllowed(schema) && (key in c.cache || w.queries))
      && (!reply.Described? ==> c1 == c && reply.Failed?
                                && reply.error == if cfg.SchemaAllowed(schema) then QueryFailed else SchemaNotAllowed)
      && (reply.Described? && key in c.cache ==> c1 == c && reply.description == c.cache[key])
      && (reply.Described? && key !in c.cache ==>
            && Describes(reply.description, schema, table, engine.catalog(c.db, schema, table))
            && c1 == Conn(c.db, c.cache[key := reply.description]))
  {
  }

  // --------------------------------------------------------- after a script

  predicate AnyDDL(statements: seq<ScriptStatement>, i: nat) {
    exists k | i <= k < |statements| :: statements[k].mode != DML
  }

  lemma {:induction false} DDLAreCounted(engine: Engine, statements: seq<ScriptStatement>, i: nat, db: Db,
                                         r: ScriptResult, limit: int)
    requires i <= |statements|
    ensures
      var run := Execute(engine, statements, i, db, r, limit);
      run.error.None? ==>
        (run.result.ddlStatements > 0 <==> r.ddlStatements > 0 || AnyDDL(statements, i))
    decreases |statements| - i
  {
    if i < |statements| && engine.exec(i, db, statements[i].sql).Some? {
      var outcome := engine.exec(i, db, statements[i].sql).value;
      var counted := Counted(r, statements[i], outcome.rows);
      DDLAreCounted(engine, statements, i + 1, outcome.db, Reported(counted, statements[i], i, outcome.rows), limit);
    }
  }

  // A script leaves the cache alone exactly when none of its statements is DDL.
  lemma ScriptEmptiesCache(engine: Engine, cfg: ConnectionConfig, c: Conn, w: Weather, script: string)
    requires Step(engine, cfg, true, c, w, RunScript(script)).1.RanScript?
    ensures
      var c1 := Step(engine, cfg, true, c, w, RunScript(script)).0;
      c1.cache == if AnyDDL(StatementsOf(cfg, script), 0) then map[] else c.cache
  {
    RanIsExecuted(engine, cfg, c, w, script);
    DDLAreCounted(engine, StatementsOf(cfg, script), 0, c.db, NO_RESULT, cfg.maxScriptAffectedRows);
  }

  lemma RanIsExecuted(engine: Engine, cfg: ConnectionConfig, c: Conn, w: Weather, script: string)
    requires Step(engine, cfg, true, c, w, RunScript(script)).1.RanScript?
    ensures
      var run := Execute(engine, StatementsOf(cfg, script), 0, c.db, NO_RESULT, cfg.maxScriptAffectedRows);
      && run.error.None?
      && Step(engine, cfg, true, c, w, RunScript(script)).0.cache
         == if run.result.ddlStatements > 0 then map[] else c.cache
  {
  }

  // -------------------------------------------------------- lengths in bytes

  // The length in UTF-8 adds up, one rune after the other.
  lemma {:induction false} BytesAddUp(x: string, y: string)
    ensures ByteLength(x + y) == ByteLength(x) + ByteLength(y)
  {
    if x == "" {
      assert x + y == y;
    } else {
      CutAppend(x, 1, y);
      assert (x + y)[0] == x[0];
      BytesAddUp(x[1..], y);
    }
  }

  lemma RuneBytes(x: string)
    requires |x| == 1
    ensures 1 <= ByteLength(x) <= 4
    ensures ByteLength(x) == 1 <==> (x[0] as int) <= 0x7F
    ensures ByteLength(x) <= 2 <==> (x[0] as int) <= 0x7FF
    ensures ByteLength(x) <= 3 <==> (x[0] as int) <= 0xFFFF
  {
    assert x[1..] == "";
  }

  // Refreshing empties the cache and leaves the database.
  lemma RefreshEmptiesCache(engine: Engine, cfg: ConnectionConfig, c: Conn, w: Weather)
    ensures Step(engine, cfg, true, c, w, Refresh) == (Conn(c.db, map[]), Refreshed)
  {
  }
}
