/** A store with its cache answers as one that always asks the catalog. */
module CacheLaws {
  import opened Outcomes
  import opened Text
  import opened Lexer
  import opened Config
  import opened Guard
  import opened GuardLaws
  import opened Commute
  import opened Script
  import opened Store

  // -------------------------------------------------------------- cache keys

  // No configured schema, taken without case, goes on another after a dot, and
  // no wildcard allows every schema.
  predicate SchemasKeepApart(cfg: ConnectionConfig) {
    && "*" !in cfg.schemas
    && forall i, j | 0 <= i < |cfg.schemas| && 0 <= j < |cfg.schemas| ::
         !(ToLower(cfg.schemas[i]) + "." <= ToLower(cfg.schemas[j]))
  }

  // Allowed tables have different keys.
  ghost predicate KeysAreInjective(cfg: ConnectionConfig) {
    forall s, t, s', t' ::
      cfg.SchemaAllowed(s) && cfg.SchemaAllowed(s') && CacheKey(s, t) == CacheKey(s', t') ==> s == s' && t == t'
  }

  lemma LowerPrefix(x: string, y: string)
    requires x <= y
    ensures ToLower(x) <= ToLower(y)
  {
  }

  lemma LowerDot(x: string)
    ensures ToLower(x + ".") == ToLower(x) + "."
  {
  }

  lemma ShorterSchemaExtends(cfg: ConnectionConfig, s: string, t: string, s': string, t': string)
    requires "*" !in cfg.schemas && cfg.SchemaAllowed(s) && cfg.SchemaAllowed(s')
    requires CacheKey(s, t) == CacheKey(s', t') && |s| < |s'|
    ensures !SchemasKeepApart(cfg)
  {
    var key := CacheKey(s, t);
    assert key[..|s| + 1] == s + "." && key[..|s'|] == s';
    assert s + "." <= s';
    LowerPrefix(s + ".", s');
    LowerDot(s);
    var i :| 0 <= i < |cfg.schemas| && EqualFold(cfg.schemas[i], s);
    var j :| 0 <= j < |cfg.schemas| && EqualFold(cfg.schemas[j], s');
    assert ToLower(cfg.schemas[i]) + "." <= ToLower(cfg.schemas[j]);
  }

  // Two configured schemas of which one goes on the other give two tables the
  // same key.
  lemma ExtendingSchemasCollide(cfg: ConnectionConfig, i: nat, j: nat)
    requires i < |cfg.schemas| && j < |cfg.schemas|
    requires ToLower(cfg.schemas[i]) + "." <= ToLower(cfg.schemas[j])
    ensures !KeysAreInjective(cfg)
  {
    var a, b := cfg.schemas[i], cfg.schemas[j];
    var n := |a|;
    var s, rest := b[..n], b[n + 1..];
    assert ToLower(b)[..n] == ToLower(a) && ToLower(b)[n] == '.';
    assert ToLower(s) == ToLower(a);
    assert b[n] == '.';
    assert b == s + "." + rest;
    assert CacheKey(s, rest + ".") == CacheKey(b, "") by {
      assert s + "." + (rest + ".") == b + "." + "";
    }
    assert cfg.SchemaAllowed(s) && cfg.SchemaAllowed(b);
    assert |s| != |b|;
  }

  // The joined key tells allowed tables apart exactly when the configured
  // schemas keep apart; schemas without dots and wildcard do.
  lemma KeysAreInjectiveIff(cfg: ConnectionConfig)
    ensures KeysAreInjective(cfg) <==> SchemasKeepApart(cfg)
  {
    if "*" in cfg.schemas {
      assert CacheKey("a", "b.c") == CacheKey("a.b", "c");
      assert cfg.SchemaAllowed("a") && cfg.SchemaAllowed("a.b");
      assert "a" != "a.b";
    } else if SchemasKeepApart(cfg) {
      forall s, t, s', t' | cfg.SchemaAllowed(s) && cfg.SchemaAllowed(s') && CacheKey(s, t) == CacheKey(s', t')
        ensures s == s' && t == t'
      {
        if |s| < |s'| {
          ShorterSchemaExtends(cfg, s, t, s', t');
        } else if |s'| < |s| {
          ShorterSchemaExtends(cfg, s', t', s, t);
        }
        var key := CacheKey(s, t);
        assert s == key[..|s|] && s' == key[..|s'|];
        assert t == key[|s| + 1..] && t' == key[|s'| + 1..];
      }
    } else {
      var i, j :| 0 <= i < |cfg.schemas| && 0 <= j < |cfg.schemas|
                  && ToLower(cfg.schemas[i]) + "." <= ToLower(cfg.schemas[j]);
      ExtendingSchemasCollide(cfg, i, j);
    }
  }

  lemma DotFreeSchemasKeepApart(cfg: ConnectionConfig)
    requires "*" !in cfg.schemas && forall s | s in cfg.schemas :: '.' !in s
    ensures SchemasKeepApart(cfg)
  {
    forall j | 0 <= j < |cfg.schemas|
      ensures '.' !in ToLower(cfg.schemas[j])
    {
      assert cfg.schemas[j] in cfg.schemas;
    }
    forall i, j | 0 <= i < |cfg.schemas| && 0 <= j < |cfg.schemas|
      ensures !(ToLower(cfg.schemas[i]) + "." <= ToLower(cfg.schemas[j]))
    {
      var p := ToLower(cfg.schemas[i]) + ".";
      assert p[|p| - 1] == '.';
    }
  }

  // --------------------------------------------------------------- coherence

  // DML statements do not change what the catalog says.
  ghost predicate DMLKeepsCatalog(engine: Engine) {
    forall i, db, sql, schema, table ::
      IsDMLOperation(OperationOf(sql)) && engine.exec(i, db, sql).Some? ==>
        engine.catalog(engine.exec(i, db, sql).value.db, schema, table) == engine.catalog(db, schema, table)
  }

  ghost predicate SameCatalog(engine: Engine, db: Db, db': Db) {
    forall schema, table :: engine.catalog(db, schema, table) == engine.catalog(db', schema, table)
  }

  // Every entry is the current description of the table it is looked up for.
  ghost predicate Coherent(engine: Engine, cfg: ConnectionConfig, c: Conn) {
    forall schema, table :: cfg.SchemaAllowed(schema) && CacheKey(schema, table) in c.cache ==>
      c.cache[CacheKey(schema, table)] == Description(engine, c.db, schema, table)
  }

  lemma DescribingIsCoherent(engine: Engine, cfg: ConnectionConfig, cached: bool, c: Conn, w: Weather,
                             schema: string, table: string)
    requires SchemasKeepApart(cfg) && Coherent(engine, cfg, c)
    ensures Coherent(engine, cfg, DescribeStep(engine, cfg, cached, c, w, schema, table).0)
  {
    KeysAreInjectiveIff(cfg);
    var c1 := DescribeStep(engine, cfg, cached, c, w, schema, table).0;
    forall s, t | cfg.SchemaAllowed(s) && CacheKey(s, t) in c1.cache
      ensures c1.cache[CacheKey(s, t)] == Description(engine, c1.db, s, t)
    {
      if c1 != c && CacheKey(s, t) == CacheKey(schema, table) {
        assert s == schema && t == table;
      }
    }
  }

  lemma SameCatalogIsCoherent(engine: Engine, cfg: ConnectionConfig, c: Conn, db: Db)
    requires Coherent(engine, cfg, c) && SameCatalog(engine, c.db, db)
    ensures Coherent(engine, cfg, c.(db := db))
  {
    forall schema, table | cfg.SchemaAllowed(schema) && CacheKey(schema, table) in c.cache
      ensures c.cache[CacheKey(schema, table)] == Description(engine, db, schema, table)
    {
      assert engine.catalog(c.db, schema, table) == engine.catalog(db, schema, table);
    }
  }

  // An execution in which no DDL statement runs keeps the catalog.
  lemma {:induction false} DMLScriptKeepsCatalog(engine: Engine, statements: seq<ScriptStatement>, i: nat, db: Db,
                                                 r: ScriptResult, limit: int)
    requires DMLKeepsCatalog(engine) && i <= |statements|
    requires forall s | s in statements :: ScriptMode(OperationOf(s.sql)) == Some(s.mode)
    ensures
      var run := Execute(engine, statements, i, db, r, limit);
      && run.result.ddlStatements >= r.ddlStatements
      && (run.result.ddlStatements == r.ddlStatements ==> SameCatalog(engine, db, run.db))
    decreases |statements| - i
  {
    if i < |statements| && engine.exec(i, db, statements[i].sql).Some? {
      var s, outcome := statements[i], engine.exec(i, db, statements[i].sql).value;
      var counted := Counted(r, s, outcome.rows);
      assert s in statements;
      if counted.rowsAffected <= limit {
        var r1 := Reported(counted, s, i, outcome.rows);
        DMLScriptKeepsCatalog(engine, statements, i + 1, outcome.db, r1, limit);
        var run := Execute(engine, statements, i + 1, outcome.db, r1, limit);
        if s.mode == DML {
          assert SameCatalog(engine, db, outcome.db);
          assert SameCatalog(engine, outcome.db, run.db) ==> SameCatalog(engine, db, run.db);
        }
      }
    }
  }

  lemma AcceptedModes(script: string, cfg: ConnectionConfig)
    requires ScriptAnswer(script, cfg, cfg.maxScriptStatements).error.None?
    ensures forall s | s in ScriptAnswer(script, cfg, cfg.maxScriptStatements).validation.statements ::
      ScriptMode(OperationOf(s.sql)) == Some(s.mode)
  {
    ScriptIsAccepted(script, cfg, cfg.maxScriptStatements);
    var xs := Executables(script).value;
    assert ScriptAnswer(script, cfg, cfg.maxScriptStatements).validation.statements == JudgedAll(xs, cfg);
    JudgedModes(xs, cfg);
  }

  lemma JudgedModes(xs: seq<string>, cfg: ConnectionConfig)
    requires forall x | x in xs :: StatementAccepted(x, cfg)
    ensures forall s | s in JudgedAll(xs, cfg) :: ScriptMode(OperationOf(s.sql)) == Some(s.mode)
  {
    var js := JudgedAll(xs, cfg);
    forall s | s in js
      ensures ScriptMode(OperationOf(s.sql)) == Some(s.mode)
    {
      var i :| 0 <= i < |js| && js[i] == s;
      assert xs[i] in xs;
    }
  }

  lemma DMLIsOperation(sql: string, cfg: ConnectionConfig)
    requires Validate(sql, cfg, DML).valid
    ensures IsDMLOperation(OperationOf(sql))
  {
    AcceptedIsJudged(sql, cfg, DML);
    TrimmedTokens(sql);
  }

  lemma StepKeepsCoherence(engine: Engine, cfg: ConnectionConfig, cached: bool, c: Conn, w: Weather, op: Operation)
    requires SchemasKeepApart(cfg) && DMLKeepsCatalog(engine) && Coherent(engine, cfg, c)
    ensures Coherent(engine, cfg, Step(engine, cfg, cached, c, w, op).0)
  {
    match op
    case Describe(schema, table) => DescribingIsCoherent(engine, cfg, cached, c, w, schema, table);
    case RunDML(sql) =>
      var (c1, r) := DMLStep(engine, cfg, c, w, sql);
      if r.RanDML? {
        DMLIsOperation(sql, cfg);
        SameCatalogIsCoherent(engine, cfg, c, c1.db);
      }
    case RunScript(script) =>
      var (c1, r) := ScriptStep(engine, cfg, c, w, script);
      if r.RanScript? && r.result.ddlStatements == 0 {
        AcceptedModes(script, cfg);
        DMLScriptKeepsCatalog(engine, ScriptAnswer(script, cfg, cfg.maxScriptStatements).validation.statements, 0,
                              c.db, NO_RESULT, cfg.maxScriptAffectedRows);
        SameCatalogIsCoherent(engine, cfg, c, c1.db);
      }
    case _ =>
  }

  // -------------------------------------------------------------- refinement

  function Run(engine: Engine, cfg: ConnectionConfig, cached: bool, c: Conn, ops: seq<(Weather, Operation)>)
    : (r: (Conn, seq<Reply>))
    ensures |r.1| == |ops|
    decreases |ops|
  {
    if ops == [] then (c, [])
    else
      var (c1, r) := Step(engine, cfg, cached, c, ops[0].0, ops[0].1);
      var (c2, rs) := Run(engine, cfg, cached, c1, ops[1..]);
      (c2, [r] + rs)
  }

  // The cache may answer where a catalog query would fail, and in no other way
  // gives a different reply; what it then says is said of database db.
  predicate Refines(engine: Engine, db: Db, op: Operation, with: Reply, without: Reply) {
    || with == without
    || (op.Describe? && without == Fail(QueryFailed)
        && with == Described(Description(engine, db, op.schema, op.table)))
  }

  lemma StepRefines(engine: Engine, cfg: ConnectionConfig, c: Conn, d: Conn, w: Weather, op: Operation)
    requires Coherent(engine, cfg, c) && c.db == d.db
    ensures
      var (c1, r), (d1, q) := Step(engine, cfg, true, c, w, op), Step(engine, cfg, false, d, w, op);
      c1.db == d1.db && Refines(engine, c.db, op, r, q)
  {
  }

  // The database before each operation of a run; it does not depend on caching.
  function Databases(engine: Engine, cfg: ConnectionConfig, c: Conn, ops: seq<(Weather, Operation)>): (r: seq<Db>)
    ensures |r| == |ops|
    decreases |ops|
  {
    if ops == [] then []
    else [c.db] + Databases(engine, cfg, Step(engine, cfg, false, c, ops[0].0, ops[0].1).0, ops[1..])
  }

  lemma {:induction false} RunRefines(engine: Engine, cfg: ConnectionConfig, c: Conn, d: Conn,
                                      ops: seq<(Weather, Operation)>)
    requires SchemasKeepApart(cfg) && DMLKeepsCatalog(engine) && Coherent(engine, cfg, c) && c.db == d.db
    ensures
      var (c1, rs), (d1, qs) := Run(engine, cfg, true, c, ops), Run(engine, cfg, false, d, ops);
      && c1.db == d1.db && Coherent(engine, cfg, c1)
      && forall k | 0 <= k < |ops| :: Refines(engine, Databases(engine, cfg, d, ops)[k], ops[k].1, rs[k], qs[k])
    decreases |ops|
  {
    if ops != [] {
      var (w, op) := ops[0];
      StepRefines(engine, cfg, c, d, w, op);
      StepKeepsCoherence(engine, cfg, true, c, w, op);
      var (c1, r) := Step(engine, cfg, true, c, w, op);
      var (d1, q) := Step(engine, cfg, false, d, w, op);
      RunRefines(engine, cfg, c1, d1, ops[1..]);
      var rs, qs := Run(engine, cfg, true, c1, ops[1..]).1, Run(engine, cfg, false, d1, ops[1..]).1;
      RefinesAll(engine, d.db, Databases(engine, cfg, d1, ops[1..]), ops, r, rs, q, qs);
    }
  }

  lemma RefinesAll(engine: Engine, db: Db, dbs: seq<Db>, ops: seq<(Weather, Operation)>,
                   r: Reply, rs: seq<Reply>, q: Reply, qs: seq<Reply>)
    requires |dbs| == |rs| == |qs| == |ops| - 1 && Refines(engine, db, ops[0].1, r, q)
    requires forall k | 0 <= k < |dbs| :: Refines(engine, dbs[k], ops[1..][k].1, rs[k], qs[k])
    ensures forall k | 0 <= k < |ops| :: Refines(engine, ([db] + dbs)[k], ops[k].1, ([r] + rs)[k], ([q] + qs)[k])
  {
    forall k | 0 <= k < |ops|
      ensures Refines(engine, ([db] + dbs)[k], ops[k].1, ([r] + rs)[k], ([q] + qs)[k])
    {
      if k > 0 {
        assert Refines(engine, dbs[k - 1], ops[1..][k - 1].1, rs[k - 1], qs[k - 1]);
      }
    }
  }

  // Over any sequence of operations on a new connection, a store with its cache
  // leaves the same database and gives the same replies as one without, except
  // that it may still describe a table, rightly, where the catalog cannot be
  // asked.
  lemma CacheIsInvisible(engine: Engine, cfg: ConnectionConfig, db: Db, ops: seq<(Weather, Operation)>)
    requires SchemasKeepApart(cfg) && DMLKeepsCatalog(engine)
    ensures
      var start := Conn(db, map[]);
      var (c, rs), (d, qs) := Run(engine, cfg, true, start, ops), Run(engine, cfg, false, start, ops);
      && c.db == d.db
      && forall k | 0 <= k < |ops| :: Refines(engine, Databases(engine, cfg, start, ops)[k], ops[k].1, rs[k], qs[k])
  {
    RunRefines(engine, cfg, Conn(db, map[]), Conn(db, map[]), ops);
  }

  // Schemas that do not keep apart make the cache visible: of two tables with
  // one key, the second is described as the first.
  lemma CollidingKeysShow(engine: Engine, cfg: ConnectionConfig, db: Db, w: Weather,
                          s: string, t: string, s': string, t': string)
    requires cfg.SchemaAllowed(s) && cfg.SchemaAllowed(s') && CacheKey(s, t) == CacheKey(s', t') && w.queries
    requires s != s' || t != t'
    ensures
      var ops := [(w, Describe(s, t)), (w, Describe(s', t'))];
      var start := Conn(db, map[]);
      Run(engine, cfg, true, start, ops).1[1] != Run(engine, cfg, false, start, ops).1[1]
  {
    var first, second := (w, Describe(s, t)), (w, Describe(s', t'));
    var start := Conn(db, map[]);
    assert [first, second][1..] == [second] && [second][1..] == [];
    var c1 := Step(engine, cfg, true, start, w, Describe(s, t)).0;
    var d1 := Step(engine, cfg, false, start, w, Describe(s, t)).0;
    assert Run(engine, cfg, true, c1, [second]).1 == [Described(Description(engine, db, s, t))];
    assert Run(engine, cfg, false, d1, [second]).1 == [Described(Description(engine, db, s', t'))];
  }
}
