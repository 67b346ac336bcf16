/** Where names without a schema lead: the search path that the store sets before
    a statement, and the table that the statement then runs on. */
module SearchPath {
  import opened Outcomes
  import opened Text
  import opened Lexer
  import opened Config
  import opened Guard
  import opened GuardLaws
  import opened Examples

  // ------------------------------------------------------------------- paths

  // The path that the store sets, if any: the configured schemas, in their order,
  // unless there are none or one of them is the wildcard.
  function ScopedPath(cfg: ConnectionConfig): Option<seq<string>> {
    if cfg.schemas == [] || "*" in cfg.schemas then None else Some(cfg.schemas)
  }

  lemma PathIsExact(cfg: ConnectionConfig, path: seq<string>)
    ensures ScopedPath(cfg) == Some(path)
      <==> path == cfg.schemas && |path| > 0 && forall i | 0 <= i < |path| :: path[i] != "*"
  {
  }

  method SetScopedSearchPath(cfg: ConnectionConfig) returns (path: Option<seq<string>>)
    ensures path == ScopedPath(cfg)
  {
    if |cfg.schemas| == 0 {
      return None;
    }
    for i := 0 to |cfg.schemas|
      invariant "*" !in cfg.schemas[..i]
    {
      if cfg.schemas[i] == "*" {
        return None;
      }
    }
    assert cfg.schemas[..|cfg.schemas|] == cfg.schemas;
    var parts := [];
    for i := 0 to |cfg.schemas|
      invariant parts == cfg.schemas[..i]
    {
      parts := parts + [cfg.schemas[i]];
    }
    return Some(parts);
  }

  // A database server: the schemas that it searches before every path that does
  // not list them, the path of a connection that sets none, and its tables.
  datatype Server = Server(system: seq<string>, default: seq<string>, has: (string, string) -> bool)

  function Without(xs: seq<string>, ys: seq<string>): (r: seq<string>)
    ensures forall x :: x in r <==> x in xs && x !in ys
  {
    if xs == [] then [] else (if xs[0] in ys then [] else [xs[0]]) + Without(xs[1..], ys)
  }

  // The schemas that are searched for a name without one.
  function Searched(server: Server, cfg: ConnectionConfig): seq<string> {
    var path := match ScopedPath(cfg) case None => server.default case Some(p) => p;
    Without(server.system, path) + path
  }

  // The first schema of the path that has the table.
  function Resolve(path: seq<string>, has: (string, string) -> bool, name: string): Option<string> {
    if path == [] then None else if has(path[0], name) then Some(path[0]) else Resolve(path[1..], has, name)
  }

  lemma {:induction false} ResolvesToFirst(path: seq<string>, has: (string, string) -> bool, name: string, s: string)
    ensures Resolve(path, has, name) == Some(s)
      <==> exists i | 0 <= i < |path| :: path[i] == s && has(s, name) && forall j | 0 <= j < i :: !has(path[j], name)
  {
    if path != [] && !has(path[0], name) {
      ResolvesToFirst(path[1..], has, name, s);
      if Resolve(path, has, name) == Some(s) {
        var i :| 0 <= i < |path| - 1 && path[1..][i] == s && forall j | 0 <= j < i :: !has(path[1..][j], name);
        assert forall j | 0 < j < i + 1 :: path[j] == path[1..][j - 1];
        assert path[i + 1] == s;
      }
      if i :| 0 <= i < |path| && path[i] == s && has(s, name) && forall j | 0 <= j < i :: !has(path[j], name) {
        assert path[1..][i - 1] == s;
        assert forall j | 0 <= j < i - 1 :: path[1..][j] == path[j + 1];
      }
    }
  }

  // The schema and name of the table that a statement runs on, if there is one.
  function RunsOn(server: Server, cfg: ConnectionConfig, r: Relation): Option<(string, string)> {
    match r.schema
    case Some(s) => if server.has(s, r.name) then Some((s, r.name)) else None
    case None =>
      match Resolve(Searched(server, cfg), server.has, r.name)
      case None => None
      case Some(s) => Some((s, r.name))
  }

  // ---------------------------------------------- what is checked and what runs

  // The name has its schema with it, or the path leads to public.
  predicate LeadsToPublic(server: Server, cfg: ConnectionConfig, r: Relation) {
    r.schema.Some? || Resolve(Searched(server, cfg), server.has, r.name) == Some("public")
  }

  // The guard checks the table that the statement runs on exactly when the names
  // are plain and either the schema is written or the path leads to public.
  lemma CheckedIsRun(server: Server, cfg: ConnectionConfig, r: Relation)
    requires r.Table() != "" && RunsOn(server, cfg, r).Some?
    ensures RunsOn(server, cfg, r).value == SplitTable(r.Table()) <==> PlainNames(r) && LeadsToPublic(server, cfg, r)
  {
    ReferenceIsRecovered(r);
    if r.schema.None? {
      NameAloneIsPublic(r.name);
    }
  }

  lemma NameAloneIsPublic(n: string)
    requires Trim(n) != ""
    ensures SplitTable(NormalizeTable(n)).1 == n ==> SplitTable(NormalizeTable(n)).0 == "public"
  {
    var t := Trim(n);
    var lead, trail := TrimParts(n);
    if '.' in t {
      SplitHasNoDots(t);
      assert '.' in n;
    } else {
      var full := "public" + "." + t;
      assert full[|full| - 1] == t[|t| - 1];
      assert full == "public." + t;
      SplitAtDot("public", t);
      assert TrimQuotesLeft("public") == "public" && TrimQuotesRight("public") == "public";
    }
  }

  // No schema but public is searched.
  predicate OnlyPublic(path: seq<string>) {
    forall i | 0 <= i < |path| :: path[i] == "public"
  }

  lemma {:induction false} OnlyPublicResolves(path: seq<string>, has: (string, string) -> bool, name: string)
    requires OnlyPublic(path) && Resolve(path, has, name).Some?
    ensures Resolve(path, has, name).value == "public"
  {
    if !has(path[0], name) {
      OnlyPublicResolves(path[1..], has, name);
    }
  }

  lemma {:induction false} OthersResolve(path: seq<string>, name: string)
    requires !OnlyPublic(path)
    ensures
      var r := Resolve(path, (s, n) => s != "public", name);
      r.Some? && r.value != "public"
  {
    if path[0] == "public" {
      OthersResolve(path[1..], name);
    }
  }

  // Whatever tables there are, what the guard checks for a plain name is what
  // runs, exactly when the schemas searched are public and no other or the
  // schema is written.
  lemma ScopeIsExact(server: Server, cfg: ConnectionConfig, r: Relation)
    requires r.Table() != "" && PlainNames(r)
    ensures
      (forall has | RunsOn(server.(has := has), cfg, r).Some? ::
         RunsOn(server.(has := has), cfg, r).value == SplitTable(r.Table()))
      <==> r.schema.Some? || OnlyPublic(Searched(server, cfg))
  {
    forall has | RunsOn(server.(has := has), cfg, r).Some?
      ensures RunsOn(server.(has := has), cfg, r).value == SplitTable(r.Table())
        <==> LeadsToPublic(server.(has := has), cfg, r)
    {
      CheckedIsRun(server.(has := has), cfg, r);
      if OnlyPublic(Searched(server, cfg)) && r.schema.None? {
        OnlyPublicResolves(Searched(server, cfg), has, r.name);
      }
    }
    if r.schema.None? {
      if OnlyPublic(Searched(server, cfg)) {
        forall has | RunsOn(server.(has := has), cfg, r).Some?
          ensures LeadsToPublic(server.(has := has), cfg, r)
        {
          OnlyPublicResolves(Searched(server, cfg), has, r.name);
        }
      } else {
        OthersResolve(Searched(server, cfg), r.name);
        var has := (s, n) => s != "public";
        assert RunsOn(server.(has := has), cfg, r).Some?;
      }
    }
  }

  // ------------------------------------------------------ accepted statements

  lemma {:induction false} ResolvedIsOnPath(path: seq<string>, has: (string, string) -> bool, name: string)
    requires Resolve(path, has, name).Some?
    ensures Resolve(path, has, name).value in path && has(Resolve(path, has, name).value, name)
  {
    if !has(path[0], name) {
      ResolvedIsOnPath(path[1..], has, name);
    }
  }

  // Where the store sets the path, a name without a schema leads to a configured
  // schema or to one of the system's own.
  lemma ScopedNamesStayAllowed(server: Server, cfg: ConnectionConfig, name: string)
    requires ScopedPath(cfg).Some? && Resolve(Searched(server, cfg), server.has, name).Some?
    ensures
      var s := Resolve(Searched(server, cfg), server.has, name).value;
      s in server.system || cfg.SchemaAllowed(s)
  {
    ResolvedIsOnPath(Searched(server, cfg), server.has, name);
    var s := Resolve(Searched(server, cfg), server.has, name).value;
    if s !in server.system {
      var i :| 0 <= i < |cfg.schemas| && cfg.schemas[i] == s;
    }
  }

  // A relation that an accepted statement reads with plain names is in an allowed
  // schema, or without one in one of the system's own; and if the path leads to
  // public, it is a table on which every operation is permitted.
  lemma AcceptedRunsOnAllowed(server: Server, cfg: ConnectionConfig, sql: string, mode: Mode, k: nat)
    requires Validate(sql, cfg, mode).valid && ScopedPath(cfg).Some?
    requires
      var ts := TokensOf(sql);
      ReadsRelation(ts, Operation(ts), k) && !ConsumedAsName(ts, Operation(ts), k)
    ensures
      var ts := TokensOf(sql);
      ReadRelation(ts, k).Ok?
      && var r := ReadRelation(ts, k).value;
         r.Table() != "" && PlainNames(r) && RunsOn(server, cfg, r).Some? ==>
           var (schema, name) := RunsOn(server, cfg, r).value;
           && (cfg.SchemaAllowed(schema) || (r.schema.None? && schema in server.system))
           && (LeadsToPublic(server, cfg, r) ==>
                 forall o | o in OperationsOn(ts, mode) :: cfg.DMLAllowed(schema, name, o))
  {
    AcceptedRelations(sql, cfg, mode, k);
    var r := ReadRelation(TokensOf(sql), k).value;
    if r.schema.None? && RunsOn(server, cfg, r).Some? {
      ScopedNamesStayAllowed(server, cfg, r.name);
    }
  }

  // ------------------------------------------------------------ where it fails

  lemma DeletionNamesItsTable()
    ensures TokensOf(DELETION) == DeleteTokenList()
    ensures ReadRelation(DeleteTokenList(), 1) == Ok(Relation(None, "t", 3))
  {
    DeleteIsLexed();
    DeleteReference();
  }

  // Wherever the path leads t to another schema than public, the deletion of t is
  // accepted as one of public.t and runs on the table of that schema.
  lemma DeletionRunsElsewhere(server: Server, cfg: ConnectionConfig, s: string)
    requires LetsDelete(cfg) && Resolve(Searched(server, cfg), server.has, "t") == Some(s)
    ensures
      var v, r := Validate(DELETION, cfg, DML), ReadRelation(TokensOf(DELETION), 1);
      && v.valid && v.tables == ["public.t"] && SplitTable("public.t") == ("public", "t")
      && r.Ok? && RunsOn(server, cfg, r.value) == Some((s, "t"))
  {
    DeletionIsValid(cfg);
    DeletionNamesItsTable();
    PublicTable();
  }

  // With the schemas app and public and one policy, for public.t, the deletion of
  // t is accepted; it runs on app.t, if there is one, which no policy lets it.
  lemma PolicyIsMissed(server: Server, cfg: ConnectionConfig, app: string)
    requires cfg.schemas == [app, "public"] && cfg.dmlPolicies == [DMLPolicy("public", "t", ["delete"])]
    requires app != "*" && !EqualFold("public", app)
    requires server.has(app, "t") && forall s | s in server.system :: !server.has(s, "t")
    ensures
      var v, r := Validate(DELETION, cfg, DML), ReadRelation(TokensOf(DELETION), 1);
      && v.valid && v.tables == ["public.t"]
      && r.Ok? && PlainNames(r.value) && RunsOn(server, cfg, r.value) == Some((app, "t"))
      && !cfg.DMLAllowed(app, "t", "delete")
  {
    assert cfg.schemas[1] == "public" && MatchesName(cfg.dmlPolicies[0].operations[0], "delete");
    assert Permits(cfg.dmlPolicies[0], "public", "t", "delete");
    assert ScopedPath(cfg) == Some(cfg.schemas);
    PassesOver(Without(server.system, cfg.schemas), cfg.schemas, server.has, "t");
    DeletionRunsElsewhere(server, cfg, app);
    DeletionNamesItsTable();
  }

  lemma {:induction false} PassesOver(xs: seq<string>, ys: seq<string>, has: (string, string) -> bool, name: string)
    requires forall x | x in xs :: !has(x, name)
    ensures Resolve(xs + ys, has, name) == Resolve(ys, has, name)
  {
    if xs == [] {
      assert xs + ys == ys;
    } else {
      CutAppend(xs, 1, ys);
      PassesOver(xs[1..], ys, has, name);
    }
  }
}
