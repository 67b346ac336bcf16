/** What an accepted statement is known to satisfy. */
module GuardLaws {
  import opened Outcomes
  import opened Text
  import opened Scan
  import opened Lexer
  import opened Config
  import opened Guard

  // ------------------------------------------------------------ unique lists

  // The duplicate-free union: exactly the non-empty members, the given list first.
  lemma {:induction false} AppendUniqueIsUnion(tables: seq<string>, values: seq<string>)
    ensures forall t :: t in AppendUnique(tables, values) <==> t in tables || (t in values && t != "")
    ensures NoRepeats(tables) ==> NoRepeats(AppendUnique(tables, values))
    ensures tables <= AppendUnique(tables, values)
    decreases |values|
  {
    if values != [] {
      AppendUniqueIsUnion(AppendNew(tables, values[0]), values[1..]);
      assert values == [values[0]] + values[1..];
    }
  }

  // Where x first occurs among the values.
  function FirstAt(values: seq<string>, x: string): nat {
    if values == [] || values[0] == x then 0 else 1 + FirstAt(values[1..], x)
  }

  // The names that are added were not there, and are in the order in which the
  // values first have them.
  lemma {:induction false} AddedInOrder(tables: seq<string>, values: seq<string>)
    ensures
      var r := AppendUnique(tables, values);
      && tables <= r
      && (forall i | |tables| <= i < |r| :: r[i] !in tables && r[i] in values && r[i] != "")
      && (forall i, j | |tables| <= i < j < |r| :: FirstAt(values, r[i]) < FirstAt(values, r[j]))
    decreases |values|
  {
    if values != [] {
      var next, rest := AppendNew(tables, values[0]), values[1..];
      var r := AppendUnique(next, rest);
      AddedInOrder(next, rest);
      forall i | |tables| <= i < |r|
        ensures r[i] !in tables && r[i] in values && r[i] != ""
        ensures i >= |next| ==> FirstAt(values, r[i]) == 1 + FirstAt(rest, r[i])
        ensures i < |next| ==> FirstAt(values, r[i]) == 0
      {
        assert i < |next| ==> r[i] == next[i] == values[0];
        assert i >= |next| ==> r[i] !in next && r[i] in rest;
      }
    }
  }

  lemma {:induction false} AppendUniqueConcat(tables: seq<string>, xs: seq<string>, ys: seq<string>)
    ensures AppendUnique(tables, xs + ys) == AppendUnique(AppendUnique(tables, xs), ys)
    decreases |xs|
  {
    if xs == [] {
      assert xs + ys == ys;
    } else {
      assert (xs + ys)[1..] == xs[1..] + ys;
      AppendUniqueConcat(AppendNew(tables, xs[0]), xs[1..], ys);
    }
  }

  // --------------------------------------------------------- reference names

  // The schema that the guard takes for a reference; without one it is public.
  function SchemaOf(r: Relation): string {
    match r.schema case None => "public" case Some(s) => s
  }

  predicate BareName(s: string) {
    '.' !in s && TrimQuotes(s) == s
  }

  // Names that survive being joined by a dot, trimmed and split again.
  predicate PlainNames(r: Relation) {
    && BareName(r.name)
    && (r.name == "" || !IsSpace(r.name[|r.name| - 1]))
    && match r.schema
       case None => r.name == "" || !IsSpace(r.name[0])
       case Some(s) => BareName(s) && (s == "" || !IsSpace(s[0]))
  }

  lemma {:induction false} UntilDotOf(a: string, b: string)
    requires '.' !in a && (b == "" || b[0] == '.')
    ensures UntilDot(a + b) == a
  {
    if a == "" {
      assert a + b == b;
    } else {
      assert (a + b)[0] == a[0] && (a + b)[1..] == a[1..] + b;
      UntilDotOf(a[1..], b);
    }
  }

  lemma {:induction false} UntilDotHasNone(s: string)
    ensures '.' !in UntilDot(s) && UntilDot(s) <= s
    ensures |UntilDot(s)| == |s| <==> '.' !in s
    ensures |UntilDot(s)| < |s| ==> s[|UntilDot(s)|] == '.'
  {
    if s != "" && s[0] != '.' {
      UntilDotHasNone(s[1..]);
      assert s == [s[0]] + s[1..];
    }
  }

  lemma {:induction false} TrimQuotesShape(s: string)
    ensures TrimQuotesLeft(s) == s <==> s == "" || s[0] != '"'
    ensures TrimQuotesRight(s) == s <==> s == "" || s[|s| - 1] != '"'
    ensures |TrimQuotesLeft(s)| <= |s| && |TrimQuotesRight(s)| <= |s|
    ensures forall c :: c in TrimQuotes(s) ==> c in s
  {
    TrimQuotesLeftSuffix(s);
    TrimQuotesRightPrefix(s);
    TrimQuotesRightPrefix(TrimQuotesLeft(s));
  }

  lemma {:induction false} TrimQuotesLeftSuffix(s: string)
    ensures |TrimQuotesLeft(s)| <= |s| && TrimQuotesLeft(s) == s[|s| - |TrimQuotesLeft(s)|..]
    ensures s != "" && s[0] == '"' ==> |TrimQuotesLeft(s)| < |s|
  {
    if s != "" && s[0] == '"' {
      TrimQuotesLeftSuffix(s[1..]);
    }
  }

  lemma {:induction false} TrimQuotesRightPrefix(s: string)
    ensures TrimQuotesRight(s) <= s
    ensures s != "" && s[|s| - 1] == '"' ==> |TrimQuotesRight(s)| < |s|
  {
    if s != "" && s[|s| - 1] == '"' {
      TrimQuotesRightPrefix(s[..|s| - 1]);
    }
  }

  lemma TrimSides(s: string)
    ensures |TrimLeft(s)| <= |s| && |TrimRight(s)| <= |s|
    ensures TrimLeft(s) == s <==> s == "" || !IsSpace(s[0])
    ensures TrimRight(s) == s <==> s == "" || !IsSpace(s[|s| - 1])
    ensures '.' in TrimLeft(s) ==> '.' in s
    ensures '.' in TrimRight(s) ==> '.' in s
  {
    var lead := TrimLeftPart(s);
    var trail := TrimRightPart(s);
  }

  lemma DotCoreTrimmed(l: string, r: string)
    requires l == "" || !IsSpace(l[0])
    requires r == "" || !IsSpace(r[|r| - 1])
    ensures Trimmed(l + "." + r)
  {
    var core := l + "." + r;
    assert core[0] == if l == "" then '.' else l[0];
    assert core[|core| - 1] == if r == "" then '.' else r[|r| - 1];
  }

  lemma Regroup(lead: string, l: string, r: string, trail: string)
    ensures (lead + l) + "." + (r + trail) == lead + (l + "." + r) + trail
  {
    assert (lead + l) + "." + (r + trail) == lead + l + "." + r + trail;
    assert lead + (l + "." + r) == lead + l + "." + r;
  }

  lemma TrimAroundDot(s: string, n: string)
    ensures Trim(s + "." + n) == TrimLeft(s) + "." + TrimRight(n)
    ensures Trimmed(TrimLeft(s) + "." + TrimRight(n))
  {
    var lead := TrimLeftPart(s);
    var trail := TrimRightPart(n);
    var l, r := TrimLeft(s), TrimRight(n);
    DotCoreTrimmed(l, r);
    Regroup(lead, l, r, trail);
    TrimUnique(lead, l + "." + r, trail);
  }

  // Neither half of a split table has a dot.
  lemma SplitHasNoDots(t: string)
    requires Trimmed(t) && '.' in t
    ensures '.' !in SplitTable(t).0 && '.' !in SplitTable(t).1
  {
    TrimIsIdentityWhenTrimmed(t);
    UntilDotHasNone(t);
    var rest := t[|UntilDot(t)| + 1..];
    UntilDotHasNone(rest);
    TrimQuotesShape(UntilDot(t));
    TrimQuotesShape(UntilDot(rest));
  }

  lemma SplitAtDot(l: string, r: string)
    requires '.' !in l && '.' !in r && Trimmed(l + "." + r)
    ensures SplitTable(l + "." + r) == (TrimQuotes(l), TrimQuotes(r))
  {
    var t := l + "." + r;
    TrimIsIdentityWhenTrimmed(t);
    UntilDotOf(l, "." + r);
    assert t == l + ("." + r);
    assert t[|l| + 1..] == r;
    UntilDotHasNone(r);
    assert UntilDot(r) == r;
  }

  // With a schema in front of the name.
  lemma QualifiedNameRecovered(s: string, n: string)
    ensures SplitTable(NormalizeTable(s + "." + n)) == (s, n) <==> PlainNames(Relation(Some(s), n, 0))
  {
    var l, r := TrimLeft(s), TrimRight(n);
    var t := l + "." + r;
    TrimAroundDot(s, n);
    assert t[|l|] == '.';
    assert NormalizeTable(s + "." + n) == t;
    TrimSides(s);
    TrimSides(n);
    if '.' in s || '.' in n {
      SplitHasNoDots(t);
    } else {
      SplitAtDot(l, r);
      TrimQuotesShrinks(l);
      TrimQuotesShrinks(r);
    }
  }

  // Trimming quotes only ever takes runes off the ends.
  lemma TrimQuotesShrinks(s: string)
    ensures |TrimQuotes(s)| <= |s|
    ensures |TrimQuotes(s)| == |s| ==> TrimQuotes(s) == s
  {
    TrimQuotesLeftSuffix(s);
    TrimQuotesRightPrefix(TrimQuotesLeft(s));
  }

  // A name alone.
  lemma BareNameRecovered(n: string)
    requires Trim(n) != ""
    ensures SplitTable(NormalizeTable(n)) == ("public", n) <==> PlainNames(Relation(None, n, 0))
  {
    var t := Trim(n);
    var lead, trail := TrimParts(n);
    if '.' in t {
      SplitHasNoDots(t);
      assert '.' in n;
    } else {
      var full := "public" + "." + t;
      assert full[|full| - 1] == t[|t| - 1];
      assert full == "public." + t;
      SplitAtDot("public", t);
      assert TrimQuotesLeft("public") == "public" && TrimQuotesRight("public") == "public";
      TrimQuotesShrinks(t);
      assert |t| == |n| ==> t == n;
      if PlainNames(Relation(None, n, 0)) {
        TrimIsIdentityWhenTrimmed(n);
      }
    }
  }

  // The checker splits the joined text of a reference again. It recovers the
  // schema that it took and the name exactly when these are plain.
  lemma ReferenceIsRecovered(r: Relation)
    requires r.Table() != ""
    ensures SplitTable(r.Table()) == (SchemaOf(r), r.name) <==> PlainNames(r)
  {
    match r.schema
    case Some(s) => QualifiedNameRecovered(s, r.name);
    case None => BareNameRecovered(r.name);
  }

  // ------------------------------------------------------- relation coverage

  // Every keyword that is read, from token i on, has its reference, unless the
  // token is part of the name in an earlier reference.
  lemma {:induction false} ReferenceFor(ts: seq<Token>, op: string, i: nat, k: nat) returns (r: Reference)
    requires References(ts, op, i).Ok? && i <= k < |ts| && ReadsRelation(ts, op, k)
    ensures r in References(ts, op, i).value
    ensures (r.keyword == k && ReadRelation(ts, k) == Ok(r.relation)) || r.keyword < k < r.relation.next
    decreases |ts| - i
  {
    if !ReadsRelation(ts, op, i) {
      r := ReferenceFor(ts, op, i + 1, k);
    } else {
      var relation := ReadRelation(ts, i).value;
      if k < relation.next {
        r := Reference(i, relation);
      } else {
        r := ReferenceFor(ts, op, relation.next, k);
      }
    }
  }

  lemma {:induction false} TablesOf(refs: seq<Reference>)
    ensures forall r | r in refs :: r.relation.Table() in Tables(refs)
  {
    if refs != [] {
      TablesOf(refs[1..]);
    }
  }

  // Nothing on the list is refused exactly when everything on it is allowed.
  lemma {:induction false} RefusedOperationNone(cfg: ConnectionConfig, schema: string, name: string, ops: seq<string>)
    ensures RefusedOperation(cfg, schema, name, ops).None?
      <==> forall o | o in ops :: cfg.DMLAllowed(schema, name, o)
  {
    if ops != [] {
      RefusedOperationNone(cfg, schema, name, ops[1..]);
      assert ops == [ops[0]] + ops[1..];
    }
  }

  predicate TableAllowed(cfg: ConnectionConfig, table: string, ops: seq<string>) {
    var (schema, name) := SplitTable(table);
    cfg.SchemaAllowed(schema) && forall o | o in ops :: cfg.DMLAllowed(schema, name, o)
  }

  lemma {:induction false} RefusedTableNone(cfg: ConnectionConfig, tables: seq<string>, ops: seq<string>)
    ensures RefusedTable(cfg, tables, ops).None? <==> forall t | t in tables :: TableAllowed(cfg, t, ops)
  {
    if tables != [] {
      var (schema, name) := SplitTable(tables[0]);
      RefusedOperationNone(cfg, schema, name, ops);
      RefusedTableNone(cfg, tables[1..], ops);
      assert tables == [tables[0]] + tables[1..];
      assert TableAllowed(cfg, tables[0], ops)
        <==> cfg.SchemaAllowed(schema) && RefusedOperation(cfg, schema, name, ops).None?;
    }
  }

  // The DML operations that the policy must permit on every table.
  function OperationsOn(ts: seq<Token>, mode: Mode): seq<string> {
    if mode == DML then RequiredOperations(ts, Operation(ts)) else []
  }

  // Every table that a statement names, in the order in which it is reported.
  function NamedTables(ts: seq<Token>, mode: Mode): Result<seq<string>, Reason> {
    match TableRefs(ts, Operation(ts))
    case Err(e) => Err(e)
    case Ok(refs) =>
      if mode != DDL then Ok(refs)
      else
        match DDLObjects(ts)
        case Err(e) => Err(e)
        case Ok(objects) => Ok(AppendUnique(objects, refs))
  }

  predicate FitsMode(op: string, cfg: ConnectionConfig, mode: Mode) {
    match mode
    case DDL => IsDDLOperation(op) && cfg.DDLAllowed()
    case DML => IsDMLOperation(op)
    case _ => op == "select"
  }

  // No semicolon before the end, no forbidden word, no row locks and no SELECT INTO.
  predicate SpeaksWell(ts: seq<Token>) {
    && (forall k | 0 <= k < |ts| :: !SecondStatementAt(ts, k) && !ForbiddenAt(ts, k))
    && !LocksRows(ts)
    && !(Operation(ts) == "select" && ContainsKeyword(ts, "into"))
  }

  // The tables are all allowed, and there is one where there must be.
  predicate TablesAllowed(ts: seq<Token>, cfg: ConnectionConfig, mode: Mode) {
    var tables := NamedTables(ts, mode);
    && tables.Ok?
    && (mode == DDL || mode == DML ==> tables.value != [])
    && forall t | t in tables.value :: TableAllowed(cfg, t, OperationsOn(ts, mode))
  }

  lemma {:induction false} BadTokenNone(ts: seq<Token>, i: nat)
    requires i <= |ts|
    ensures BadToken(ts, i).None? <==> forall k | i <= k < |ts| :: !SecondStatementAt(ts, k) && !ForbiddenAt(ts, k)
    decreases |ts| - i
  {
    if i < |ts| {
      BadTokenNone(ts, i + 1);
    }
  }

  lemma VerdictIsExact(ts: seq<Token>, cfg: ConnectionConfig, mode: Mode)
    ensures
      var v := if mode == DDL then JudgeDDL(ts, cfg) else JudgeQuery(ts, cfg, mode);
      && (v.valid <==> FitsMode(Operation(ts), cfg, mode) && TablesAllowed(ts, cfg, mode))
      && (v.valid ==> v.tables == NamedTables(ts, mode).value && v.operation == Operation(ts)
                      && v.readOnly == (Operation(ts) == "select"))
  {
    var tables := NamedTables(ts, mode);
    if tables.Ok? {
      RefusedTableNone(cfg, tables.value, OperationsOn(ts, mode));
    }
  }

  lemma JudgementIsExact(ts: seq<Token>, cfg: ConnectionConfig, mode: Mode)
    ensures
      var v := Judge(ts, cfg, mode);
      && (v.valid <==> ts != [] && SpeaksWell(ts) && FunctionSchemasAllowed(ts, cfg)
                       && FitsMode(Operation(ts), cfg, mode) && TablesAllowed(ts, cfg, mode))
      && (v.valid ==> v.operation == Operation(ts) && v.tables == NamedTables(ts, mode).value)
  {
    BadTokenNone(ts, 0);
    VerdictIsExact(ts, cfg, mode);
  }

  // A statement is accepted exactly when it is one statement with tokens, says
  // nothing that is forbidden, calls no function of another schema, is of the
  // kind that the mode is for, and names only allowed tables; then the verdict
  // reports its operation and exactly these tables.
  lemma AcceptanceIsExact(sql: string, cfg: ConnectionConfig, mode: Mode)
    ensures
      var s, v := Trim(sql), Validate(sql, cfg, mode);
      && (v.valid <==>
            && |Split(s)| == 1 && Lex(s).Ok? && Lex(s).value != []
            && SpeaksWell(Lex(s).value) && FunctionSchemasAllowed(Lex(s).value, cfg)
            && FitsMode(Operation(Lex(s).value), cfg, mode) && TablesAllowed(Lex(s).value, cfg, mode))
      && (v.valid ==> v.operation == Operation(Lex(s).value) && v.tables == NamedTables(Lex(s).value, mode).value)
  {
    var s := Trim(sql);
    if Lex(s).Ok? {
      JudgementIsExact(Lex(s).value, cfg, mode);
    }
    assert s == "" ==> Lex(s) == Ok([]);
  }

  // The tokens of an accepted statement.
  function TokensOf(sql: string): seq<Token> {
    match Lex(Trim(sql))
    case Ok(ts) => ts
    case Err(_) => []
  }

  // An accepted statement has tokens, and they are judged.
  lemma AcceptedIsJudged(sql: string, cfg: ConnectionConfig, mode: Mode)
    requires Validate(sql, cfg, mode).valid
    ensures
      var ts := TokensOf(sql);
      && Lex(Trim(sql)) == Ok(ts) && ts != []
      && CheckTokens(ts).None? && FunctionSchemasAllowed(ts, cfg)
      && Validate(sql, cfg, mode) == if mode == DDL then JudgeDDL(ts, cfg) else JudgeQuery(ts, cfg, mode)
  {
  }

  lemma JudgedTables(ts: seq<Token>, cfg: ConnectionConfig, mode: Mode, v: Verdict)
    requires v == if mode == DDL then JudgeDDL(ts, cfg) else JudgeQuery(ts, cfg, mode)
    requires v.valid
    ensures TableRefs(ts, Operation(ts)).Ok?
    ensures forall t | t in TableRefs(ts, Operation(ts)).value && t != "" :: t in v.tables
    ensures RefusedTable(cfg, v.tables, OperationsOn(ts, mode)).None?
  {
    if mode == DDL {
      AppendUniqueIsUnion(DDLObjects(ts).value, TableRefs(ts, Operation(ts)).value);
    }
  }

  lemma TableRefsHold(ts: seq<Token>, op: string)
    requires TableRefs(ts, op).Ok?
    ensures References(ts, op, 0).Ok?
    ensures forall r | r in References(ts, op, 0).value && r.relation.Table() != "" ::
      r.relation.Table() in TableRefs(ts, op).value
  {
    var refs := References(ts, op, 0).value;
    TablesOf(refs);
    AppendUniqueIsUnion([], Tables(refs));
  }

  // k is a token of the name in a reference that the statement makes earlier.
  predicate ConsumedAsName(ts: seq<Token>, op: string, k: nat) {
    References(ts, op, 0).Ok? &&
    exists r | r in References(ts, op, 0).value :: r.keyword < k < r.relation.next
  }

  // In an accepted statement every relation keyword that is read there and is
  // not itself part of a table name is followed by a simple reference, with no
  // list that ListFollows sees; its table is reported and allowed. Plain names
  // are allowed as they stand, in the schema that the guard takes for them.
  lemma AcceptedRelations(sql: string, cfg: ConnectionConfig, mode: Mode, k: nat)
    requires Validate(sql, cfg, mode).valid
    requires
      var ts := TokensOf(sql);
      ReadsRelation(ts, Operation(ts), k) && !ConsumedAsName(ts, Operation(ts), k)
    ensures
      var ts, tables := TokensOf(sql), Validate(sql, cfg, mode).tables;
      && ReadRelation(ts, k).Ok?
      && var r := ReadRelation(ts, k).value;
         r.Table() != "" ==>
           && r.Table() in tables
           && TableAllowed(cfg, r.Table(), OperationsOn(ts, mode))
           && (PlainNames(r) ==>
                 && cfg.SchemaAllowed(SchemaOf(r))
                 && forall o | o in OperationsOn(ts, mode) :: cfg.DMLAllowed(SchemaOf(r), r.name, o))
  {
    var ts := TokensOf(sql);
    var op := Operation(ts);
    var v := Validate(sql, cfg, mode);
    AcceptedIsJudged(sql, cfg, mode);
    JudgedTables(ts, cfg, mode, v);
    RefusedTableNone(cfg, v.tables, OperationsOn(ts, mode));
    TableRefsHold(ts, op);
    var r := ReferenceFor(ts, op, 0, k);
    assert r.keyword == k;
    if r.relation.Table() != "" {
      ReferenceIsRecovered(r.relation);
    }
  }

  // The keywords that are read: FROM, JOIN and REFERENCES everywhere, INTO where
  // something is inserted or selected, a leading UPDATE, USING in a deletion
  // unless a list of columns follows, and four more in a CREATE.
  lemma ReadKeywords(ts: seq<Token>, op: string, k: nat)
    ensures ReadsRelation(ts, op, k) <==>
      || KeywordAt(ts, k, "from") || KeywordAt(ts, k, "join") || KeywordAt(ts, k, "references")
      || (KeywordAt(ts, k, "into") && (op == "insert" || op == "select"))
      || (KeywordAt(ts, k, "update") && op == "update" && k == 0)
      || (KeywordAt(ts, k, "using") && op == "delete" && !TextAt(ts, k + 1, "("))
      || (op == "create"
          && (KeywordAt(ts, k, "like") || KeywordAt(ts, k, "inherits")
              || (KeywordAt(ts, k, "of") && KeywordAt(ts, k - 1, "partition"))
              || (KeywordAt(ts, k, "table") && KeywordAt(ts, k - 1, "as"))))
  {
    assert "update"[0] == 'u' && "using"[0] == 'u' && "using"[1] == 's' && "into"[0] == 'i' && "into"[2] == 't';
    assert "from"[0] == 'f' && "join"[0] == 'j' && "references"[0] == 'r';
    assert "like"[0] == 'l' && "inherits"[2] == 'h' && "of"[0] == 'o' && "table"[0] == 't';
  }

  // ------------------------------------------------------------ monotonicity

  // d permits what c permits, however the two say it.
  ghost predicate Wider(c: ConnectionConfig, d: ConnectionConfig) {
    && (forall s :: c.SchemaAllowed(s) ==> d.SchemaAllowed(s))
    && (forall s, t, op :: c.DMLAllowed(s, t, op) ==> d.DMLAllowed(s, t, op))
    && (c.DDLAllowed() ==> d.DDLAllowed())
  }

  // Every entry of the lists of c is matched by one of d: the same name in any
  // case, or a wildcard.
  predicate NamesCovered(names: seq<string>, cover: seq<string>) {
    forall p | p in names :: exists q | q in cover :: MatchesName(q, p)
  }

  predicate PolicyCovered(p: DMLPolicy, cover: DMLPolicy) {
    && MatchesName(cover.schema, p.schema) && MatchesName(cover.table, p.table)
    && NamesCovered(p.operations, cover.operations)
  }

  predicate Covered(c: ConnectionConfig, d: ConnectionConfig) {
    && NamesCovered(c.schemas, d.schemas)
    && (forall p | p in c.dmlPolicies :: exists q | q in d.dmlPolicies :: PolicyCovered(p, q))
    && (c.DDLAllowed() ==> d.DDLAllowed())
  }

  lemma MatchesOnward(q: string, p: string, name: string)
    requires MatchesName(q, p) && MatchesName(p, name)
    ensures MatchesName(q, name)
  {
    if EqualFold(q, "*") {
      OnlyTheStarFolds(q);
    }
  }

  lemma OnlyTheStarFolds(q: string)
    requires EqualFold(q, "*")
    ensures q == "*"
  {
    assert |ToLower(q)| == |ToLower("*")| && Lower(q[0]) == ToLower(q)[0] == ToLower("*")[0] == '*';
  }

  lemma CoveredIsMatched(names: seq<string>, cover: seq<string>, name: string)
    requires NamesCovered(names, cover) && exists i | 0 <= i < |names| :: MatchesName(names[i], name)
    ensures exists j | 0 <= j < |cover| :: MatchesName(cover[j], name)
  {
    var i :| 0 <= i < |names| && MatchesName(names[i], name);
    assert names[i] in names;
    var q :| q in cover && MatchesName(q, names[i]);
    var j :| 0 <= j < |cover| && cover[j] == q;
    MatchesOnward(q, names[i], name);
  }

  lemma CoveredPermits(p: DMLPolicy, q: DMLPolicy, schema: string, table: string, op: string)
    requires PolicyCovered(p, q) && Permits(p, schema, table, op)
    ensures Permits(q, schema, table, op)
  {
    MatchesOnward(q.schema, p.schema, schema);
    MatchesOnward(q.table, p.table, table);
    CoveredIsMatched(p.operations, q.operations, op);
  }

  // So longer lists, other spellings and wildcards make a policy wider.
  lemma CoveringIsWider(c: ConnectionConfig, d: ConnectionConfig)
    requires Covered(c, d)
    ensures Wider(c, d)
  {
    forall s | c.SchemaAllowed(s)
      ensures d.SchemaAllowed(s)
    {
      var i :| 0 <= i < |c.schemas| && (c.schemas[i] == "*" || EqualFold(c.schemas[i], s));
      assert MatchesName(c.schemas[i], s);
      CoveredIsMatched(c.schemas, d.schemas, s);
      var j :| 0 <= j < |d.schemas| && MatchesName(d.schemas[j], s);
    }
    forall s, t, op | c.DMLAllowed(s, t, op)
      ensures d.DMLAllowed(s, t, op)
    {
      var i :| 0 <= i < |c.dmlPolicies| && Permits(c.dmlPolicies[i], s, t, op);
      assert c.dmlPolicies[i] in c.dmlPolicies;
      var q :| q in d.dmlPolicies && PolicyCovered(c.dmlPolicies[i], q);
      var j :| 0 <= j < |d.dmlPolicies| && d.dmlPolicies[j] == q;
      CoveredPermits(c.dmlPolicies[i], q, s, t, op);
    }
  }

  lemma WiderRefusesLess(c: ConnectionConfig, d: ConnectionConfig, tables: seq<string>, ops: seq<string>)
    requires Wider(c, d) && RefusedTable(c, tables, ops).None?
    ensures RefusedTable(d, tables, ops).None?
  {
    RefusedTableNone(c, tables, ops);
    RefusedTableNone(d, tables, ops);
    forall t | t in tables
      ensures TableAllowed(d, t, ops)
    {
      assert TableAllowed(c, t, ops);
    }
  }

  lemma JudgedWider(ts: seq<Token>, c: ConnectionConfig, d: ConnectionConfig, mode: Mode, v: Verdict)
    requires v == if mode == DDL then JudgeDDL(ts, c) else JudgeQuery(ts, c, mode)
    requires v.valid && c.DDLAllowed() ==> d.DDLAllowed()
    requires v.valid && RefusedTable(d, v.tables, OperationsOn(ts, mode)).None?
    ensures v == if mode == DDL then JudgeDDL(ts, d) else JudgeQuery(ts, d, mode)
  {
  }

  // Widening the policy never turns an accepted statement into a rejected one,
  // and changes nothing in its verdict.
  lemma GuardIsMonotone(sql: string, c: ConnectionConfig, d: ConnectionConfig, mode: Mode)
    requires Wider(c, d) && Validate(sql, c, mode).valid
    ensures Validate(sql, d, mode) == Validate(sql, c, mode)
  {
    var ts, v := TokensOf(sql), Validate(sql, c, mode);
    AcceptedIsJudged(sql, c, mode);
    assert FunctionSchemasAllowed(ts, d);
    JudgedTables(ts, c, mode, v);
    WiderRefusesLess(c, d, v.tables, OperationsOn(ts, mode));
    JudgedWider(ts, c, d, mode, v);
  }
}
