/** Acceptance told by the tokens of a statement, where they stand: which words it
    may say, which operations it needs, and which names its tables have. */
module Readings {
  import opened Outcomes
  import opened Text
  import opened Scan
  import opened Lexer
  import opened Config
  import opened Guard
  import opened GuardLaws

  // Token i is this word, in any case and without quotes.
  predicate Says(ts: seq<Token>, i: int, word: string) {
    0 <= i < |ts| && ts[i].kind == Identifier && !ts[i].quoted && ToLower(ts[i].text) == word
  }

  predicate Shows(ts: seq<Token>, i: int, text: string) {
    0 <= i < |ts| && ts[i].text == text
  }

  predicate Identifies(ts: seq<Token>, i: int) {
    0 <= i < |ts| && ts[i].kind == Identifier
  }

  // The name that token i is: as it is between quotes, in lower case without.
  function NameOf(ts: seq<Token>, i: int): string {
    if !Identifies(ts, i) then "" else if ts[i].quoted then ts[i].text else ToLower(ts[i].text)
  }

  // -------------------------------------------------------------------- names

  // A name at i, or a schema, a dot and a name.
  function NamedAt(ts: seq<Token>, i: nat): Relation {
    if Shows(ts, i + 1, ".") then Relation(Some(NameOf(ts, i)), NameOf(ts, i + 2), i + 3)
    else Relation(None, NameOf(ts, i), i + 1)
  }

  predicate Modifier(ts: seq<Token>, i: nat) {
    Says(ts, i, "only") || Says(ts, i, "table") || Says(ts, i, "if") || Says(ts, i, "exists")
  }

  // It is all there, with no third part, no star and, where these are not allowed,
  // no parenthesis after it.
  predicate SimpleAt(ts: seq<Token>, i: nat, parentheses: bool) {
    && Identifies(ts, i) && !Modifier(ts, i)
    && (Shows(ts, i + 1, ".") ==> Identifies(ts, i + 2) && !Shows(ts, i + 3, "."))
    && !Shows(ts, NamedAt(ts, i).next, "*")
    && (Shows(ts, NamedAt(ts, i).next, "(") ==> parentheses)
  }

  lemma RelationIsExact(ts: seq<Token>, i: nat, parentheses: bool)
    ensures RelationAt(ts, i, parentheses)
      == if SimpleAt(ts, i, parentheses) then Ok(NamedAt(ts, i)) else Err(NotSimpleReference)
  {
  }

  // In an accepted statement every keyword of ReadKeywords that is not itself taken
  // as a name has a simple name after it, INHERITS within its parenthesis. What
  // stands there is reported and allowed; if it is plain, in the schema that is
  // written, or else in public.
  lemma AcceptedNames(sql: string, cfg: ConnectionConfig, mode: Mode, k: nat)
    requires Validate(sql, cfg, mode).valid
    requires
      var ts := TokensOf(sql);
      ReadsRelation(ts, Operation(ts), k) && !ConsumedAsName(ts, Operation(ts), k)
    ensures
      var ts := TokensOf(sql);
      var i := if Says(ts, k, "inherits") && Shows(ts, k + 1, "(") then k + 2 else k + 1;
      && SimpleAt(ts, i, Says(ts, k, "into") || Says(ts, k, "references"))
      && (NamedAt(ts, i).Table() != "" ==> NameChecked(NamedAt(ts, i), Validate(sql, cfg, mode).tables, cfg,
                                                       OperationsOn(ts, mode)))
  {
    var ts := TokensOf(sql);
    AcceptedRelations(sql, cfg, mode, k);
    RelationIsExact(ts, RelationStart(ts, k), ParenthesesAllowed(ts, k));
  }

  predicate NameChecked(r: Relation, tables: seq<string>, cfg: ConnectionConfig, ops: seq<string>) {
    && r.Table() in tables && TableAllowed(cfg, r.Table(), ops)
    && (PlainNames(r) ==>
          var schema := match r.schema case Some(s) => s case None => "public";
          && cfg.SchemaAllowed(schema)
          && forall o | o in ops :: cfg.DMLAllowed(schema, r.name, o))
  }

  // ---------------------------------------------------------------------- DDL

  function AfterIfExists(ts: seq<Token>, i: nat): nat {
    if Says(ts, i, "if") && Says(ts, i + 1, "exists") then i + 2 else i
  }

  function AfterIfNotExists(ts: seq<Token>, i: nat): nat {
    if Says(ts, i, "if") && Says(ts, i + 1, "not") && Says(ts, i + 2, "exists") then i + 3 else i
  }

  function AfterOnly(ts: seq<Token>, i: nat): nat {
    if Says(ts, i, "only") then i + 1 else i
  }

  // Where CREATE INDEX has its name or, without one, its ON.
  function IndexName(ts: seq<Token>): nat {
    AfterIfNotExists(ts, if Says(ts, 1, "unique") then 3 else 2)
  }

  function AfterName(ts: seq<Token>, q: nat): nat {
    if Says(ts, q, "on") then q else NamedAt(ts, q).next
  }

  // CREATE [UNIQUE] INDEX, not CONCURRENTLY.
  predicate CreatesIndex(ts: seq<Token>) {
    if Says(ts, 1, "unique") then Says(ts, 2, "index") && !Says(ts, 3, "concurrently")
    else Says(ts, 1, "index") && !Says(ts, 2, "concurrently")
  }

  predicate FirstFrom(ts: seq<Token>, i: nat, word: string, k: nat) {
    i <= k && Says(ts, k, word) && forall j | i <= j < k :: !Says(ts, j, word)
  }

  // CASCADE, other than in what ON DELETE or ON UPDATE does in CREATE and ALTER.
  predicate NoCascade(ts: seq<Token>) {
    forall i | 0 <= i < |ts| && Says(ts, i, "cascade") ::
      (Says(ts, 0, "create") || Says(ts, 0, "alter")) && Says(ts, i - 2, "on")
      && (Says(ts, i - 1, "delete") || Says(ts, i - 1, "update"))
  }

  // What ALTER TABLE may not say after its table.
  predicate AltersTooMuch(ts: seq<Token>, i: nat) {
    || Says(ts, i, "rename") || Says(ts, i, "owner") || Says(ts, i, "attach") || Says(ts, i, "detach")
    || Says(ts, i, "inherit") || Says(ts, i, "replica")
    || ((Says(ts, i, "set") || Says(ts, i, "no")) && !IsAction(ts, i))
  }

  // ON DELETE or ON UPDATE: SET NULL, SET DEFAULT or NO ACTION.
  predicate IsAction(ts: seq<Token>, i: nat) {
    && Says(ts, i - 2, "on") && (Says(ts, i - 1, "delete") || Says(ts, i - 1, "update"))
    && ((Says(ts, i, "set") && (Says(ts, i + 1, "null") || Says(ts, i + 1, "default")))
        || (Says(ts, i, "no") && Says(ts, i + 1, "action")))
  }

  lemma {:induction false} FindIsFirst(ts: seq<Token>, i: nat, word: string)
    ensures
      var k := FindKeyword(ts, i, word);
      k < |ts| ==> FirstFrom(ts, i, word, k)
    decreases |ts| - i
  {
    if i < |ts| && !Says(ts, i, word) {
      FindIsFirst(ts, i + 1, word);
    }
  }

  lemma {:induction false} FirstIsFound(ts: seq<Token>, i: nat, word: string, k: nat)
    requires FirstFrom(ts, i, word, k)
    ensures FindKeyword(ts, i, word) == k
    decreases |ts| - i
  {
    if i < k {
      assert !Says(ts, i, word);
      FirstIsFound(ts, i + 1, word, k);
    }
  }

  lemma CascadeIsExact(ts: seq<Token>)
    requires Operation(ts) != ""
    ensures CascadesUnsafely(ts, Operation(ts)) <==> !NoCascade(ts)
  {
    forall i | 0 <= i < |ts|
      ensures Says(ts, i, "cascade") == KeywordAt(ts, i, "cascade")
      ensures Says(ts, i - 2, "on") == KeywordAt(ts, i - 2, "on")
      ensures Says(ts, i - 1, "delete") == KeywordAt(ts, i - 1, "delete")
      ensures Says(ts, i - 1, "update") == KeywordAt(ts, i - 1, "update")
    {
    }
  }

  // DROP TABLE or INDEX, but not CONCURRENTLY: one name, after IF EXISTS.
  lemma DropIsExact(ts: seq<Token>)
    requires Says(ts, 0, "drop")
    ensures
      var p := AfterIfExists(ts, 2);
      DDLObjects(ts).Ok? <==>
        && NoCascade(ts) && (Says(ts, 1, "table") || (Says(ts, 1, "index") && !Says(ts, 2, "concurrently")))
        && SimpleAt(ts, p, false) && !Shows(ts, NamedAt(ts, p).next, ",")
    ensures DDLObjects(ts).Ok? ==> DDLObjects(ts).value == [NamedAt(ts, AfterIfExists(ts, 2)).Table()]
  {
    CascadeIsExact(ts);
    RelationIsExact(ts, AfterIfExists(ts, 2), false);
  }

  // TRUNCATE with or without TABLE, but not ONLY: one name.
  lemma TruncateIsExact(ts: seq<Token>)
    requires Says(ts, 0, "truncate")
    ensures
      var p := if Says(ts, 1, "table") then 2 else 1;
      && (DDLObjects(ts).Ok? <==> NoCascade(ts) && SimpleAt(ts, p, false) && !Shows(ts, NamedAt(ts, p).next, ","))
      && (DDLObjects(ts).Ok? ==> DDLObjects(ts).value == [NamedAt(ts, p).Table()])
  {
    CascadeIsExact(ts);
    RelationIsExact(ts, if Says(ts, 1, "table") then 2 else 1, false);
  }

  // ALTER TABLE, after IF EXISTS and ONLY, that does nothing more than it may.
  lemma AlterIsExact(ts: seq<Token>)
    requires Says(ts, 0, "alter")
    ensures
      var p := AfterOnly(ts, AfterIfExists(ts, 2));
      && (DDLObjects(ts).Ok? <==>
            && NoCascade(ts) && Says(ts, 1, "table") && SimpleAt(ts, p, false)
            && forall i | NamedAt(ts, p).next <= i < |ts| :: !AltersTooMuch(ts, i))
      && (DDLObjects(ts).Ok? ==> DDLObjects(ts).value == [NamedAt(ts, p).Table()])
  {
    var p := AfterOnly(ts, AfterIfExists(ts, 2));
    CascadeIsExact(ts);
    RelationIsExact(ts, p, false);
    forall i: nat
      ensures AltersTooMuch(ts, i) == ForbiddenInAlter(ts, i)
    {
      AltersAlike(ts, i);
    }
  }

  lemma AltersAlike(ts: seq<Token>, i: nat)
    ensures AltersTooMuch(ts, i) == ForbiddenInAlter(ts, i)
  {
  }

  // CREATE TABLE, after IF NOT EXISTS, with its columns.
  lemma CreateTableIsExact(ts: seq<Token>)
    requires Says(ts, 0, "create") && Says(ts, 1, "table")
    ensures
      var p := AfterIfNotExists(ts, 2);
      && (DDLObjects(ts).Ok? <==> NoCascade(ts) && SimpleAt(ts, p, true))
      && (DDLObjects(ts).Ok? ==> DDLObjects(ts).value == [NamedAt(ts, p).Table()])
  {
    CascadeIsExact(ts);
    RelationIsExact(ts, AfterIfNotExists(ts, 2), true);
  }

  // The tables of CREATE INDEX where its name is at q and its ON at k.
  function IndexObjects(ts: seq<Token>, q: nat, k: nat): seq<string> {
    AppendUnique([], [if Says(ts, q, "on") then "" else NamedAt(ts, q).Table(),
                      NamedAt(ts, AfterOnly(ts, k + 1)).Table()])
  }

  lemma TargetIsExact(ts: seq<Token>, q: nat, k: nat)
    ensures
      IndexTarget(ts, k, if Says(ts, q, "on") then "" else NamedAt(ts, q).Table()) ==
      if k >= |ts| then Err(UnsupportedObject)
      else if SimpleAt(ts, AfterOnly(ts, k + 1), true) then Ok(IndexObjects(ts, q, k))
      else Err(NotSimpleReference)
  {
    RelationIsExact(ts, AfterOnly(ts, k + 1), true);
  }

  lemma IndexIsParsed(ts: seq<Token>, q: nat)
    ensures
      ParseIndex(ts, q) ==
      if !Says(ts, q, "on") && !SimpleAt(ts, q, false) then Err(NotSimpleReference)
      else IndexTarget(ts, FindKeyword(ts, AfterName(ts, q), "on"),
                       if Says(ts, q, "on") then "" else NamedAt(ts, q).Table())
  {
    RelationIsExact(ts, q, false);
    assert Says(ts, q, "on") == KeywordAt(ts, q, "on");
  }

  // k is the ON after a name at q, if there is one, and leads to a table.
  predicate OnLeads(ts: seq<Token>, q: nat, k: nat) {
    FirstFrom(ts, AfterName(ts, q), "on", k) && SimpleAt(ts, AfterOnly(ts, k + 1), true)
  }

  lemma IndexIsExact(ts: seq<Token>, q: nat)
    ensures
      ParseIndex(ts, q).Ok? <==>
        (Says(ts, q, "on") || SimpleAt(ts, q, false)) && exists k | 0 <= k < |ts| :: OnLeads(ts, q, k)
    ensures ParseIndex(ts, q).Ok? ==> forall k | 0 <= k < |ts| && OnLeads(ts, q, k) ::
      ParseIndex(ts, q).value == IndexObjects(ts, q, k)
  {
    var on := FindKeyword(ts, AfterName(ts, q), "on");
    IndexIsParsed(ts, q);
    TargetIsExact(ts, q, on);
    FindIsFirst(ts, AfterName(ts, q), "on");
    forall k | 0 <= k < |ts| && OnLeads(ts, q, k)
      ensures k == on
    {
      FirstIsFound(ts, AfterName(ts, q), "on", k);
    }
    assert ParseIndex(ts, q).Ok? ==> OnLeads(ts, q, on);
  }

  lemma CreateIndexParsed(ts: seq<Token>)
    requires Says(ts, 0, "create") && !Says(ts, 1, "table") && NoCascade(ts)
    ensures
      if CreatesIndex(ts) then DDLObjects(ts) == ParseIndex(ts, IndexName(ts)) else DDLObjects(ts).Err?
  {
    CascadeIsExact(ts);
  }

  // CREATE INDEX: the index, if it has a name, and the table after ON [ONLY].
  lemma CreateIndexIsExact(ts: seq<Token>)
    requires Says(ts, 0, "create") && !Says(ts, 1, "table")
    ensures
      DDLObjects(ts).Ok? <==>
        && NoCascade(ts) && CreatesIndex(ts) && (Says(ts, IndexName(ts), "on") || SimpleAt(ts, IndexName(ts), false))
        && exists k | 0 <= k < |ts| :: OnLeads(ts, IndexName(ts), k)
    ensures DDLObjects(ts).Ok? ==> forall k | 0 <= k < |ts| && OnLeads(ts, IndexName(ts), k) ::
      DDLObjects(ts).value == IndexObjects(ts, IndexName(ts), k)
  {
    CascadeIsExact(ts);
    IndexIsExact(ts, IndexName(ts));
    if NoCascade(ts) {
      CreateIndexParsed(ts);
    }
  }

  // p is where the table of a DDL statement has its name, or the index it creates.
  predicate Targets(ts: seq<Token>, p: nat) {
    || (Says(ts, 0, "drop") && p == AfterIfExists(ts, 2))
    || (Says(ts, 0, "truncate") && p == if Says(ts, 1, "table") then 2 else 1)
    || (Says(ts, 0, "alter") && p == AfterOnly(ts, AfterIfExists(ts, 2)))
    || (Says(ts, 0, "create") && Says(ts, 1, "table") && p == AfterIfNotExists(ts, 2))
    || (Says(ts, 0, "create") && !Says(ts, 1, "table") && TargetsIndex(ts, p))
  }

  predicate TargetsIndex(ts: seq<Token>, p: nat) {
    || (!Says(ts, IndexName(ts), "on") && p == IndexName(ts))
    || exists k | 0 <= k < |ts| :: FirstFrom(ts, AfterName(ts, IndexName(ts)), "on", k) && p == AfterOnly(ts, k + 1)
  }

  // Parentheses may follow the table of CREATE only.
  predicate MayHaveColumns(ts: seq<Token>, p: nat) {
    Says(ts, 0, "create") && (Says(ts, 1, "table") || p != IndexName(ts) || Says(ts, IndexName(ts), "on"))
  }

  lemma IndexObjectsAre(ts: seq<Token>, q: nat, k: nat)
    ensures forall t :: t in IndexObjects(ts, q, k) <==>
      t != "" && ((!Says(ts, q, "on") && t == NamedAt(ts, q).Table()) || t == NamedAt(ts, AfterOnly(ts, k + 1)).Table())
  {
    TwoObjects(if Says(ts, q, "on") then "" else NamedAt(ts, q).Table(), NamedAt(ts, AfterOnly(ts, k + 1)).Table());
  }

  lemma TwoObjects(a: string, b: string)
    ensures forall t :: t in AppendUnique([], [a, b]) <==> t != "" && (t == a || t == b)
  {
    AppendUniqueIsUnion([], [a, b]);
  }

  lemma OnTargetIsTold(ts: seq<Token>, q: nat, k: nat)
    requires ParseIndex(ts, q).Ok? && k < |ts| && FirstFrom(ts, AfterName(ts, q), "on", k)
    ensures SimpleAt(ts, AfterOnly(ts, k + 1), true) && ParseIndex(ts, q).value == IndexObjects(ts, q, k)
  {
    IndexIsExact(ts, q);
    var on :| 0 <= on < |ts| && OnLeads(ts, q, on);
    OnIsOne(ts, AfterName(ts, q), k, on);
  }

  lemma IndexNameIsTold(ts: seq<Token>, q: nat) returns (k: nat)
    requires ParseIndex(ts, q).Ok?
    ensures Says(ts, q, "on") || SimpleAt(ts, q, false)
    ensures k < |ts| && FirstFrom(ts, AfterName(ts, q), "on", k) && ParseIndex(ts, q).value == IndexObjects(ts, q, k)
  {
    IndexIsExact(ts, q);
    k :| 0 <= k < |ts| && OnLeads(ts, q, k);
  }

  lemma IndexTargetIsTold(ts: seq<Token>, p: nat)
    requires Says(ts, 0, "create") && !Says(ts, 1, "table") && DDLObjects(ts).Ok? && TargetsIndex(ts, p)
    ensures SimpleAt(ts, p, MayHaveColumns(ts, p))
    ensures NamedAt(ts, p).Table() != "" ==> NamedAt(ts, p).Table() in DDLObjects(ts).value
  {
    var q := IndexName(ts);
    CreateIndexIsExact(ts);
    CreateIndexParsed(ts);
    if !Says(ts, q, "on") && p == q {
      var k := IndexNameIsTold(ts, q);
      IndexObjectsAre(ts, q, k);
    } else {
      var k :| 0 <= k < |ts| && FirstFrom(ts, AfterName(ts, q), "on", k) && p == AfterOnly(ts, k + 1);
      OnTargetIsTold(ts, q, k);
      IndexObjectsAre(ts, q, k);
    }
  }

  lemma OnIsOne(ts: seq<Token>, i: nat, k: nat, on: nat)
    requires FirstFrom(ts, i, "on", k) && FirstFrom(ts, i, "on", on)
    ensures k == on
  {
    FirstIsFound(ts, i, "on", k);
    FirstIsFound(ts, i, "on", on);
  }

  lemma TargetIsTold(ts: seq<Token>, p: nat)
    requires DDLObjects(ts).Ok? && Targets(ts, p)
    ensures SimpleAt(ts, p, MayHaveColumns(ts, p))
    ensures NamedAt(ts, p).Table() != "" ==> NamedAt(ts, p).Table() in DDLObjects(ts).value
  {
    if Says(ts, 0, "drop") {
      DropIsExact(ts);
    } else if Says(ts, 0, "truncate") {
      TruncateIsExact(ts);
    } else if Says(ts, 0, "alter") {
      AlterIsExact(ts);
    } else if Says(ts, 1, "table") {
      CreateTableIsExact(ts);
    } else {
      IndexTargetIsTold(ts, p);
    }
  }

  lemma TableIsChecked(r: Relation, tables: seq<string>, cfg: ConnectionConfig, ops: seq<string>)
    requires r.Table() != "" && r.Table() in tables && RefusedTable(cfg, tables, ops).None?
    ensures NameChecked(r, tables, cfg, ops)
  {
    RefusedTableNone(cfg, tables, ops);
    ReferenceIsRecovered(r);
  }

  // In an accepted DDL statement the table that it drops, truncates, alters or
  // creates, or creates an index on, and that index have simple names. They are
  // reported and allowed; if they are plain, in the schema that is written, or
  // else in public.
  lemma AcceptedTargets(sql: string, cfg: ConnectionConfig, p: nat)
    requires Validate(sql, cfg, DDL).valid && Targets(TokensOf(sql), p)
    ensures
      var ts := TokensOf(sql);
      && SimpleAt(ts, p, MayHaveColumns(ts, p))
      && (NamedAt(ts, p).Table() != "" ==> NameChecked(NamedAt(ts, p), Validate(sql, cfg, DDL).tables, cfg, []))
  {
    var ts := TokensOf(sql);
    AcceptedIsJudged(sql, cfg, DDL);
    JudgedTables(ts, cfg, DDL, Validate(sql, cfg, DDL));
    JudgedObjects(ts, cfg, Validate(sql, cfg, DDL));
    TargetIsTold(ts, p);
    if NamedAt(ts, p).Table() != "" {
      TableIsChecked(NamedAt(ts, p), Validate(sql, cfg, DDL).tables, cfg, []);
    }
  }

  lemma JudgedObjects(ts: seq<Token>, cfg: ConnectionConfig, v: Verdict)
    requires v == JudgeDDL(ts, cfg) && v.valid
    ensures DDLObjects(ts).Ok? && forall t | t in DDLObjects(ts).value :: t in v.tables
  {
    AppendUniqueIsUnion(DDLObjects(ts).value, TableRefs(ts, Operation(ts)).value);
  }

  // And it has such a table.
  lemma AcceptedHasTarget(sql: string, cfg: ConnectionConfig) returns (p: nat)
    requires Validate(sql, cfg, DDL).valid
    ensures Targets(TokensOf(sql), p)
  {
    var ts := TokensOf(sql);
    AcceptedIsJudged(sql, cfg, DDL);
    if Says(ts, 0, "drop") {
      p := AfterIfExists(ts, 2);
    } else if Says(ts, 0, "truncate") {
      p := if Says(ts, 1, "table") then 2 else 1;
    } else if Says(ts, 0, "alter") {
      p := AfterOnly(ts, AfterIfExists(ts, 2));
    } else if Says(ts, 1, "table") {
      p := AfterIfNotExists(ts, 2);
    } else {
      CreateIndexIsExact(ts);
      var k :| 0 <= k < |ts| && OnLeads(ts, IndexName(ts), k);
      p := AfterOnly(ts, k + 1);
    }
  }

  // The table of the first DELETE FROM of an accepted deletion is reported and
  // allowed, wherever it stands.
  lemma AcceptedDeletion(sql: string, cfg: ConnectionConfig, mode: Mode, k: nat)
    requires Validate(sql, cfg, mode).valid && Says(TokensOf(sql), 0, "delete")
    requires
      var ts := TokensOf(sql);
      && Says(ts, k, "delete") && Says(ts, k + 1, "from")
      && forall j | 0 <= j < k :: !(Says(ts, j, "delete") && Says(ts, j + 1, "from"))
    ensures
      var ts := TokensOf(sql);
      && SimpleAt(ts, k + 2, false)
      && (NamedAt(ts, k + 2).Table() != "" ==> NameChecked(NamedAt(ts, k + 2), Validate(sql, cfg, mode).tables, cfg,
                                                           OperationsOn(ts, mode)))
  {
    var ts := TokensOf(sql);
    AcceptedIsJudged(sql, cfg, mode);
    JudgedTables(ts, cfg, mode, Validate(sql, cfg, mode));
    FirstDeletion(ts, 0, k);
    RelationIsExact(ts, k + 2, false);
    DeletedIsReported(ts);
    if NamedAt(ts, k + 2).Table() != "" {
      TableIsChecked(NamedAt(ts, k + 2), Validate(sql, cfg, mode).tables, cfg, OperationsOn(ts, mode));
    }
  }

  lemma {:induction false} FirstDeletion(ts: seq<Token>, i: nat, k: nat)
    requires i <= k && Says(ts, k, "delete") && Says(ts, k + 1, "from")
    requires forall j | i <= j < k :: !(Says(ts, j, "delete") && Says(ts, j + 1, "from"))
    ensures DeleteTarget(ts, i) == Some(k)
    decreases k - i
  {
    if i < k {
      assert !(Says(ts, i, "delete") && Says(ts, i + 1, "from"));
      FirstDeletion(ts, i + 1, k);
    }
  }

  lemma DeletedIsReported(ts: seq<Token>)
    requires Says(ts, 0, "delete") && DeleteTarget(ts, 0).Some? && TableRefs(ts, "delete").Ok?
    ensures
      var r := RelationAt(ts, DeleteTarget(ts, 0).value + 2, false);
      r.Ok? && (r.value.Table() != "" ==> r.value.Table() in TableRefs(ts, "delete").value)
  {
  }

  // ------------------------------------------------------ what is reported

  // The name at p comes after a keyword of ReadKeywords, or after DELETE FROM.
  predicate AfterKeyword(ts: seq<Token>, p: nat) {
    || (Says(ts, p - 2, "delete") && Says(ts, p - 1, "from"))
    || exists k | 0 <= k < |ts| :: ReadsRelation(ts, Operation(ts), k) && p == RelationStart(ts, k)
  }

  lemma {:induction false} ReferencesAreRead(ts: seq<Token>, op: string, i: nat)
    requires References(ts, op, i).Ok?
    ensures forall r | r in References(ts, op, i).value ::
      r.keyword < |ts| && ReadsRelation(ts, op, r.keyword) && ReadRelation(ts, r.keyword) == Ok(r.relation)
    decreases |ts| - i
  {
    if i < |ts| && ReadsRelation(ts, op, i) {
      ReferencesAreRead(ts, op, ReadRelation(ts, i).value.next);
    } else if i < |ts| {
      ReferencesAreRead(ts, op, i + 1);
    }
  }

  lemma {:induction false} TableOfReference(refs: seq<Reference>, t: string) returns (r: Reference)
    requires t in Tables(refs)
    ensures r in refs && r.relation.Table() == t
  {
    if refs[0].relation.Table() == t {
      r := refs[0];
    } else {
      r := TableOfReference(refs[1..], t);
    }
  }

  lemma {:induction false} DeleteTargetIsSaid(ts: seq<Token>, i: nat)
    requires DeleteTarget(ts, i).Some?
    ensures
      var k := DeleteTarget(ts, i).value;
      Says(ts, k, "delete") && Says(ts, k + 1, "from")
    decreases |ts| - i
  {
    if !(KeywordAt(ts, i, "delete") && KeywordAt(ts, i + 1, "from")) {
      DeleteTargetIsSaid(ts, i + 1);
    }
  }

  lemma ReferencedIsNamed(ts: seq<Token>, t: string) returns (p: nat)
    requires TableRefs(ts, Operation(ts)).Ok? && t in TableRefs(ts, Operation(ts)).value
    ensures AfterKeyword(ts, p) && NamedAt(ts, p).Table() == t
  {
    var op := Operation(ts);
    var refs := References(ts, op, 0).value;
    AppendUniqueIsUnion([], Tables(refs));
    if t in Tables(refs) {
      var r := TableOfReference(refs, t);
      ReferencesAreRead(ts, op, 0);
      p := RelationStart(ts, r.keyword);
      RelationIsExact(ts, p, ParenthesesAllowed(ts, r.keyword));
    } else {
      p := DeletedIsNamed(ts, t);
    }
  }

  lemma DeletedIsNamed(ts: seq<Token>, t: string) returns (p: nat)
    requires TableRefs(ts, Operation(ts)).Ok? && t in TableRefs(ts, Operation(ts)).value
    requires t !in AppendUnique([], Tables(References(ts, Operation(ts), 0).value))
    ensures AfterKeyword(ts, p) && NamedAt(ts, p).Table() == t
  {
    DeleteTargetIsSaid(ts, 0);
    p := DeleteTarget(ts, 0).value + 2;
    RelationIsExact(ts, p, false);
  }

  lemma ObjectIsNamed(ts: seq<Token>, t: string) returns (p: nat)
    requires DDLObjects(ts).Ok? && t in DDLObjects(ts).value
    ensures Targets(ts, p) && NamedAt(ts, p).Table() == t
  {
    if Says(ts, 0, "drop") {
      p := AfterIfExists(ts, 2);
      DropIsExact(ts);
    } else if Says(ts, 0, "truncate") {
      p := if Says(ts, 1, "table") then 2 else 1;
      TruncateIsExact(ts);
    } else if Says(ts, 0, "alter") {
      p := AfterOnly(ts, AfterIfExists(ts, 2));
      AlterIsExact(ts);
    } else if Says(ts, 1, "table") {
      p := AfterIfNotExists(ts, 2);
      CreateTableIsExact(ts);
    } else {
      p := IndexObjectIsNamed(ts, t);
    }
  }

  lemma IndexObjectIsNamed(ts: seq<Token>, t: string) returns (p: nat)
    requires Says(ts, 0, "create") && !Says(ts, 1, "table") && DDLObjects(ts).Ok? && t in DDLObjects(ts).value
    ensures TargetsIndex(ts, p) && NamedAt(ts, p).Table() == t
  {
    var q := IndexName(ts);
    CreateIndexIsExact(ts);
    var k :| 0 <= k < |ts| && OnLeads(ts, q, k);
    IndexObjectsAre(ts, q, k);
    p := if !Says(ts, q, "on") && NamedAt(ts, q).Table() == t then q else AfterOnly(ts, k + 1);
  }

  // An accepted statement reports no table but those that it names, after one of
  // these keywords or as the target of DDL.
  lemma ReportedIsNamed(sql: string, cfg: ConnectionConfig, mode: Mode, t: string) returns (p: nat)
    requires Validate(sql, cfg, mode).valid && t in Validate(sql, cfg, mode).tables
    ensures
      var ts := TokensOf(sql);
      (AfterKeyword(ts, p) || (mode == DDL && Targets(ts, p))) && NamedAt(ts, p).Table() == t
  {
    var ts := TokensOf(sql);
    AcceptanceIsExact(sql, cfg, mode);
    AcceptedIsJudged(sql, cfg, mode);
    JudgedTables(ts, cfg, mode, Validate(sql, cfg, mode));
    if mode == DDL {
      AppendUniqueIsUnion(DDLObjects(ts).value, TableRefs(ts, Operation(ts)).value);
    }
    if mode == DDL && t in DDLObjects(ts).value {
      p := ObjectIsNamed(ts, t);
    } else {
      p := ReferencedIsNamed(ts, t);
    }
  }

  // -------------------------------------------------------------------- words

  // The words stand one after the other from token i on.
  predicate SaysAll(ts: seq<Token>, i: nat, words: seq<string>)
    decreases |words|
  {
    words == [] || (Says(ts, i, words[0]) && SaysAll(ts, i + 1, words[1..]))
  }

  predicate SaysSomewhere(ts: seq<Token>, words: seq<string>) {
    exists i | 0 <= i < |ts| :: SaysAll(ts, i, words)
  }

  lemma {:induction false} SequenceIsSaid(ts: seq<Token>, i: nat, words: seq<string>)
    ensures SequenceAt(ts, i, words) <==> SaysAll(ts, i, words)
    decreases |words|
  {
    if words != [] {
      SequenceIsSaid(ts, i + 1, words[1..]);
      SequenceStep(ts, i, words);
    }
  }

  lemma SequenceStep(ts: seq<Token>, i: nat, words: seq<string>)
    requires words != []
    ensures SequenceAt(ts, i, words) <==> Says(ts, i, words[0]) && SequenceAt(ts, i + 1, words[1..])
  {
    if SequenceAt(ts, i, words) {
      assert KeywordAt(ts, i + 0, words[0]);
      forall j | 0 <= j < |words| - 1
        ensures KeywordAt(ts, i + 1 + j, words[1..][j])
      {
        assert KeywordAt(ts, i + (j + 1), words[j + 1]);
      }
    }
    if Says(ts, i, words[0]) && SequenceAt(ts, i + 1, words[1..]) {
      forall j | 0 <= j < |words|
        ensures KeywordAt(ts, i + j, words[j])
      {
        assert j > 0 ==> KeywordAt(ts, i + 1 + (j - 1), words[1..][j - 1]);
      }
    }
  }

  lemma SequenceIsExact(ts: seq<Token>, words: seq<string>)
    requires words != []
    ensures ContainsSequence(ts, words) <==> SaysSomewhere(ts, words)
  {
    forall i: nat | i <= |ts|
      ensures SequenceAt(ts, i, words) <==> SaysAll(ts, i, words)
    {
      SequenceIsSaid(ts, i, words);
    }
  }

  // One statement, no forbidden word, DO only after ON CONFLICT, no row locks and
  // no SELECT INTO.
  predicate SpeaksPlainly(ts: seq<Token>) {
    && (forall i | 0 <= i < |ts| :: SaysNothingBad(ts, i))
    && !SaysSomewhere(ts, ["for", "update"]) && !SaysSomewhere(ts, ["for", "no", "key", "update"])
    && !SaysSomewhere(ts, ["for", "share"]) && !SaysSomewhere(ts, ["for", "key", "share"])
    && (Says(ts, 0, "select") ==> forall i | 0 <= i < |ts| :: !Says(ts, i, "into"))
  }

  // Token i is no semicolon before the end and no forbidden word: a dangerous name
  // even in quotes, a statement of its own, or a DO with no ON CONFLICT before it.
  predicate SaysNothingBad(ts: seq<Token>, i: nat)
    requires i < |ts|
  {
    && (ts[i].kind == Symbol && ts[i].text == ";" ==> i == |ts| - 1)
    && (ts[i].kind == Identifier ==>
          && ToLower(ts[i].text) !in DANGEROUS_NAMES
          && (ts[i].quoted || (ToLower(ts[i].text) !in FORBIDDEN_STATEMENTS
                               && (ToLower(ts[i].text) == "do" ==> SaysSomewhere(ts[..i], ["on", "conflict"])))))
  }

  lemma WordsAreExact(ts: seq<Token>)
    ensures SpeaksWell(ts) <==> SpeaksPlainly(ts)
  {
    SequenceIsExact(ts, ["for", "update"]);
    SequenceIsExact(ts, ["for", "no", "key", "update"]);
    SequenceIsExact(ts, ["for", "share"]);
    SequenceIsExact(ts, ["for", "key", "share"]);
    forall i | 0 <= i < |ts|
      ensures SaysNothingBad(ts, i) <==> !SecondStatementAt(ts, i) && !ForbiddenAt(ts, i)
      ensures Says(ts, i, "into") == KeywordAt(ts, i, "into")
    {
      SequenceIsExact(ts[..i], ["on", "conflict"]);
    }
  }

  // A call of a function with a schema names pg_catalog or an allowed schema.
  predicate CallsAllowed(ts: seq<Token>, cfg: ConnectionConfig) {
    forall i | 0 <= i < |ts| && CallAt(ts, i) ::
      EqualFold(NameOf(ts, i), "pg_catalog") || cfg.SchemaAllowed(NameOf(ts, i))
  }

  predicate CallAt(ts: seq<Token>, i: nat) {
    Identifies(ts, i) && Shows(ts, i + 1, ".") && Identifies(ts, i + 2) && Shows(ts, i + 3, "(")
  }

  lemma CallsAreExact(ts: seq<Token>, cfg: ConnectionConfig)
    ensures FunctionSchemasAllowed(ts, cfg) <==> CallsAllowed(ts, cfg)
  {
    forall i | 0 <= i < |ts|
      ensures CallAt(ts, i) == QualifiedCallAt(ts, i)
    {
    }
  }

  // The first word is one that the mode is for.
  predicate BeginsFor(ts: seq<Token>, cfg: ConnectionConfig, mode: Mode) {
    match mode
    case DDL =>
      && cfg.DDLAllowed()
      && (Says(ts, 0, "create") || Says(ts, 0, "alter") || Says(ts, 0, "drop") || Says(ts, 0, "truncate"))
    case DML => Says(ts, 0, "insert") || Says(ts, 0, "update") || Says(ts, 0, "delete")
    case _ => Says(ts, 0, "select")
  }

  lemma ModeIsExact(ts: seq<Token>, cfg: ConnectionConfig, mode: Mode)
    ensures FitsMode(Operation(ts), cfg, mode) <==> BeginsFor(ts, cfg, mode)
  {
  }

  // DML needs the operation that it begins with on every table, and an insertion
  // that does an update on conflicts needs that, too.
  predicate Needs(ts: seq<Token>, mode: Mode, op: string) {
    mode == DML && (Says(ts, 0, op) || (op == "update" && Says(ts, 0, "insert") && SaysSomewhere(ts, ["do", "update"])))
  }

  lemma OperationsAreExact(ts: seq<Token>, cfg: ConnectionConfig, mode: Mode, op: string)
    requires BeginsFor(ts, cfg, mode)
    ensures op in OperationsOn(ts, mode) <==> Needs(ts, mode, op)
  {
    SequenceIsExact(ts, ["do", "update"]);
  }

  // A table is allowed where its schema is and, for DML, every operation needed.
  predicate TableMeetsPolicy(ts: seq<Token>, cfg: ConnectionConfig, mode: Mode, table: string) {
    && cfg.SchemaAllowed(SplitTable(table).0)
    && forall op | op in {"insert", "update", "delete"} && Needs(ts, mode, op) ::
         cfg.DMLAllowed(SplitTable(table).0, SplitTable(table).1, op)
  }

  lemma PolicyIsExact(ts: seq<Token>, cfg: ConnectionConfig, mode: Mode, table: string)
    requires BeginsFor(ts, cfg, mode)
    ensures TableAllowed(cfg, table, OperationsOn(ts, mode)) <==> TableMeetsPolicy(ts, cfg, mode, table)
  {
    forall op
      ensures op in OperationsOn(ts, mode) <==> Needs(ts, mode, op)
      ensures Needs(ts, mode, op) ==> op in {"insert", "update", "delete"}
    {
      OperationsAreExact(ts, cfg, mode, op);
    }
  }

  // The tables can all be told and all meet the policy; in DML and DDL there is one.
  predicate TablesMeetPolicy(ts: seq<Token>, cfg: ConnectionConfig, mode: Mode) {
    var tables := NamedTables(ts, mode);
    && tables.Ok? && (tables.value != [] || (mode != DDL && mode != DML))
    && forall t | t in tables.value :: TableMeetsPolicy(ts, cfg, mode, t)
  }

  lemma TablesAreExact(ts: seq<Token>, cfg: ConnectionConfig, mode: Mode)
    requires BeginsFor(ts, cfg, mode)
    ensures TablesAllowed(ts, cfg, mode) <==> TablesMeetPolicy(ts, cfg, mode)
  {
    forall t
      ensures TableAllowed(cfg, t, OperationsOn(ts, mode)) <==> TableMeetsPolicy(ts, cfg, mode, t)
    {
      PolicyIsExact(ts, cfg, mode, t);
    }
  }

  // A statement is accepted exactly when it is one statement that says nothing
  // forbidden, calls only allowed functions, begins with a word of its mode, and
  // names tables that can all be told and all meet the policy.
  lemma AcceptanceByTokens(sql: string, cfg: ConnectionConfig, mode: Mode)
    ensures
      Validate(sql, cfg, mode).valid <==>
        && |Split(Trim(sql))| == 1 && Lex(Trim(sql)).Ok?
        && var ts := Lex(Trim(sql)).value;
           SpeaksPlainly(ts) && CallsAllowed(ts, cfg) && BeginsFor(ts, cfg, mode) && TablesMeetPolicy(ts, cfg, mode)
  {
    AcceptanceIsExact(sql, cfg, mode);
    if Lex(Trim(sql)).Ok? {
      var ts := Lex(Trim(sql)).value;
      WordsAreExact(ts);
      CallsAreExact(ts, cfg);
      ModeIsExact(ts, cfg, mode);
      if BeginsFor(ts, cfg, mode) {
        TablesAreExact(ts, cfg, mode);
      }
    }
  }

  // What a verdict that accepts says: the operation in lower case, the tables, and
  // a warning of DDL or of a query without the word LIMIT.
  predicate SaysOf(v: Verdict, ts: seq<Token>, mode: Mode) {
    && Says(ts, 0, v.operation) && v.readOnly == Says(ts, 0, "select") && v.reason.None?
    && v.warnings == if mode == DDL then [ConsequentialDDL]
                     else if Says(ts, 0, "select") && !SaysSomewhere(ts, ["limit"]) then [NoLimit] else []
  }

  lemma AcceptedVerdict(sql: string, cfg: ConnectionConfig, mode: Mode)
    requires Validate(sql, cfg, mode).valid
    ensures SaysOf(Validate(sql, cfg, mode), TokensOf(sql), mode)
  {
    var ts := TokensOf(sql);
    AcceptedIsJudged(sql, cfg, mode);
    JudgedVerdict(ts, cfg, mode);
  }

  lemma JudgedVerdict(ts: seq<Token>, cfg: ConnectionConfig, mode: Mode)
    requires (if mode == DDL then JudgeDDL(ts, cfg) else JudgeQuery(ts, cfg, mode)).valid
    ensures SaysOf(if mode == DDL then JudgeDDL(ts, cfg) else JudgeQuery(ts, cfg, mode), ts, mode)
  {
    WordSomewhere(ts, "limit");
  }

  lemma WordSomewhere(ts: seq<Token>, word: string)
    ensures SaysSomewhere(ts, [word]) <==> ContainsKeyword(ts, word)
  {
    forall i: nat
      ensures SaysAll(ts, i, [word]) == KeywordAt(ts, i, word)
    {
    }
  }

  // ----------------------------------------------------------------- refusals

  predicate AboutWords(r: Reason) {
    r.NotOneStatement? || r.ForbiddenWord? || r.RowLocking? || r.SelectInto?
  }

  predicate AboutMode(r: Reason) {
    r.NotDDL? || r.DDLDisabled? || r.OnlySelect? || r.OnlyDML?
  }

  predicate AboutNames(r: Reason) {
    || r.UnsafeCascade? || r.UnsupportedObject? || r.NotSimpleReference? || r.RelationList?
    || r.NoObject? || r.NoTarget?
  }

  predicate AboutPolicy(r: Reason) {
    r.SchemaRefused? || r.DMLRefused?
  }

  // The tables of a statement can be told, and there is one where there must be.
  predicate HasTables(ts: seq<Token>, mode: Mode) {
    NamedTables(ts, mode).Ok? && (NamedTables(ts, mode).value != [] || (mode != DDL && mode != DML))
  }

  // What is wrong is told in this order: the words, the functions, the mode, the
  // names of the tables, and the policy on them.
  predicate TellsFault(v: Verdict, ts: seq<Token>, cfg: ConnectionConfig, mode: Mode) {
    && v.reason.Some?
    && var r := v.reason.value;
       if !SpeaksPlainly(ts) then AboutWords(r)
       else if !CallsAllowed(ts, cfg) then r.FunctionSchema?
       else if !BeginsFor(ts, cfg, mode) then AboutMode(r)
       else if !HasTables(ts, mode) then AboutNames(r)
       else AboutPolicy(r)
  }

  // Where the policy refuses a table, it is the first that does not meet it. The
  // verdict has all the tables and the operation, and says which schema or which
  // operation is not allowed.
  predicate TellsTable(v: Verdict, ts: seq<Token>, cfg: ConnectionConfig, mode: Mode, k: nat) {
    && v.reason.Some? && NamedTables(ts, mode).Ok? && v.tables == NamedTables(ts, mode).value && k < |v.tables|
    && Says(ts, 0, v.operation)
    && (forall i | 0 <= i < k :: TableMeetsPolicy(ts, cfg, mode, v.tables[i]))
    && var (schema, name) := SplitTable(v.tables[k]);
       match v.reason.value
       case SchemaRefused(s) => s == schema && !cfg.SchemaAllowed(schema)
       case DMLRefused(s, t, op) =>
         s == schema && t == name && cfg.SchemaAllowed(schema)
         && Needs(ts, mode, op) && !cfg.DMLAllowed(schema, name, op)
       case _ => false
  }

  lemma {:induction false} FirstRefusedOperation(cfg: ConnectionConfig, schema: string, name: string, ops: seq<string>)
    requires RefusedOperation(cfg, schema, name, ops).Some?
    ensures
      var op := RefusedOperation(cfg, schema, name, ops).value;
      op in ops && !cfg.DMLAllowed(schema, name, op)
  {
    if cfg.DMLAllowed(schema, name, ops[0]) {
      FirstRefusedOperation(cfg, schema, name, ops[1..]);
    }
  }

  lemma {:induction false} FirstRefusedTable(cfg: ConnectionConfig, tables: seq<string>, ops: seq<string>)
    returns (k: nat)
    requires RefusedTable(cfg, tables, ops).Some?
    ensures k < |tables| && forall i | 0 <= i < k :: TableAllowed(cfg, tables[i], ops)
    ensures
      var (schema, name) := SplitTable(tables[k]);
      match RefusedTable(cfg, tables, ops).value
      case SchemaRefused(s) => s == schema && !cfg.SchemaAllowed(schema)
      case DMLRefused(s, t, op) =>
        s == schema && t == name && cfg.SchemaAllowed(schema) && op in ops && !cfg.DMLAllowed(schema, name, op)
      case _ => false
  {
    var (schema, name) := SplitTable(tables[0]);
    if !cfg.SchemaAllowed(schema) {
      k := 0;
    } else if RefusedOperation(cfg, schema, name, ops).Some? {
      FirstRefusedOperation(cfg, schema, name, ops);
      k := 0;
    } else {
      RefusedOperationNone(cfg, schema, name, ops);
      k := FirstRefusedTable(cfg, tables[1..], ops);
      k := k + 1;
    }
  }

  lemma {:induction false} ReferencesFault(ts: seq<Token>, op: string, i: nat)
    requires References(ts, op, i).Err?
    ensures AboutNames(References(ts, op, i).error)
    decreases |ts| - i
  {
    if i < |ts| && !ReadsRelation(ts, op, i) {
      ReferencesFault(ts, op, i + 1);
    } else if i < |ts| && ReadRelation(ts, i).Ok? {
      ReferencesFault(ts, op, ReadRelation(ts, i).value.next);
    }
  }

  lemma TableRefsFault(ts: seq<Token>, op: string)
    requires TableRefs(ts, op).Err?
    ensures AboutNames(TableRefs(ts, op).error)
  {
    if References(ts, op, 0).Err? {
      ReferencesFault(ts, op, 0);
    }
  }

  lemma IndexFault(ts: seq<Token>, q: nat)
    requires ParseIndex(ts, q).Err?
    ensures AboutNames(ParseIndex(ts, q).error)
  {
    IndexIsParsed(ts, q);
    TargetIsExact(ts, q, FindKeyword(ts, AfterName(ts, q), "on"));
  }

  lemma CreateFault(ts: seq<Token>)
    requires ParseCreate(ts).Err?
    ensures AboutNames(ParseCreate(ts).error)
  {
    var i := if KeywordAt(ts, 1, "unique") then 2 else 1;
    if ParseIndex(ts, SkipIfNotExists(ts, i + 1)).Err? {
      IndexFault(ts, SkipIfNotExists(ts, i + 1));
    }
  }

  lemma ObjectsFault(ts: seq<Token>)
    requires DDLObjects(ts).Err? && IsDDLOperation(Operation(ts))
    ensures AboutNames(DDLObjects(ts).error)
  {
    if ParseCreate(ts).Err? {
      CreateFault(ts);
    }
    if ParseAlter(ts).Err? {
      AlterFault(ts);
    }
    OneNameFault(ts);
  }

  lemma AlterFault(ts: seq<Token>)
    requires ParseAlter(ts).Err?
    ensures AboutNames(ParseAlter(ts).error)
  {
  }

  lemma OneNameFault(ts: seq<Token>)
    ensures ParseDrop(ts).Err? ==> AboutNames(ParseDrop(ts).error)
    ensures ParseTruncate(ts).Err? ==> AboutNames(ParseTruncate(ts).error)
  {
  }

  // What a verdict says that refuses the tables ts names.
  lemma VerdictFault(ts: seq<Token>, cfg: ConnectionConfig, mode: Mode) returns (k: nat)
    requires !(if mode == DDL then JudgeDDL(ts, cfg) else JudgeQuery(ts, cfg, mode)).valid
    ensures
      var v := if mode == DDL then JudgeDDL(ts, cfg) else JudgeQuery(ts, cfg, mode);
      && v.reason.Some? && v.warnings == []
      && (if !FitsMode(Operation(ts), cfg, mode) then AboutMode(v.reason.value)
          else if !HasTables(ts, mode) then AboutNames(v.reason.value)
          else AboutPolicy(v.reason.value) && BeginsFor(ts, cfg, mode) && TellsTable(v, ts, cfg, mode, k))
      && (!AboutPolicy(v.reason.value) ==> v.tables == [])
  {
    k := 0;
    ModeIsExact(ts, cfg, mode);
    if FitsMode(Operation(ts), cfg, mode) {
      if NamedTables(ts, mode).Err? {
        FaultOfNames(ts, cfg, mode);
      } else if HasTables(ts, mode) {
        k := FaultOfPolicy(ts, cfg, mode);
      }
    }
  }

  lemma FaultOfNames(ts: seq<Token>, cfg: ConnectionConfig, mode: Mode)
    requires FitsMode(Operation(ts), cfg, mode) && NamedTables(ts, mode).Err?
    ensures
      var v := if mode == DDL then JudgeDDL(ts, cfg) else JudgeQuery(ts, cfg, mode);
      v.reason.Some? && AboutNames(v.reason.value) && v.tables == [] && v.warnings == []
  {
    if TableRefs(ts, Operation(ts)).Err? {
      TableRefsFault(ts, Operation(ts));
    }
    if mode == DDL && DDLObjects(ts).Err? {
      ObjectsFault(ts);
    }
  }

  lemma FaultOfPolicy(ts: seq<Token>, cfg: ConnectionConfig, mode: Mode) returns (k: nat)
    requires FitsMode(Operation(ts), cfg, mode) && HasTables(ts, mode)
    requires !(if mode == DDL then JudgeDDL(ts, cfg) else JudgeQuery(ts, cfg, mode)).valid
    ensures
      var v := if mode == DDL then JudgeDDL(ts, cfg) else JudgeQuery(ts, cfg, mode);
      v.reason.Some? && AboutPolicy(v.reason.value) && v.warnings == [] && TellsTable(v, ts, cfg, mode, k)
  {
    var tables, ops := NamedTables(ts, mode).value, OperationsOn(ts, mode);
    ModeIsExact(ts, cfg, mode);
    k := FirstRefusedTable(cfg, tables, ops);
    forall i | 0 <= i < k
      ensures TableMeetsPolicy(ts, cfg, mode, tables[i])
    {
      PolicyIsExact(ts, cfg, mode, tables[i]);
    }
    forall op
      ensures op in ops <==> Needs(ts, mode, op)
    {
      OperationsAreExact(ts, cfg, mode, op);
    }
  }

  lemma JudgedFault(ts: seq<Token>, cfg: ConnectionConfig, mode: Mode)
    requires ts != [] && !Judge(ts, cfg, mode).valid
    ensures TellsFault(Judge(ts, cfg, mode), ts, cfg, mode)
    ensures !AboutPolicy(Judge(ts, cfg, mode).reason.value) ==> Judge(ts, cfg, mode).tables == []
    ensures Judge(ts, cfg, mode).warnings == []
  {
    WordsAreExact(ts);
    BadTokenNone(ts, 0);
    CallsAreExact(ts, cfg);
    ModeIsExact(ts, cfg, mode);
    if SpeaksWell(ts) && FunctionSchemasAllowed(ts, cfg) {
      var k := VerdictFault(ts, cfg, mode);
    } else {
      TokenFault(ts);
    }
  }

  lemma {:induction false} BadTokenFault(ts: seq<Token>, i: nat)
    requires i <= |ts| && BadToken(ts, i).Some?
    ensures AboutWords(BadToken(ts, i).value)
    decreases |ts| - i
  {
    if !SecondStatementAt(ts, i) && !ForbiddenAt(ts, i) {
      BadTokenFault(ts, i + 1);
    }
  }

  lemma TokenFault(ts: seq<Token>)
    ensures CheckTokens(ts).Some? ==> AboutWords(CheckTokens(ts).value)
  {
    if BadToken(ts, 0).Some? {
      BadTokenFault(ts, 0);
    }
  }

  // Why a statement of one piece that can be tokenized is not accepted.
  lemma RefusalIsTold(sql: string, cfg: ConnectionConfig, mode: Mode)
    requires !Validate(sql, cfg, mode).valid && |Split(Trim(sql))| == 1 && Lex(Trim(sql)).Ok?
    ensures
      var v, ts := Validate(sql, cfg, mode), TokensOf(sql);
      && (if ts == [] then v.reason == Some(SqlRequired) else TellsFault(v, ts, cfg, mode))
      && (v.tables == [] || AboutPolicy(v.reason.value)) && v.warnings == []
  {
    if TokensOf(sql) != [] {
      JudgedFault(TokensOf(sql), cfg, mode);
    }
  }

  // Which table the policy refuses, and why.
  lemma RefusedTableIsTold(sql: string, cfg: ConnectionConfig, mode: Mode) returns (k: nat)
    requires
      var v := Validate(sql, cfg, mode);
      !v.valid && v.reason.Some? && AboutPolicy(v.reason.value)
    ensures TellsTable(Validate(sql, cfg, mode), TokensOf(sql), cfg, mode, k)
  {
    var ts := TokensOf(sql);
    TokenFault(ts);
    k := VerdictFault(ts, cfg, mode);
  }

  // Other texts are refused for what they are: blank, not one statement, or not
  // made of tokens.
  lemma TextIsTold(sql: string, cfg: ConnectionConfig, mode: Mode)
    ensures
      var s, v := Trim(sql), Validate(sql, cfg, mode);
      && (s == "" ==> v == Invalid(SqlRequired))
      && (s != "" && |Split(s)| != 1 ==> v == Invalid(NotOneStatement))
      && (s != "" && |Split(s)| == 1 && Lex(s).Err? ==> v == Invalid(Unlexable(Lex(s).error)))
  {
  }
}
