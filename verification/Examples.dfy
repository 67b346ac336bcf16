/** A query and a script that the guard accepts: what the laws ask of accepted
    texts can be met under every policy that allows the schema public. */
module Examples {
  import opened Outcomes
  import opened Text
  import opened Scan
  import opened StripLaws
  import opened SplitLaws
  import opened Commute
  import opened Lexer
  import opened LexLaws
  import opened Config
  import opened Guard
  import opened GuardLaws
  import opened LimitLaws
  import opened Script

  // No quote, comment or semicolon.
  predicate PlainText(s: string) {
    forall i | 0 <= i < |s| :: s[i] != '\'' && s[i] != '"' && s[i] != '-' && s[i] != '/' && s[i] != ';'
  }

  lemma {:induction false} PlainIsOnePiece(s: string)
    requires PlainText(s)
    ensures RawSplit(Code, s) == [s]
  {
    if s != "" {
      PlainIsOnePiece(s[1..]);
      assert SplitMove(Code, s) == Move(Code, 1);
      assert s[..1] + s[1..] == s;
      assert Push(s[..1], [s[1..]]) == [s];
    }
  }

  lemma {:induction false} PlainIsStripped(s: string)
    requires PlainText(s)
    ensures Strip(Code, s) == s && StripEnd(Code, s) == Code
  {
    if s != "" {
      PlainIsStripped(s[1..]);
      assert StripMove(Code, s) == Move(Code, 1);
      assert s[..1] + s[1..] == s;
    }
  }

  lemma PlainStatement(s: string)
    requires PlainText(s) && Trimmed(s) && s != ""
    ensures Trim(s) == s && Split(s) == [s] && StripComments(s) == Ok(s) && CutsAtTopLevel(s)
  {
    TrimIsIdentityWhenTrimmed(s);
    PlainIsOnePiece(s);
    assert [s][1..] == [] && Tidy([s]) == [s];
    PlainIsStripped(s);
    assert "" + s == s;
  }

  predicate IsItem(w: string) {
    IsWord(w) || IsSign(w) || IsNumeral(w)
  }

  lemma ItemIsPlain(w: string)
    requires IsItem(w)
    ensures PlainText(w) && !IsSpace(w[0]) && !IsSpace(w[|w| - 1])
  {
    assert forall i | 0 <= i < |w| ::
      w[i] == '_' || 'a' <= w[i] <= 'z' || '0' <= w[i] <= '9' || '(' <= w[i] <= '*' || w[i] == ',' || w[i] == '.';
  }

  lemma {:induction false} SpacedIsPlain(items: seq<string>)
    requires items != [] && forall w | w in items :: IsItem(w)
    ensures Spaced(items) != "" && PlainText(Spaced(items))
    ensures !IsSpace(Spaced(items)[0]) && !IsSpace(Spaced(items)[|Spaced(items)| - 1])
  {
    ItemIsPlain(items[0]);
    if |items| > 1 {
      SpacedIsPlain(items[1..]);
    }
  }

  lemma WordToken(w: string)
    requires IsWord(w)
    ensures ItemToken(w) == Word(w)
  {
    assert w[0] == '_' || 'a' <= w[0] <= 'z';
  }

  const QUERY := ["select", "*", "from", "t"]
  const DROP := ["drop", "table", "t"]

  lemma QueryTokens()
    ensures Spaced(QUERY) == "select * from t" && forall w | w in QUERY :: IsItem(w)
    ensures ItemTokens(QUERY) == [Word("select"), Sign("*"), Word("from"), Word("t")]
  {
    QueryText();
    FourTokens("select", "*", "from", "t");
  }

  lemma QueryText()
    ensures Spaced(QUERY) == "select * from t"
  {
    var a, b, c := QUERY[1..], QUERY[2..], QUERY[3..];
    assert a[1..] == b && b[1..] == c && c[1..] == [];
    assert Spaced(c) == "t" && Spaced(b) == "from t" && Spaced(a) == "* from t";
  }

  lemma FourTokens(a: string, b: string, c: string, d: string)
    requires IsWord(a) && IsSign(b) && IsWord(c) && IsWord(d)
    ensures ItemTokens([a, b, c, d]) == [Word(a), Sign(b), Word(c), Word(d)]
  {
    var x, y, z := [b, c, d], [c, d], [d];
    assert [a, b, c, d][1..] == x && x[1..] == y && y[1..] == z && z[1..] == [];
    WordToken(a);
    WordToken(c);
    WordToken(d);
    assert ItemTokens(z) == [Word(d)];
    assert ItemTokens(y) == [Word(c), Word(d)];
    assert ItemTokens(x) == [Sign(b), Word(c), Word(d)];
  }

  lemma DropTokens()
    ensures Spaced(DROP) == "drop table t" && forall w | w in DROP :: IsItem(w)
    ensures ItemTokens(DROP) == [Word("drop"), Word("table"), Word("t")]
  {
    var a, b := DROP[1..], DROP[2..];
    assert a[1..] == b && b[1..] == [];
    assert Spaced(b) == "t" && Spaced(a) == "table t";
    WordToken("drop");
    WordToken("table");
    WordToken("t");
    assert ItemTokens(b) == [Word("t")];
    assert ItemTokens(a) == [Word("table"), Word("t")];
  }

  lemma LowerWord(w: string)
    requires IsWord(w)
    ensures ToLower(w) == w
  {
  }

  predicate Harmless(w: string) {
    w !in DANGEROUS_NAMES && w !in FORBIDDEN_STATEMENTS && w != "do"
  }

  lemma TheseAreHarmless()
    ensures Harmless("select") && Harmless("from") && Harmless("t") && Harmless("drop") && Harmless("table")
  {
    assert "select"[2] == 'l' && "from"[0] == 'f' && "t"[0] == 't' && "drop"[1] == 'r' && "table"[0] == 't';
  }

  predicate HarmlessToken(t: Token) {
    t.text != ";" && Harmless(ToLower(t.text))
  }

  lemma {:induction false} NoBadToken(ts: seq<Token>, i: nat)
    requires i <= |ts| && forall t | t in ts :: HarmlessToken(t)
    ensures BadToken(ts, i).None?
    decreases |ts| - i
  {
    if i < |ts| {
      assert HarmlessToken(ts[i]);
      NoBadToken(ts, i + 1);
    }
  }

  // No word of ts begins a locking clause.
  lemma NothingLocked(ts: seq<Token>)
    requires forall i: int :: !KeywordAt(ts, i, "for")
    ensures !LocksRows(ts)
  {
    forall values: seq<string>, i: nat | values != [] && values[0] == "for"
      ensures !SequenceAt(ts, i, values)
    {
      assert !KeywordAt(ts, i + 0, values[0]);
    }
  }

  // ------------------------------------------------- a query, its table named x

  // An unquoted t, or any quoted name that is not a forbidden word.
  predicate TableToken(x: Token) {
    && x.kind == Identifier && (x.quoted || x == Word("t")) && HarmlessToken(x)
    && TableOf(x) != ""
  }

  function TableOf(x: Token): string {
    NormalizeTable(IdentifierValue(x))
  }

  lemma PublicTable()
    ensures TableToken(Word("t")) && TableOf(Word("t")) == "public.t" && SplitTable("public.t") == ("public", "t")
  {
    LowerWord("t");
    TheseAreHarmless();
    TrimIsIdentityWhenTrimmed("t");
    assert "public." + "t" == "public.t";
    BareNameRecovered("t");
  }

  function QueryTokenList(x: Token): seq<Token> {
    [Word("select"), Sign("*"), Word("from"), x]
  }

  lemma QueryWords(x: Token, i: int, v: string)
    requires TableToken(x)
    ensures KeywordAt(QueryTokenList(x), i, v)
      <==> (i == 0 && v == "select") || (i == 2 && v == "from") || (i == 3 && v == "t" && !x.quoted)
  {
    LowerWord("select");
    LowerWord("from");
    LowerWord("t");
  }

  lemma QueryIsHarmless(x: Token)
    requires TableToken(x)
    ensures BadToken(QueryTokenList(x), 0).None?
  {
    FixedTokensAreHarmless();
    NoBadToken(QueryTokenList(x), 0);
  }

  lemma FixedTokensAreHarmless()
    ensures HarmlessToken(Word("select")) && HarmlessToken(Sign("*")) && HarmlessToken(Word("from"))
  {
    LowerWord("select");
    LowerWord("from");
    TheseAreHarmless();
    assert ToLower("*") == "*" && Harmless("*");
  }

  lemma QueryIsChecked(x: Token)
    requires TableToken(x)
    ensures CheckTokens(QueryTokenList(x)).None? && !ContainsKeyword(QueryTokenList(x), "limit")
  {
    var ts := QueryTokenList(x);
    QueryIsHarmless(x);
    forall i: int
      ensures !KeywordAt(ts, i, "for") && !KeywordAt(ts, i, "into") && !KeywordAt(ts, i, "limit")
    {
      QueryWords(x, i, "for");
      QueryWords(x, i, "into");
      QueryWords(x, i, "limit");
    }
    NothingLocked(ts);
  }

  lemma QueryReads(x: Token, i: nat)
    requires TableToken(x) && i < 4
    ensures ReadsRelation(QueryTokenList(x), "select", i) <==> i == 2
  {
    QueryWords(x, i, "from");
    QueryWords(x, i, "join");
    QueryWords(x, i, "references");
    QueryWords(x, i, "using");
    QueryWords(x, i, "update");
    QueryWords(x, i, "into");
  }

  lemma QueryReference(x: Token)
    requires TableToken(x)
    ensures ReadRelation(QueryTokenList(x), 2) == Ok(Relation(None, IdentifierValue(x), 4))
  {
    var ts := QueryTokenList(x);
    QueryWords(x, 2, "inherits");
    QueryWords(x, 2, "into");
    QueryWords(x, 2, "references");
    QueryWords(x, 3, "only");
    QueryWords(x, 3, "table");
    QueryWords(x, 3, "if");
    QueryWords(x, 3, "exists");
    assert RelationStart(ts, 2) == 3 && !ParenthesesAllowed(ts, 2);
    assert RelationAt(ts, 3, false) == Ok(Relation(None, IdentifierValue(x), 4));
    assert !ListFollows(ts, 4);
  }

  lemma QueryTables(x: Token)
    requires TableToken(x)
    ensures TableRefs(QueryTokenList(x), "select") == Ok([TableOf(x)])
  {
    var ts, r := QueryTokenList(x), Relation(None, IdentifierValue(x), 4);
    QueryReads(x, 0);
    QueryReads(x, 1);
    QueryReads(x, 2);
    QueryReference(x);
    assert References(ts, "select", 4) == Ok([]);
    assert [Reference(2, r)] + [] == [Reference(2, r)];
    assert References(ts, "select", 2) == Ok([Reference(2, r)]);
    assert References(ts, "select", 1) == References(ts, "select", 2);
    OneReference(Reference(2, r));
  }

  lemma OneReference(r: Reference)
    requires r.relation.Table() != ""
    ensures AppendUnique([], Tables([r])) == [r.relation.Table()]
  {
    var t := r.relation.Table();
    assert [r][1..] == [] && Tables([r]) == [t];
    assert [t][1..] == [] && [] + [t] == [t];
  }

  lemma QueryCallsNothing(x: Token, cfg: ConnectionConfig)
    ensures FunctionSchemasAllowed(QueryTokenList(x), cfg)
  {
    assert forall i :: !QualifiedCallAt(QueryTokenList(x), i);
  }

  lemma QueryVerdict(x: Token, cfg: ConnectionConfig)
    requires TableToken(x) && TableAllowed(cfg, TableOf(x), [])
    ensures JudgeQuery(QueryTokenList(x), cfg, Read)
      == Verdict(true, true, "select", [TableOf(x)], [NoLimit], None)
  {
    QueryIsSelect(x);
    QueryIsChecked(x);
    QueryTables(x);
    SelectVerdict(QueryTokenList(x), TableOf(x), cfg);
  }

  lemma QueryIsSelect(x: Token)
    ensures Operation(QueryTokenList(x)) == "select"
  {
    LowerWord("select");
  }

  lemma SelectVerdict(ts: seq<Token>, table: string, cfg: ConnectionConfig)
    requires Operation(ts) == "select" && TableRefs(ts, "select") == Ok([table])
    requires TableAllowed(cfg, table, []) && !ContainsKeyword(ts, "limit")
    ensures JudgeQuery(ts, cfg, Read) == Verdict(true, true, "select", [table], [NoLimit], None)
  {
    RefusedTableNone(cfg, [table], []);
  }

  lemma QueryIsJudged(x: Token, cfg: ConnectionConfig)
    requires TableToken(x) && TableAllowed(cfg, TableOf(x), [])
    ensures Judge(QueryTokenList(x), cfg, Read)
      == Verdict(true, true, "select", [TableOf(x)], [NoLimit], None)
  {
    QueryIsChecked(x);
    QueryCallsNothing(x, cfg);
    QueryVerdict(x, cfg);
  }

  // A query of one table is accepted for reading, with that table in the schema
  // public and the warning that it has no limit.
  lemma QueryIsAccepted(cfg: ConnectionConfig)
    requires cfg.SchemaAllowed("public")
    ensures Validate("select * from t", cfg, Read)
      == Verdict(true, true, "select", ["public.t"], [NoLimit], None)
  {
    QueryTokens();
    SpacedIsPlain(QUERY);
    PlainStatement("select * from t");
    LexSpaced(QUERY);
    PublicTable();
    QueryIsJudged(Word("t"), cfg);
  }

  // ----------------------------------------------------------- a quoted name

  lemma {:induction false} ReadPlainName(name: string)
    requires '"' !in name
    ensures ReadQuoted(name + "\"") == Quoted(name, |name| + 1)
  {
    if name == "" {
      assert name + "\"" == "\"";
    } else {
      ReadPlainName(name[1..]);
      CutAppend(name, 1, "\"");
      assert (name + "\"")[0] == name[0] && [name[0]] + name[1..] == name;
    }
  }

  // A name between double quotes.
  function InQuotes(name: string): string {
    "\"" + (name + "\"")
  }

  lemma LexQuotedName(name: string)
    requires '"' !in name
    ensures Lex(InQuotes(name)) == Ok([Token(name, true, Identifier)])
  {
    var s := InQuotes(name);
    assert s[0] == '"' && s[1..] == name + "\"";
    ReadPlainName(name);
    assert s[|s|..] == "";
    assert [Token(name, true, Identifier)] + [] == [Token(name, true, Identifier)];
  }

  lemma {:induction false} NameIsOnePiece(name: string)
    requires '"' !in name
    ensures RawSplit(Double, name + "\"") == [name + "\""]
  {
    if name == "" {
      assert name + "\"" == "\"" && "\"" + "" == "\"";
      SplitStep(Double, "\"", "");
    } else {
      NameIsOnePiece(name[1..]);
      CutAppend(name, 1, "\"");
      assert (name + "\"")[0] == name[0];
      SplitStep(Double, name[..1], name[1..] + "\"");
    }
  }

  const SELECT_FROM := "select * from "

  function QuotedQuery(name: string): string {
    SELECT_FROM + InQuotes(name)
  }

  lemma SelectFromText()
    ensures Spaced(Before()) + " " == SELECT_FROM && PlainText(SELECT_FROM)
    ensures forall w | w in Before() :: IsItem(w)
  {
    assert Before()[1..] == ["*", "from"] && ["*", "from"][1..] == ["from"];
    assert Spaced(["*", "from"]) == "* from";
    BeforeItems();
    SpacedIsPlain(Before());
  }

  lemma SelectFromTokens()
    ensures ItemTokens(Before()) == [Word("select"), Sign("*"), Word("from")]
  {
    assert Before()[1..] == ["*", "from"] && ["*", "from"][1..] == ["from"] && ["from"][1..] == [];
    WordToken("select");
    WordToken("from");
    assert ItemTokens(["from"]) == [Word("from")];
    assert ItemTokens(["*", "from"]) == [Sign("*"), Word("from")];
  }

  lemma QuotedQueryIsLexed(name: string)
    requires '"' !in name
    ensures Lex(QuotedQuery(name)) == Ok(QueryTokenList(Token(name, true, Identifier)))
  {
    var q, x := InQuotes(name), Token(name, true, Identifier);
    SelectFromText();
    SelectFromTokens();
    LexSpaced(Before());
    LexQuotedName(name);
    LexSpace(q);
    LexConcat(Spaced(Before()), " " + q);
    Associate(Spaced(Before()), " ", q);
    assert [Word("select"), Sign("*"), Word("from")] + [x] == QueryTokenList(x);
  }

  lemma {:induction false} PlainPrefix(x: string, y: string)
    requires PlainText(x)
    ensures RawSplit(Code, x + y) == Push(x, RawSplit(Code, y))
  {
    if x == "" {
      assert x + y == y;
      PushNothing(RawSplit(Code, y));
    } else {
      CutAppend(x, 1, y);
      assert (x + y)[0] == x[0];
      PlainPrefix(x[1..], y);
      SplitStep(Code, x[..1], x[1..] + y);
      PushPush(x[..1], x[1..], RawSplit(Code, y));
      assert x[..1] + x[1..] == x;
    }
  }

  lemma QuotedQueryIsOneStatement(name: string)
    requires '"' !in name
    ensures Trim(QuotedQuery(name)) == QuotedQuery(name) && |Split(QuotedQuery(name))| == 1
  {
    var q, s := InQuotes(name), QuotedQuery(name);
    SelectFromText();
    PlainPrefix(SELECT_FROM, q);
    NameIsOnePiece(name);
    assert q[0] == '"';
    SplitStep(Code, "\"", name + "\"");
    assert s[0] == 's' && s[|s| - 1] == '"';
    TrimIsIdentityWhenTrimmed(s);
    OnePieceIsOneStatement(s);
  }

  lemma OnePieceIsOneStatement(s: string)
    requires |RawSplit(Code, s)| == 1 && Trim(s) == s && s != ""
    ensures |Split(s)| == 1
  {
    NoCutIsOnePiece(Code, s);
    assert [s][1..] == [] && Tidy([s][1..]) == [];
  }

  // A query of a quoted name is accepted with that name where the policy allows
  // it as it is split at its dots.
  lemma QuotedQueryIsAccepted(name: string, cfg: ConnectionConfig)
    requires '"' !in name && TableToken(Token(name, true, Identifier)) && TableAllowed(cfg, NormalizeTable(name), [])
    ensures Validate(QuotedQuery(name), cfg, Read)
      == Verdict(true, true, "select", [NormalizeTable(name)], [NoLimit], None)
  {
    QuotedQueryIsOneStatement(name);
    QuotedQueryIsLexed(name);
    QueryIsJudged(Token(name, true, Identifier), cfg);
  }

  lemma StatementNamesHaveNoDots(w: string)
    requires w in FORBIDDEN_STATEMENTS
    ensures '.' !in w
  {
  }

  lemma DangerousNamesHaveNoDots(w: string)
    requires w in DANGEROUS_NAMES
    ensures '.' !in w
  {
  }

  lemma DottedNameIsHarmless(name: string, k: nat)
    requires k < |name| && name[k] == '.'
    ensures Harmless(ToLower(name))
  {
    var w := ToLower(name);
    assert w[k] == '.' && '.' !in "do";
    if w in FORBIDDEN_STATEMENTS {
      StatementNamesHaveNoDots(w);
    }
    if w in DANGEROUS_NAMES {
      DangerousNamesHaveNoDots(w);
    }
  }

  lemma DottedNameIsItsTable(s: string, n: string)
    requires PlainNames(Relation(Some(s), n, 0))
    ensures s + "." + n != "" && s + "." + n != ";" && NormalizeTable(s + "." + n) == s + "." + n
  {
    var name := s + "." + n;
    assert name[|s|] == '.';
    assert name[0] == (if s == "" then '.' else s[0]);
    assert name[|name| - 1] == (if n == "" then '.' else n[|n| - 1]);
    TrimIsIdentityWhenTrimmed(name);
  }

  // So a table without a schema whose quoted name has a dot is checked as a table
  // of the schema before the dot: where that one is allowed, the query is
  // accepted, whether public, which the guard else takes, is or not.
  lemma DottedNameIsMisread(s: string, n: string, cfg: ConnectionConfig)
    requires '"' !in s + "." + n && PlainNames(Relation(Some(s), n, 0))
    requires cfg.SchemaAllowed(s)
    ensures
      var query := QuotedQuery(s + "." + n);
      var ts, v := TokensOf(query), Validate(query, cfg, Read);
      && v.valid && v.tables == [s + "." + n]
      && ReadRelation(ts, 2) == Ok(Relation(None, s + "." + n, 4))
      && SchemaOf(ReadRelation(ts, 2).value) == "public"
  {
    var name := s + "." + n;
    var x := Token(name, true, Identifier);
    var r := Relation(Some(s), n, 0);
    QualifiedNameRecovered(s, n);
    DottedNameIsItsTable(s, n);
    assert name[|s|] == '.';
    DottedNameIsHarmless(name, |s|);
    QuotedQueryIsAccepted(name, cfg);
    QuotedQueryIsOneStatement(name);
    QuotedQueryIsLexed(name);
    QueryReference(x);
  }

  // ----------------------------------------------------------------- a script

  function DropTokenList(): seq<Token> {
    [Word("drop"), Word("table"), Word("t")]
  }

  lemma DropWords(i: int, v: string)
    ensures KeywordAt(DropTokenList(), i, v)
      <==> (i == 0 && v == "drop") || (i == 1 && v == "table") || (i == 2 && v == "t")
  {
    LowerWord("drop");
    LowerWord("table");
    LowerWord("t");
  }

  lemma PublicIsAllowed(cfg: ConnectionConfig)
    requires cfg.SchemaAllowed("public")
    ensures RefusedTable(cfg, ["public.t"], []).None?
  {
    PublicTable();
    assert TableAllowed(cfg, "public.t", []);
    RefusedTableNone(cfg, ["public.t"], []);
  }

  lemma DropIsHarmless()
    ensures BadToken(DropTokenList(), 0).None?
  {
    LowerWord("drop");
    LowerWord("table");
    LowerWord("t");
    TheseAreHarmless();
    NoBadToken(DropTokenList(), 0);
  }

  lemma DropIsChecked()
    ensures CheckTokens(DropTokenList()).None? && Operation(DropTokenList()) == "drop"
  {
    var ts := DropTokenList();
    LowerWord("drop");
    DropIsHarmless();
    forall i: int
      ensures !KeywordAt(ts, i, "for")
    {
      DropWords(i, "for");
    }
    NothingLocked(ts);
  }

  lemma DropObjects()
    ensures DDLObjects(DropTokenList()) == Ok(["public.t"])
  {
    var ts := DropTokenList();
    DropIsChecked();
    forall i: int
      ensures !KeywordAt(ts, i, "cascade")
    {
      DropWords(i, "cascade");
    }
    DropParsed();
  }

  lemma DropParsed()
    ensures ParseDrop(DropTokenList()) == Ok(["public.t"])
  {
    var ts := DropTokenList();
    DropWords(1, "table");
    DropWords(1, "index");
    DropWords(2, "if");
    DropWords(2, "only");
    DropWords(2, "table");
    DropWords(2, "exists");
    LowerWord("t");
    PublicTable();
    assert RelationAt(ts, 2, false) == Ok(Relation(None, "t", 3));
  }

  lemma DropReads(i: nat)
    requires i < 3
    ensures !ReadsRelation(DropTokenList(), "drop", i)
  {
    DropWords(i, "from");
    DropWords(i, "join");
    DropWords(i, "references");
    DropWords(i, "using");
    DropWords(i, "update");
    DropWords(i, "into");
  }

  lemma DropTables()
    ensures TableRefs(DropTokenList(), "drop") == Ok([])
  {
    var ts := DropTokenList();
    DropReads(0);
    DropReads(1);
    DropReads(2);
    assert References(ts, "drop", 3) == References(ts, "drop", 2) == Ok([]);
    assert References(ts, "drop", 0) == References(ts, "drop", 1) == References(ts, "drop", 2);
  }

  lemma DropVerdict(cfg: ConnectionConfig)
    requires cfg.SchemaAllowed("public") && cfg.DDLAllowed()
    ensures JudgeDDL(DropTokenList(), cfg) == Verdict(true, false, "drop", ["public.t"], [ConsequentialDDL], None)
  {
    DropIsChecked();
    DropObjects();
    DropTables();
    PublicIsAllowed(cfg);
  }

  lemma DropIsJudged(cfg: ConnectionConfig)
    requires cfg.SchemaAllowed("public") && cfg.DDLAllowed()
    ensures Judge(DropTokenList(), cfg, DDL) == Verdict(true, false, "drop", ["public.t"], [ConsequentialDDL], None)
  {
    DropIsChecked();
    DropVerdict(cfg);
  }

  lemma DropIsLexed()
    ensures Lex("drop table t") == Ok(DropTokenList()) && Trim("drop table t") == "drop table t"
    ensures Split("drop table t") == ["drop table t"] && StripComments("drop table t") == Ok("drop table t")
    ensures CutsAtTopLevel("drop table t")
  {
    DropTokens();
    SpacedIsPlain(DROP);
    PlainStatement("drop table t");
    LexSpaced(DROP);
  }

  lemma DropIsAccepted(cfg: ConnectionConfig)
    requires cfg.SchemaAllowed("public") && cfg.DDLAllowed()
    ensures StatementAccepted("drop table t", cfg)
  {
    DropIsOperation();
    DropIsValid(cfg);
  }

  lemma DropIsOperation()
    ensures OperationOf("drop table t") == "drop"
  {
    DropIsLexed();
    DropIsChecked();
    OperationOfLexed("drop table t", DropTokenList());
  }

  lemma OperationOfLexed(s: string, ts: seq<Token>)
    requires Lex(s) == Ok(ts)
    ensures OperationOf(s) == Operation(ts)
  {
  }

  lemma DropIsValid(cfg: ConnectionConfig)
    requires cfg.SchemaAllowed("public") && cfg.DDLAllowed()
    ensures Validate("drop table t", cfg, DDL).valid
  {
    DropIsLexed();
    DropIsJudged(cfg);
  }

  lemma DropIsExecutable()
    ensures Executables("drop table t") == Ok(["drop table t"])
  {
    var s := "drop table t";
    DropIsLexed();
    assert [s][1..] == [] && [s] + [] == [s];
    assert StripAll([s]) == Ok([s]) && Tidy([s]) == [s];
  }

  // A script of one statement is accepted wherever DDL and one statement are.
  lemma ScriptIsAcceptedSomewhere(cfg: ConnectionConfig, max: int)
    requires cfg.SchemaAllowed("public") && cfg.DDLAllowed() && 1 <= max
    ensures ScriptAnswer("drop table t", cfg, max).error.None? && CutsAtTopLevel("drop table t")
  {
    DropIsLexed();
    DropIsExecutable();
    DropIsAccepted(cfg);
    ScriptIsAccepted("drop table t", cfg, max);
  }

  // ------------------------------------------------------------ a DML script

  const DELETE := ["delete", "from", "t"]
  const DELETION := "delete from t"

  function DeleteTokenList(): seq<Token> {
    [Word("delete"), Word("from"), Word("t")]
  }

  lemma DeleteTokens()
    ensures Spaced(DELETE) == DELETION && forall w | w in DELETE :: IsItem(w)
    ensures ItemTokens(DELETE) == DeleteTokenList()
  {
    var a, b := DELETE[1..], DELETE[2..];
    assert a[1..] == b && b[1..] == [];
    assert Spaced(b) == "t" && Spaced(a) == "from t";
    WordToken("delete");
    WordToken("from");
    WordToken("t");
    assert ItemTokens(b) == [Word("t")];
    assert ItemTokens(a) == [Word("from"), Word("t")];
  }

  lemma DeleteWords(i: int, v: string)
    ensures KeywordAt(DeleteTokenList(), i, v)
      <==> (i == 0 && v == "delete") || (i == 1 && v == "from") || (i == 2 && v == "t")
  {
    LowerWord("delete");
    LowerWord("from");
    LowerWord("t");
  }

  lemma DeleteIsChecked()
    ensures CheckTokens(DeleteTokenList()).None? && Operation(DeleteTokenList()) == "delete"
  {
    var ts := DeleteTokenList();
    DeleteIsHarmless();
    LowerWord("delete");
    forall i: int
      ensures !KeywordAt(ts, i, "for")
    {
      DeleteWords(i, "for");
    }
    NothingLocked(ts);
  }

  lemma DeleteIsHarmless()
    ensures BadToken(DeleteTokenList(), 0).None?
  {
    LowerWord("delete");
    LowerWord("from");
    LowerWord("t");
    TheseAreHarmless();
    assert "delete"[2] == 'l' && Harmless("delete");
    NoBadToken(DeleteTokenList(), 0);
  }

  lemma DeleteReads(i: nat)
    requires i < 3
    ensures ReadsRelation(DeleteTokenList(), "delete", i) <==> i == 1
  {
    DeleteWords(i, "from");
    DeleteWords(i, "join");
    DeleteWords(i, "references");
    DeleteWords(i, "using");
    DeleteWords(i, "update");
    DeleteWords(i, "into");
  }

  lemma DeleteReference()
    ensures RelationAt(DeleteTokenList(), 2, false) == Ok(Relation(None, "t", 3))
    ensures ReadRelation(DeleteTokenList(), 1) == Ok(Relation(None, "t", 3))
  {
    var ts := DeleteTokenList();
    DeleteWords(1, "inherits");
    DeleteWords(1, "into");
    DeleteWords(1, "references");
    DeleteWords(2, "only");
    DeleteWords(2, "table");
    DeleteWords(2, "if");
    DeleteWords(2, "exists");
    LowerWord("t");
    assert RelationStart(ts, 1) == 2 && !ParenthesesAllowed(ts, 1);
    assert !ListFollows(ts, 3);
  }

  lemma DeleteReferences()
    ensures References(DeleteTokenList(), "delete", 0) == Ok([Reference(1, Relation(None, "t", 3))])
  {
    var ts, r := DeleteTokenList(), Relation(None, "t", 3);
    DeleteReads(0);
    DeleteReads(1);
    DeleteReference();
    assert References(ts, "delete", 3) == Ok([]);
    assert [Reference(1, r)] + [] == [Reference(1, r)];
    assert References(ts, "delete", 1) == Ok([Reference(1, r)]);
  }

  lemma DeleteTables()
    ensures TableRefs(DeleteTokenList(), "delete") == Ok(["public.t"])
  {
    var ts, r := DeleteTokenList(), Relation(None, "t", 3);
    LowerWord("t");
    PublicTable();
    DeleteReferences();
    OneReference(Reference(1, r));
    DeleteReference();
    DeleteWords(0, "delete");
    DeleteWords(1, "from");
    assert DeleteTarget(ts, 0) == Some(0);
  }

  lemma DeleteVerdict(ts: seq<Token>, table: string, cfg: ConnectionConfig)
    requires Operation(ts) == "delete" && TableRefs(ts, "delete") == Ok([table])
    requires TableAllowed(cfg, table, ["delete"])
    ensures JudgeQuery(ts, cfg, DML) == Verdict(true, false, "delete", [table], [], None)
  {
    RefusedTableNone(cfg, [table], ["delete"]);
  }

  // The policy lets public.t be emptied.
  predicate LetsDelete(cfg: ConnectionConfig) {
    cfg.SchemaAllowed("public") && cfg.DMLAllowed("public", "t", "delete")
  }

  lemma DeleteIsJudged(cfg: ConnectionConfig)
    requires LetsDelete(cfg)
    ensures Judge(DeleteTokenList(), cfg, DML) == Verdict(true, false, "delete", ["public.t"], [], None)
  {
    DeleteIsChecked();
    DeleteTables();
    PublicTable();
    DeleteVerdict(DeleteTokenList(), "public.t", cfg);
  }

  lemma DeleteIsLexed()
    ensures Lex(DELETION) == Ok(DeleteTokenList()) && Trim(DELETION) == DELETION && DELETION != ""
    ensures Split(DELETION) == [DELETION] && StripComments(DELETION) == Ok(DELETION)
    ensures SplitEnd(Code, DELETION) == Code && PlainText(DELETION)
  {
    DeleteTokens();
    SpacedIsPlain(DELETE);
    PlainStatement(DELETION);
    PlainEndsInCode(DELETION);
    LexSpaced(DELETE);
  }

  lemma {:induction false} PlainEndsInCode(s: string)
    requires PlainText(s)
    ensures SplitEnd(Code, s) == Code
  {
    if s != "" {
      PlainEndsInCode(s[1..]);
    }
  }

  lemma DeletionIsAccepted(cfg: ConnectionConfig)
    requires LetsDelete(cfg)
    ensures StatementAccepted(DELETION, cfg) && OperationOf(DELETION) == "delete"
  {
    DeleteIsLexed();
    DeleteIsChecked();
    OperationOfLexed(DELETION, DeleteTokenList());
    DeletionIsValid(cfg);
  }

  // A deletion is accepted for DML wherever the policy lets it be.
  lemma DeletionIsValid(cfg: ConnectionConfig)
    requires LetsDelete(cfg)
    ensures Validate(DELETION, cfg, DML) == Verdict(true, false, "delete", ["public.t"], [], None)
  {
    DeleteIsLexed();
    DeleteIsJudged(cfg);
  }

  const DELETIONS := DELETION + ";" + DELETION

  lemma DeletionsAreExecutable()
    ensures Executables(DELETIONS) == Ok([DELETION, DELETION])
  {
    var s := DELETION;
    DeleteIsLexed();
    SplitIsCompositional(s, s);
    TwiceTidy(s);
  }

  lemma TwiceTidy(s: string)
    requires Trim(s) == s != "" && StripComments(s) == Ok(s)
    ensures StripAll([s] + [s]) == Ok([s, s]) && Tidy([s, s]) == [s, s]
  {
    assert [s, s][1..] == [s] && [s][1..] == [] && [s] + [s] == [s, s] && [s] + [] == [s];
    assert StripAll([s]) == Ok([s]) && Tidy([s]) == [s];
  }

  // A script of two deletions is accepted, both as DML.
  lemma DeletionsAreAccepted(cfg: ConnectionConfig, max: int)
    requires LetsDelete(cfg) && 2 <= max
    ensures
      var answer := ScriptAnswer(DELETIONS, cfg, max);
      var statements := answer.validation.statements;
      && answer.error.None? && |statements| == 2 && statements[0].mode == DML && statements[1].mode == DML
  {
    DeletionsAreExecutable();
    DeletionIsAccepted(cfg);
    ScriptIsAccepted(DELETIONS, cfg, max);
    DeletionsAreDML(cfg);
  }

  lemma DeletionsAreDML(cfg: ConnectionConfig)
    requires StatementAccepted(DELETION, cfg) && OperationOf(DELETION) == "delete"
    ensures
      var js := JudgedAll([DELETION, DELETION], cfg);
      |js| == 2 && js[0].mode == DML && js[1].mode == DML
  {
  }
}
