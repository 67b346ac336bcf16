/** The guard is blind to the case of letters outside quotes. */
module CaseLaws {
  import opened Outcomes
  import opened Text
  import opened Scan
  import opened Lexer
  import opened LexLaws
  import opened Config
  import opened Guard

  // How many runes at the start of s are in one quoted lexeme; all of them, if
  // it is not closed.
  function Verbatim(s: string): (n: nat)
    requires s != ""
    ensures n <= |s|
  {
    if s[0] == '\'' then
      match LiteralLength(s[1..])
      case Endless => |s|
      case Extent(n) => 1 + n
    else if s[0] == '"' then
      match ReadQuoted(s[1..])
      case Unclosed => |s|
      case Quoted(_, n) => 1 + n
    else 0
  }

  // A text with its letters in lower case, quoted lexemes apart.
  function FoldCase(s: string): (r: string)
    ensures |r| == |s|
    decreases |s|
  {
    if s == "" then ""
    else
      var n := Verbatim(s);
      if n > 0 then s[..n] + FoldCase(s[n..]) else [Lower(s[0])] + FoldCase(s[1..])
  }

  function FoldToken(t: Token): Token {
    if t.kind == Identifier && !t.quoted then t.(text := ToLower(t.text)) else t
  }

  function FoldTokens(ts: seq<Token>): (r: seq<Token>)
    ensures |r| == |ts|
  {
    seq(|ts|, i requires 0 <= i < |ts| => FoldToken(ts[i]))
  }

  function FoldLexed(r: Lexed): Lexed {
    match r
    case Err(e) => Err(e)
    case Ok(ts) => Ok(FoldTokens(ts))
  }

  // ------------------------------------------------------------------ texts

  lemma {:induction false} FoldsRuneByRune(s: string)
    ensures EqualFold(FoldCase(s), s)
    decreases |s|
  {
    if s != "" {
      var n := if Verbatim(s) > 0 then Verbatim(s) else 1;
      FoldsRuneByRune(s[n..]);
      FoldedHead(s, FoldCase(s), n);
    }
  }

  lemma FoldedHead(s: string, t: string, n: nat)
    requires n <= |s| == |t| && EqualFold(t[n..], s[n..])
    requires t[..n] == s[..n] || t[..n] == ToLower(s[..n])
    ensures EqualFold(t, s)
  {
    forall i | 0 <= i < |s|
      ensures Lower(t[i]) == Lower(s[i])
    {
      if i < n {
        assert t[i] == t[..n][i] && s[i] == s[..n][i];
      } else {
        assert ToLower(t[n..])[i - n] == ToLower(s[n..])[i - n];
      }
    }
  }

  lemma SameClass(c: char, d: char)
    requires Lower(c) == Lower(d)
    ensures IsSpace(c) == IsSpace(d) && IsLetter(c) == IsLetter(d) && IsDigit(c) == IsDigit(d)
    ensures !IsLetter(c) ==> c == d
  {
  }

  lemma SameRune(s: string, t: string, i: nat)
    requires EqualFold(s, t) && i < |s|
    ensures |s| == |t| && Lower(s[i]) == Lower(t[i])
  {
    assert |ToLower(s)| == |ToLower(t)| && ToLower(s)[i] == ToLower(t)[i];
  }

  lemma SameRest(s: string, t: string, n: nat)
    requires EqualFold(s, t) && n <= |s|
    ensures |s| == |t| && EqualFold(s[n..], t[n..])
  {
    assert |ToLower(s)| == |ToLower(t)|;
    forall i | 0 <= i < |s| - n
      ensures Lower(s[n..][i]) == Lower(t[n..][i])
    {
      SameRune(s, t, n + i);
    }
  }

  lemma {:induction false} SameRun(k: Kind, s: string, t: string)
    requires EqualFold(s, t)
    ensures Run(k, s) == Run(k, t)
  {
    assert |ToLower(s)| == |ToLower(t)|;
    if s != "" {
      SameRune(s, t, 0);
      SameClass(s[0], t[0]);
      SameRest(s, t, 1);
      SameRun(k, s[1..], t[1..]);
    }
  }

  predicate Unquoted(s: string) {
    forall i | 0 <= i < |s| :: s[i] != '\'' && s[i] != '"'
  }

  lemma {:induction false} FoldPlain(x: string, y: string)
    requires Unquoted(x)
    ensures FoldCase(x + y) == ToLower(x) + FoldCase(y)
  {
    if x == "" {
      assert x + y == y;
    } else {
      CutAppend(x, 1, y);
      assert (x + y)[0] == x[0];
      FoldPlain(x[1..], y);
      assert ToLower(x) == [Lower(x[0])] + ToLower(x[1..]);
      Associate([Lower(x[0])], ToLower(x[1..]), FoldCase(y));
    }
  }

  lemma FoldedParts(s: string, n: nat)
    requires n <= |s| && Unquoted(s[..n])
    ensures FoldCase(s)[..n] == ToLower(s[..n]) && FoldCase(s)[n..] == FoldCase(s[n..])
  {
    FoldPlain(s[..n], s[n..]);
    assert s == s[..n] + s[n..];
  }

  // ---------------------------------------------------------------- lexemes

  // Folding the case of a text folds its first lexeme and the rest of it.
  predicate LexemeFolds(s: string)
    requires s != ""
  {
    var r, t := ReadLexeme(s), FoldCase(s);
    if r.Err? then ReadLexeme(t) == Err(r.error)
    else
      && ReadLexeme(t) == Ok(Lexeme(FoldToken(r.value.token), r.value.width))
      && t[r.value.width..] == FoldCase(s[r.value.width..])
  }

  lemma QuotedLexemeFolds(s: string)
    requires s != "" && (s[0] == '\'' || s[0] == '"')
    ensures LexemeFolds(s)
  {
    var r := ReadLexeme(s);
    if r.Ok? {
      var w := r.value.width;
      LexemeEnds(s);
      if w < |s| {
        FoldsRuneByRune(s[w..]);
        SameRune(FoldCase(s[w..]), s[w..], 0);
        SameClass(FoldCase(s[w..])[0], s[w..][0]);
      }
      LexemeStable(s, FoldCase(s[w..]));
    } else {
      assert s[..|s|] + "" == s;
    }
  }

  lemma PlainLexemeFolds(s: string)
    requires s != "" && s[0] != '\'' && s[0] != '"'
    ensures LexemeFolds(s)
  {
    var r, t := ReadLexeme(s), FoldCase(s);
    FoldsRuneByRune(s);
    if r.Ok? {
      PlainLexeme(s);
      FoldedParts(s, r.value.width);
      PlainReads(s, t);
    } else {
      assert s[0] == '$' && t[0] == '$';
      if |s| > 1 {
        SameRune(t, s, 1);
        SameClass(t[1], s[1]);
      }
    }
  }

  lemma PlainReads(s: string, t: string)
    requires s != "" && s[0] != '\'' && s[0] != '"' && ReadLexeme(s).Ok?
    requires |t| == |s| && EqualFold(t, s) && t[..ReadLexeme(s).value.width] == ToLower(s[..ReadLexeme(s).value.width])
    ensures ReadLexeme(t) == Ok(Lexeme(FoldToken(ReadLexeme(s).value.token), ReadLexeme(s).value.width))
  {
    var l := ReadLexeme(s).value;
    assert FoldToken(l.token) == Token(t[..l.width], false, l.token.kind) by {
      PlainLexeme(s);
    }
    if s[0] == '$' {
      RunReads(s, t, Symbol);
    } else if IsIdentifierStart(s[0]) {
      RunReads(s, t, Identifier);
    } else if IsDigit(s[0]) {
      RunReads(s, t, Number);
    } else {
      SameRune(t, s, 0);
      SameClass(t[0], s[0]);
    }
  }

  predicate StartsRun(k: Kind, s: string) {
    s != "" &&
    (|| (k == Identifier && IsIdentifierStart(s[0]))
     || (k == Number && IsDigit(s[0]) && !IsIdentifierStart(s[0]))
     || (k == Symbol && s[0] == '$' && |s| > 1 && IsDigit(s[1])))
  }

  lemma ReadRun(k: Kind, s: string)
    requires StartsRun(k, s)
    ensures
      var n := 1 + Run(k, s[1..]);
      ReadLexeme(s) == Ok(Lexeme(Token(s[..n], false, k), n))
  {
    assert s[0..] == s;
    ReadRunAt(s, 0, k);
  }

  lemma RunReads(s: string, t: string, k: Kind)
    requires EqualFold(t, s) && StartsRun(k, s)
    ensures
      var n := 1 + Run(k, s[1..]);
      && |t| == |s|
      && ReadLexeme(s) == Ok(Lexeme(Token(s[..n], false, k), n))
      && ReadLexeme(t) == Ok(Lexeme(Token(t[..n], false, k), n))
  {
    assert |ToLower(t)| == |ToLower(s)|;
    SameRune(t, s, 0);
    SameClass(t[0], s[0]);
    if |s| > 1 {
      SameRune(t, s, 1);
      SameClass(t[1], s[1]);
    }
    SameRest(t, s, 1);
    SameRun(k, t[1..], s[1..]);
    ReadRun(k, s);
    ReadRun(k, t);
  }

  lemma PlainLexeme(s: string)
    requires s != "" && s[0] != '\'' && s[0] != '"' && ReadLexeme(s).Ok?
    ensures
      var l := ReadLexeme(s).value;
      && Unquoted(s[..l.width])
      && l.token == Token(s[..l.width], false, l.token.kind)
      && (l.token.kind != Identifier ==> ToLower(s[..l.width]) == s[..l.width])
  {
    var l := ReadLexeme(s).value;
    forall i | 0 < i < l.width
      ensures s[i] != '\'' && s[i] != '"'
      ensures l.token.kind != Identifier ==> Lower(s[i]) == s[i]
    {
      assert s[i] == s[1..][i - 1];
      assert Continues(l.token.kind, s[i]);
    }
  }

  lemma CommentFolds(s: string)
    ensures OpensComment(FoldCase(s)) == OpensComment(s)
  {
    FoldsRuneByRune(s);
    if |s| > 1 {
      SameRune(FoldCase(s), s, 0);
      SameRune(FoldCase(s), s, 1);
    }
  }

  // Tokenizing a text in folded case gives its tokens in folded case.
  lemma {:induction false} LexFolds(s: string)
    ensures Lex(FoldCase(s)) == FoldLexed(Lex(s))
    decreases |s|
  {
    if s != "" {
      FoldsRuneByRune(s);
      SameRune(FoldCase(s), s, 0);
      SameClass(FoldCase(s)[0], s[0]);
      CommentFolds(s);
      if IsSpace(s[0]) {
        LexFolds(s[1..]);
        assert FoldCase(s)[1..] == FoldCase(s[1..]);
      } else if !OpensComment(s) {
        LexemeOfFolds(s);
        var r := ReadLexeme(s);
        if r.Ok? {
          LexFolds(s[r.value.width..]);
          FoldPrepend(r.value.token, Lex(s[r.value.width..]));
        }
      }
    }
  }

  lemma LexemeOfFolds(s: string)
    requires s != ""
    ensures LexemeFolds(s)
  {
    if s[0] == '\'' || s[0] == '"' {
      QuotedLexemeFolds(s);
    } else {
      PlainLexemeFolds(s);
    }
  }

  lemma FoldPrepend(t: Token, r: Lexed)
    ensures FoldLexed(Prepend([t], r)) == Prepend([FoldToken(t)], FoldLexed(r))
  {
    if r.Ok? {
      assert FoldTokens([t] + r.value) == [FoldToken(t)] + FoldTokens(r.value);
    }
  }

  // ----------------------------------------------------------------- tokens

  // The same token but for the case of an unquoted word.
  predicate AlikeToken(t: Token, u: Token) {
    && t.kind == u.kind && t.quoted == u.quoted
    && (t.text == u.text || (t.kind == Identifier && !t.quoted && EqualFold(t.text, u.text)))
  }

  predicate Alike(ts: seq<Token>, us: seq<Token>) {
    |ts| == |us| && forall i | 0 <= i < |ts| :: AlikeToken(ts[i], us[i])
  }

  lemma FoldedAlike(ts: seq<Token>)
    ensures Alike(ts, FoldTokens(ts))
  {
    forall t: Token
      ensures AlikeToken(t, FoldToken(t))
    {
      assert ToLower(ToLower(t.text)) == ToLower(t.text);
    }
  }

  // One rune that is no small letter: such texts are compared without folding.
  predicate Punctuation(p: string) {
    |p| == 1 && !('a' <= p[0] <= 'z') && !('A' <= p[0] <= 'Z')
  }

  lemma SameText(t: Token, u: Token, p: string)
    requires AlikeToken(t, u) && Punctuation(p)
    ensures t.text == p <==> u.text == p
  {
    if EqualFold(t.text, u.text) && |t.text| == 1 {
      SameRune(t.text, u.text, 0);
    }
    assert |ToLower(t.text)| == |t.text| && |ToLower(u.text)| == |u.text|;
  }

  // What the guard asks of a token it asks alike of both.
  ghost predicate SameAnswers(ts: seq<Token>, us: seq<Token>) {
    && Alike(ts, us)
    && (forall i: int, v: string :: KeywordAt(ts, i, v) == KeywordAt(us, i, v))
    && (forall i: int, p: string :: Punctuation(p) ==> TextAt(ts, i, p) == TextAt(us, i, p))
    && (forall i: int :: NameAt(ts, i) == NameAt(us, i))
    && (forall i | 0 <= i < |ts| && NameAt(ts, i) :: IdentifierValue(ts[i]) == IdentifierValue(us[i]))
  }

  lemma AlikeAnswers(ts: seq<Token>, us: seq<Token>)
    requires Alike(ts, us)
    ensures SameAnswers(ts, us)
  {
    forall i: int, v: string
      ensures KeywordAt(ts, i, v) == KeywordAt(us, i, v)
    {
      assert 0 <= i < |ts| ==> AlikeToken(ts[i], us[i]);
    }
    forall i: int, p: string | Punctuation(p)
      ensures TextAt(ts, i, p) == TextAt(us, i, p)
    {
      if 0 <= i < |ts| {
        SameText(ts[i], us[i], p);
      }
    }
    forall i | 0 <= i < |ts|
      ensures NameAt(ts, i) == NameAt(us, i)
      ensures NameAt(ts, i) ==> IdentifierValue(ts[i]) == IdentifierValue(us[i])
    {
      assert AlikeToken(ts[i], us[i]);
    }
  }

  lemma SameSequences(ts: seq<Token>, us: seq<Token>, values: seq<string>)
    requires SameAnswers(ts, us)
    ensures ContainsSequence(ts, values) == ContainsSequence(us, values)
  {
    forall i: nat
      ensures SequenceAt(ts, i, values) == SequenceAt(us, i, values)
    {
    }
  }

  lemma {:induction false} SameBadToken(ts: seq<Token>, us: seq<Token>, i: nat)
    requires SameAnswers(ts, us) && i <= |ts|
    ensures BadToken(ts, i) == BadToken(us, i)
    decreases |ts| - i
  {
    if i < |ts| {
      assert AlikeToken(ts[i], us[i]);
      SameText(ts[i], us[i], ";");
      AlikeAnswers(ts[..i], us[..i]);
      SameSequences(ts[..i], us[..i], ["on", "conflict"]);
      SameBadToken(ts, us, i + 1);
    }
  }

  lemma SameCheck(ts: seq<Token>, us: seq<Token>)
    requires SameAnswers(ts, us)
    ensures Operation(ts) == Operation(us)
    ensures CheckTokens(ts) == CheckTokens(us)
  {
    SameBadToken(ts, us, 0);
    SameSequences(ts, us, ["for", "update"]);
    SameSequences(ts, us, ["for", "no", "key", "update"]);
    SameSequences(ts, us, ["for", "share"]);
    SameSequences(ts, us, ["for", "key", "share"]);
    assert ts != [] ==> AlikeToken(ts[0], us[0]);
  }

  lemma SameFunctionSchemas(ts: seq<Token>, us: seq<Token>, cfg: ConnectionConfig)
    requires SameAnswers(ts, us)
    ensures FunctionSchemasAllowed(ts, cfg) == FunctionSchemasAllowed(us, cfg)
  {
    forall i | 0 <= i < |ts|
      ensures QualifiedCallAt(ts, i) == QualifiedCallAt(us, i)
    {
    }
  }

  lemma SameRelationAt(ts: seq<Token>, us: seq<Token>, start: nat, parentheses: bool)
    requires SameAnswers(ts, us)
    ensures RelationAt(ts, start, parentheses) == RelationAt(us, start, parentheses)
  {
  }

  lemma {:induction false} SameList(ts: seq<Token>, us: seq<Token>, i: nat)
    requires SameAnswers(ts, us)
    ensures ListFollows(ts, i) == ListFollows(us, i)
    decreases |ts| - i
  {
    if i < |ts| {
      assert AlikeToken(ts[i], us[i]);
      SameText(ts[i], us[i], ",");
      SameText(ts[i], us[i], "(");
      SameList(ts, us, i + 1);
    }
  }

  lemma {:induction false} SameReferences(ts: seq<Token>, us: seq<Token>, op: string, i: nat)
    requires SameAnswers(ts, us)
    ensures References(ts, op, i) == References(us, op, i)
    decreases |ts| - i
  {
    if i < |ts| {
      assert ReadsRelation(ts, op, i) == ReadsRelation(us, op, i);
      if ReadsRelation(ts, op, i) {
        SameRelationAt(ts, us, RelationStart(ts, i), ParenthesesAllowed(ts, i));
        assert RelationStart(ts, i) == RelationStart(us, i) && ParenthesesAllowed(ts, i) == ParenthesesAllowed(us, i);
        var r := RelationAt(ts, RelationStart(ts, i), ParenthesesAllowed(ts, i));
        if r.Ok? {
          SameList(ts, us, r.value.next);
          SameReferences(ts, us, op, r.value.next);
        }
      } else {
        SameReferences(ts, us, op, i + 1);
      }
    }
  }

  lemma {:induction false} SameDeleteTarget(ts: seq<Token>, us: seq<Token>, i: nat)
    requires SameAnswers(ts, us)
    ensures DeleteTarget(ts, i) == DeleteTarget(us, i)
    decreases |ts| - i
  {
    if i + 1 < |ts| {
      SameDeleteTarget(ts, us, i + 1);
    }
  }

  lemma SameTableRefs(ts: seq<Token>, us: seq<Token>, op: string)
    requires SameAnswers(ts, us)
    ensures TableRefs(ts, op) == TableRefs(us, op)
  {
    SameReferences(ts, us, op, 0);
    var refs := References(ts, op, 0);
    if refs.Ok? {
      SameWithDelete(ts, us, op, AppendUnique([], Tables(refs.value)));
    }
  }

  lemma SameWithDelete(ts: seq<Token>, us: seq<Token>, op: string, tables: seq<string>)
    requires SameAnswers(ts, us)
    ensures WithDeleteTarget(ts, op, tables) == WithDeleteTarget(us, op, tables)
  {
    if op == "delete" {
      SameDeleteTarget(ts, us, 0);
      var target := DeleteTarget(ts, 0);
      if target.Some? {
        SameRelationAt(ts, us, target.value + 2, false);
      }
    }
  }

  lemma {:induction false} SameFind(ts: seq<Token>, us: seq<Token>, i: nat, value: string)
    requires SameAnswers(ts, us)
    ensures FindKeyword(ts, i, value) == FindKeyword(us, i, value)
    decreases |ts| - i
  {
    if i < |ts| {
      SameFind(ts, us, i + 1, value);
    }
  }

  lemma SameCreate(ts: seq<Token>, us: seq<Token>)
    requires SameAnswers(ts, us)
    ensures ParseCreate(ts) == ParseCreate(us)
  {
    if KeywordAt(ts, 1, "table") {
      SameSkip(ts, us, 2);
      SameRelationAt(ts, us, SkipIfNotExists(ts, 2), true);
    } else {
      var i := if KeywordAt(ts, 1, "unique") then 2 else 1;
      SameSkip(ts, us, i + 1);
      SameIndex(ts, us, SkipIfNotExists(ts, i + 1));
    }
  }

  lemma SameSkip(ts: seq<Token>, us: seq<Token>, i: nat)
    requires SameAnswers(ts, us)
    ensures SkipIfNotExists(ts, i) == SkipIfNotExists(us, i) && SkipIfExists(ts, i) == SkipIfExists(us, i)
  {
  }

  lemma SameIndex(ts: seq<Token>, us: seq<Token>, i: nat)
    requires SameAnswers(ts, us)
    ensures ParseIndex(ts, i) == ParseIndex(us, i)
  {
    SameRelationAt(ts, us, i, false);
    SameIndexTarget(ts, us, i, "");
    var r := RelationAt(ts, i, false);
    if r.Ok? {
      SameFind(ts, us, r.value.next, "on");
      SameIndexTarget(ts, us, FindKeyword(ts, r.value.next, "on"), r.value.Table());
    }
  }

  lemma SameIndexTarget(ts: seq<Token>, us: seq<Token>, on: nat, index: string)
    requires SameAnswers(ts, us)
    ensures IndexTarget(ts, on, index) == IndexTarget(us, on, index)
  {
    SameRelationAt(ts, us, if KeywordAt(ts, on + 1, "only") then on + 2 else on + 1, true);
  }

  lemma SameAlter(ts: seq<Token>, us: seq<Token>)
    requires SameAnswers(ts, us)
    ensures ParseAlter(ts) == ParseAlter(us)
  {
    var i := SkipIfExists(ts, 2);
    SameSkip(ts, us, 2);
    SameRelationAt(ts, us, if KeywordAt(ts, i, "only") then i + 1 else i, false);
    forall k: nat
      ensures ForbiddenInAlter(ts, k) == ForbiddenInAlter(us, k)
    {
      SameForbidden(ts, us, k);
    }
  }

  lemma SameForbidden(ts: seq<Token>, us: seq<Token>, k: nat)
    requires SameAnswers(ts, us)
    ensures ForbiddenInAlter(ts, k) == ForbiddenInAlter(us, k)
  {
    assert ReferentialAction(ts, k) == ReferentialAction(us, k);
  }

  lemma SameDropOrTruncate(ts: seq<Token>, us: seq<Token>)
    requires SameAnswers(ts, us)
    ensures ParseDrop(ts) == ParseDrop(us)
    ensures ParseTruncate(ts) == ParseTruncate(us)
  {
    SameSkip(ts, us, 2);
    SameOneTable(ts, us, SkipIfExists(ts, 2));
    SameOneTable(ts, us, if KeywordAt(ts, 1, "table") then 2 else 1);
  }

  lemma SameOneTable(ts: seq<Token>, us: seq<Token>, i: nat)
    requires SameAnswers(ts, us)
    ensures OneTableOnly(ts, RelationAt(ts, i, false)) == OneTableOnly(us, RelationAt(us, i, false))
  {
    SameRelationAt(ts, us, i, false);
  }

  lemma SameObjects(ts: seq<Token>, us: seq<Token>)
    requires SameAnswers(ts, us)
    ensures DDLObjects(ts) == DDLObjects(us)
  {
    var op := Operation(ts);
    SameCheck(ts, us);
    SameCascade(ts, us, op);
    if op == "create" {
      SameCreate(ts, us);
    } else if op == "alter" {
      SameAlter(ts, us);
    } else {
      SameDropOrTruncate(ts, us);
    }
  }

  lemma SameCascade(ts: seq<Token>, us: seq<Token>, op: string)
    requires SameAnswers(ts, us)
    ensures CascadesUnsafely(ts, op) == CascadesUnsafely(us, op)
  {
  }

  lemma SameJudgement(ts: seq<Token>, us: seq<Token>, cfg: ConnectionConfig, mode: Mode)
    requires Alike(ts, us)
    ensures Judge(ts, cfg, mode) == Judge(us, cfg, mode)
  {
    AlikeAnswers(ts, us);
    SameCheck(ts, us);
    SameFunctionSchemas(ts, us, cfg);
    SameTableRefs(ts, us, Operation(ts));
    if mode == DDL {
      SameObjects(ts, us);
    } else {
      SameQuery(ts, us, cfg, mode);
    }
  }

  lemma SameQuery(ts: seq<Token>, us: seq<Token>, cfg: ConnectionConfig, mode: Mode)
    requires SameAnswers(ts, us)
    requires Operation(ts) == Operation(us) && TableRefs(ts, Operation(ts)) == TableRefs(us, Operation(ts))
    ensures JudgeQuery(ts, cfg, mode) == JudgeQuery(us, cfg, mode)
  {
    SameSequences(ts, us, ["do", "update"]);
    assert ContainsKeyword(ts, "limit") == ContainsKeyword(us, "limit");
  }

  // ------------------------------------------------------------- statements

  lemma FoldKeepsBlanks(s: string)
    requires Blank(s)
    ensures Unquoted(s) && ToLower(s) == s && FoldCase(s) == s
  {
    FoldPlain(s, "");
    assert s + "" == s && ToLower(s) + "" == ToLower(s);
  }

  // A quoted lexeme that is closed ends where it did when blanks follow.
  lemma VerbatimBefore(x: string, y: string)
    requires x != "" && Blank(y) && Verbatim(x) > 0
    ensures (x + y)[0] == x[0]
    ensures Verbatim(x + y) == if ReadLexeme(x).Ok? then Verbatim(x) else |x + y|
  {
    var r := ReadLexeme(x);
    assert (x + y)[1..] == x[1..] + y;
    if r.Ok? {
      var w := r.value.width;
      LexemeEnds(x);
      CutAppend(x, w, y);
      LexemeStable(x, x[w..] + y);
    } else if x[0] == '\'' {
      OpenLiteralStaysOpen(x[1..], y);
    } else {
      OpenNameStaysOpen(x[1..], y);
    }
  }

  lemma {:induction false} FoldBlankTail(x: string, y: string)
    requires Blank(y)
    ensures FoldCase(x + y) == FoldCase(x) + y
    decreases |x|
  {
    if x == "" {
      FoldKeepsBlanks(y);
      assert x + y == y && "" + y == y;
    } else if Verbatim(x) == 0 {
      FoldBlankTail(x[1..], y);
      assert (x + y)[0] == x[0];
      CutAppend(x, 1, y);
      Associate([Lower(x[0])], FoldCase(x[1..]), y);
    } else {
      var n := Verbatim(x);
      VerbatimBefore(x, y);
      if ReadLexeme(x).Ok? {
        FoldBlankTail(x[n..], y);
        CutAppend(x, n, y);
        assert (x + y)[..n] == x[..n];
        Associate(x[..n], FoldCase(x[n..]), y);
      } else {
        assert (x + y)[..|x + y|] + "" == x + y && x[..|x|] + "" == x;
      }
    }
  }

  lemma FoldTrim(s: string)
    ensures Trim(FoldCase(s)) == FoldCase(Trim(s))
  {
    var lead, trail := TrimParts(s);
    var core := Trim(s);
    Associate(lead, core, trail);
    FoldKeepsBlanks(lead);
    FoldPlain(lead, core + trail);
    FoldBlankTail(core, trail);
    Associate(lead, FoldCase(core), trail);
    FoldsRuneByRune(core);
    if core != "" {
      SameRune(FoldCase(core), core, 0);
      SameClass(FoldCase(core)[0], core[0]);
      SameRune(FoldCase(core), core, |core| - 1);
      SameClass(FoldCase(core)[|core| - 1], core[|core| - 1]);
    }
    TrimUnique(lead, FoldCase(core), trail);
  }

  lemma SameBlank(x: string, y: string)
    requires EqualFold(x, y)
    ensures Trim(x) == "" <==> Trim(y) == ""
  {
    BlankIsTrimmed(x);
    BlankIsTrimmed(y);
    assert |ToLower(x)| == |ToLower(y)|;
    forall i | 0 <= i < |x|
      ensures IsSpace(x[i]) == IsSpace(y[i])
    {
      SameRune(x, y, i);
      SameClass(x[i], y[i]);
    }
  }

  lemma SameSplitMove(st: State, x: string, y: string)
    requires x != "" && EqualFold(x, y)
    ensures |x| == |y| && SplitMove(st, x) == SplitMove(st, y) && Cuts(st, x) == Cuts(st, y)
  {
    SameRune(x, y, 0);
    if |x| > 1 {
      SameRune(x, y, 1);
    }
  }

  lemma SameFirst(x: string, y: string, n: nat)
    requires EqualFold(x, y) && n <= |x|
    ensures |x| == |y| && EqualFold(x[..n], y[..n])
  {
    assert |ToLower(x)| == |ToLower(y)|;
    forall i | 0 <= i < n
      ensures Lower(x[..n][i]) == Lower(y[..n][i])
    {
      SameRune(x, y, i);
    }
  }

  lemma FoldConcat(x: string, y: string, x': string, y': string)
    requires EqualFold(x, x') && EqualFold(y, y')
    ensures EqualFold(x + y, x' + y')
  {
    assert ToLower(x + y) == ToLower(x) + ToLower(y);
    assert ToLower(x' + y') == ToLower(x') + ToLower(y');
  }

  predicate SamePieces(ps: seq<string>, qs: seq<string>) {
    |ps| == |qs| && forall k | 0 <= k < |ps| :: EqualFold(ps[k], qs[k])
  }

  lemma {:induction false} SameSplit(st: State, x: string, y: string)
    requires EqualFold(x, y)
    ensures SamePieces(RawSplit(st, x), RawSplit(st, y))
    decreases |x|
  {
    assert |ToLower(x)| == |ToLower(y)|;
    if x != "" {
      SameSplitMove(st, x, y);
      var m := SplitMove(st, x);
      SameFirst(x, y, m.width);
      SameRest(x, y, m.width);
      SameSplit(if Cuts(st, x) then Code else m.next, x[m.width..], y[m.width..]);
      if !Cuts(st, x) {
        PushSame(x[..m.width], y[..m.width], RawSplit(m.next, x[m.width..]), RawSplit(m.next, y[m.width..]));
      }
    }
  }

  lemma PushSame(x: string, y: string, ps: seq<string>, qs: seq<string>)
    requires EqualFold(x, y) && SamePieces(ps, qs) && ps != []
    ensures SamePieces(Push(x, ps), Push(y, qs))
  {
    FoldConcat(x, ps[0], y, qs[0]);
    assert forall k | 0 < k < |ps| :: Push(x, ps)[k] == ps[k] && Push(y, qs)[k] == qs[k];
  }

  lemma {:induction false} SameTidy(ps: seq<string>, qs: seq<string>)
    requires SamePieces(ps, qs)
    ensures |Tidy(ps)| == |Tidy(qs)|
  {
    if ps != [] {
      SameBlank(ps[0], qs[0]);
      SameTidy(ps[1..], qs[1..]);
    }
  }

  lemma FoldedVerdict(sql: string, cfg: ConnectionConfig, mode: Mode)
    ensures Validate(FoldCase(sql), cfg, mode) == Validate(sql, cfg, mode)
  {
    var s := Trim(sql);
    FoldTrim(sql);
    FoldsRuneByRune(s);
    SameSplit(Code, FoldCase(s), s);
    SameTidy(RawSplit(Code, FoldCase(s)), RawSplit(Code, s));
    LexFolds(s);
    if Lex(s).Ok? {
      var ts := Lex(s).value;
      FoldedAlike(ts);
      SameJudgement(ts, FoldTokens(ts), cfg, mode);
    }
  }

  // Two statements that differ only in the case of letters outside quotes get
  // the same verdict in every part: validity, operation, tables and warnings.
  lemma CaseIsInvisible(a: string, b: string, cfg: ConnectionConfig, mode: Mode)
    requires FoldCase(a) == FoldCase(b)
    ensures Validate(a, cfg, mode) == Validate(b, cfg, mode)
  {
    FoldedVerdict(a, cfg, mode);
    FoldedVerdict(b, cfg, mode);
  }
}
