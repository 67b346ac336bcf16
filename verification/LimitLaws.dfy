/** The row-limited query that is run is the validated query in a wrapper. */
module LimitLaws {
  import opened Outcomes
  import opened Text
  import opened Scan
  import opened Lexer
  import opened LexLaws
  import opened Config
  import opened Guard
  import opened GuardLaws

  function Word(s: string): Token { Token(s, false, Identifier) }
  function Sign(s: string): Token { Token(s, false, Symbol) }

  // A text that cannot be tokenized cannot be after a semicolon either.
  lemma {:induction false} LexFailsOn(s: string)
    requires Lex(s).Err?
    ensures Lex(s + ";").Err?
    decreases |s|
  {
    var t := s + ";";
    assert t[0] == s[0] && t[1..] == s[1..] + ";";
    if IsSpace(s[0]) {
      LexFailsOn(s[1..]);
    } else if OpensComment(s) {
      assert t[1] == s[1];
    } else {
      assert |s| > 1 ==> t[1] == s[1];
      assert !OpensComment(t);
      match ReadLexeme(s)
      case Err(e) =>
        if s[0] == '\'' {
          OpenLiteralStaysOpen(s[1..], ";");
        } else if s[0] == '"' {
          OpenNameStaysOpen(s[1..], ";");
        }
      case Ok(l) =>
        var rest := s[l.width..];
        LexemeEnds(s);
        LexStep(s, rest + ";");
        assert t == s[..l.width] + (rest + ";");
        LexFailsOn(rest);
    }
  }

  // The query without its semicolons at the end.
  function Body(sql: string): string {
    TrimSemicolons(Trim(sql))
  }

  // A text of tokens among which a semicolon stands at most at the end ends in
  // at most one semicolon.
  lemma TrimmedSemicolon(s: string)
    requires Lex(s).Ok? && BadToken(Lex(s).value, 0).None?
    ensures Lex(TrimSemicolons(s)).Ok?
    ensures
      var ts := Lex(TrimSemicolons(s)).value;
      Lex(s).value == if s != "" && s[|s| - 1] == ';' then ts + [SEMICOLON] else ts
  {
    if s != "" && s[|s| - 1] == ';' {
      LexBeforeSemicolon(s);
      OneSemicolon(s[..|s| - 1], Lex(s).value);
    }
  }

  lemma OneSemicolon(b: string, ts: seq<Token>)
    requires Lex(b).Ok? && ts == Lex(b).value + [SEMICOLON] && BadToken(ts, 0).None?
    ensures TrimSemicolons(b) == b
  {
    if b != "" && b[|b| - 1] == ';' {
      LexBeforeSemicolon(b);
      OnlyLastSemicolon(ts, 0, |ts| - 2);
    }
  }

  lemma LexBeforeSemicolon(s: string)
    requires Lex(s).Ok? && s != "" && s[|s| - 1] == ';'
    ensures
      var b := s[..|s| - 1];
      Lex(b).Ok? && Lex(s).value == Lex(b).value + [SEMICOLON]
  {
    var b := s[..|s| - 1];
    assert s == b + ";";
    if Lex(b).Err? {
      LexFailsOn(b);
    }
    LexConcat(b, ";");
    LexSemicolon("");
    assert ";" + "" == ";";
    assert [SEMICOLON] + [] == [SEMICOLON];
  }

  lemma {:induction false} OnlyLastSemicolon(ts: seq<Token>, i: nat, k: nat)
    requires i <= k < |ts| - 1 && BadToken(ts, i).None?
    ensures ts[k] != SEMICOLON
    decreases k - i
  {
    if i < k {
      OnlyLastSemicolon(ts, i + 1, k);
    }
  }

  // ------------------------------------------------------------ the wrapper

  // The wrapper is made of words, single signs and a number, with spaces between.
  predicate IsWord(s: string) {
    s != "" && forall i | 0 <= i < |s| :: s[i] == '_' || 'a' <= s[i] <= 'z'
  }

  predicate IsSign(s: string) {
    |s| == 1 && (s[0] == '(' || s[0] == '*' || s[0] == ')' || s[0] == ',' || s[0] == '.')
  }

  predicate IsNumeral(s: string) {
    s != "" && forall i | 0 <= i < |s| :: '0' <= s[i] <= '9'
  }

  function ItemToken(s: string): Token {
    Token(s, false, if IsSign(s) then Symbol else if IsNumeral(s) then Number else Identifier)
  }

  function Spaced(items: seq<string>): string
    requires items != []
  {
    if |items| == 1 then items[0] else items[0] + (" " + Spaced(items[1..]))
  }

  function ItemTokens(items: seq<string>): seq<Token> {
    if items == [] then [] else [ItemToken(items[0])] + ItemTokens(items[1..])
  }

  lemma {:induction false} RunOverAll(k: Kind, s: string, y: string)
    requires forall i | 0 <= i < |s| :: Continues(k, s[i])
    requires y == "" || !Continues(k, y[0])
    ensures Run(k, s + y) == |s|
  {
    if s == "" {
      assert s + y == y;
    } else {
      assert (s + y)[1..] == s[1..] + y;
      RunOverAll(k, s[1..], y);
    }
  }

  lemma ItemStart(w: string)
    requires IsWord(w) || IsSign(w) || IsNumeral(w)
    ensures !IsSpace(w[0]) && w[0] != '-' && w[0] != '/'
  {
    var c := w[0];
    assert c == '_' || 'a' <= c <= 'z' || '0' <= c <= '9' || '(' <= c <= '*' || c == ',' || c == '.';
  }

  lemma ReadItem(w: string, y: string)
    requires IsWord(w) || IsSign(w) || IsNumeral(w)
    requires Breaks(y) || w == "("
    ensures !OpensComment(w + y) && !IsSpace(w[0])
    ensures ReadLexeme(w + y) == Ok(Lexeme(ItemToken(w), |w|))
  {
    var t := w + y;
    assert t[0] == w[0] && t[1..] == w[1..] + y;
    ItemStart(w);
    if !IsSign(w) {
      RunOverAll(if IsWord(w) then Identifier else Number, w[1..], y);
    }
    assert t[..|w|] == w;
  }

  lemma LexItem(w: string, y: string)
    requires IsWord(w) || IsSign(w) || IsNumeral(w)
    requires Breaks(y) || w == "("
    ensures Lex(w + y) == Prepend([ItemToken(w)], Lex(y))
  {
    var t := w + y;
    assert t[..|w|] == w && t[|w|..] == y;
    ReadItem(w, y);
  }

  lemma LexSpace(y: string)
    ensures Lex(" " + y) == Lex(y)
  {
    assert (" " + y)[1..] == y;
  }

  lemma {:induction false} LexSpaced(items: seq<string>)
    requires items != [] && forall w | w in items :: IsWord(w) || IsSign(w) || IsNumeral(w)
    ensures Lex(Spaced(items)) == Ok(ItemTokens(items))
  {
    if |items| == 1 {
      LexItem(items[0], "");
      assert items[0] + "" == items[0];
    } else {
      LexSpaced(items[1..]);
      LexSpace(Spaced(items[1..]));
      LexItem(items[0], " " + Spaced(items[1..]));
    }
  }

  lemma {:induction false} ItoaDigits(n: nat)
    ensures IsNumeral(Itoa(n))
  {
    if n >= 10 {
      ItoaDigits(n / 10);
    }
  }

  // The number that a text of decimal digits stands for.
  function Atoi(s: string): int {
    if s == "" then 0 else 10 * Atoi(s[..|s| - 1]) + (s[|s| - 1] as int - '0' as int)
  }

  lemma {:induction false} ItoaAtoi(n: nat)
    ensures Atoi(Itoa(n)) == n
  {
    if n >= 10 {
      ItoaAtoi(n / 10);
      var d := [('0' as int + n % 10) as char];
      assert (Itoa(n / 10) + d)[..|Itoa(n / 10) + d| - 1] == Itoa(n / 10);
    }
  }

  // The wrapper's words before its parenthesis, and those after the query.
  function Before(): seq<string> {
    ["select", "*", "from"]
  }

  function After(limit: string): seq<string> {
    [")", "as", "mcp_limited_rows", "limit", limit]
  }

  lemma BeforeItems()
    ensures Spaced(Before()) + " (" == "select * from ("
    ensures forall w | w in Before() :: IsWord(w) || IsSign(w)
  {
    assert Before()[1..] == ["*", "from"];
    assert ["*", "from"][1..] == ["from"];
    assert Spaced(["*", "from"]) == "* from";
  }

  lemma AfterItems(limit: string)
    requires IsNumeral(limit)
    ensures forall w | w in After(limit) :: IsWord(w) || IsSign(w) || IsNumeral(w)
  {
  }

  lemma AfterText(limit: string)
    ensures Spaced(After(limit)) == ") as " + "mcp_limited_rows" + " limit " + limit
  {
    var a, b, c := After(limit)[1..], After(limit)[2..], After(limit)[3..];
    assert a[1..] == b && b[1..] == c && c[1..] == [limit];
    assert Spaced(c) == "limit" + (" " + limit);
    assert Spaced(b) == b[0] + (" " + Spaced(c));
    assert Spaced(a) == a[0] + (" " + Spaced(b));
    AfterGroups("mcp_limited_rows", limit);
  }

  lemma AfterGroups(name: string, limit: string)
    ensures ")" + (" " + ("as" + (" " + (name + (" " + ("limit" + (" " + limit)))))))
      == ") as " + name + " limit " + limit
  {
    assert " limit " == " " + "limit" + " " && ") as " == ")" + " " + "as" + " ";
    Regrouped(" ", "limit", " ", limit);
    var rest := name + (" limit " + limit);
    Regrouped(")", " ", "as", " " + rest);
    assert ")" + " " + "as" + (" " + rest) == ") as " + rest;
    Regrouped(") as ", name, " limit ", limit);
  }

  // A parenthesis is a token by itself, whatever it opens.
  lemma LexParenthesis(y: string)
    ensures Lex(" (" + y) == Prepend([Sign("(")], Lex(y))
  {
    LexItem("(", y);
    LexSpace("(" + y);
    assert " (" + y == " " + ("(" + y);
  }

  lemma LexOpening(x: string, ts: seq<Token>, y: string)
    requires Lex(x) == Ok(ts) && Lex(y).Ok?
    ensures Lex(x + " (" + y) == Ok(ts + [Sign("(")] + Lex(y).value)
  {
    LexParenthesis(y);
    LexConcat(x, " (" + y);
    Associate(x, " (", y);
    Associate(ts, [Sign("(")], Lex(y).value);
  }

  lemma LexWrapper(body: string, limit: string)
    requires Lex(body).Ok? && IsNumeral(limit)
    ensures Lex(Spaced(Before()) + " (" + (body + Spaced(After(limit))))
      == Ok(ItemTokens(Before()) + [Sign("(")] + Lex(body).value + ItemTokens(After(limit)))
  {
    AfterItems(limit);
    LexSpaced(After(limit));
    LexConcat(body, Spaced(After(limit)));
    BeforeItems();
    LexSpaced(Before());
    LexOpening(Spaced(Before()), ItemTokens(Before()), body + Spaced(After(limit)));
    var open, bs, after := ItemTokens(Before()) + [Sign("(")], Lex(body).value, ItemTokens(After(limit));
    Associate(open, bs, after);
  }

  // What was validated is what is wrapped: the query that is run has the tokens
  // of the wrapper around exactly the validated tokens, less a semicolon at the
  // end, and its last token is the limit.
  lemma WrappedTokens(sql: string, cfg: ConnectionConfig, mode: Mode, maxRows: int)
    requires Validate(sql, cfg, mode).valid
    ensures
      var s, ts := Trim(sql), TokensOf(sql);
      var limit := if maxRows <= 0 then 1 else maxRows;
      var body := if s[|s| - 1] == ';' then ts[..|ts| - 1] else ts;
      && (s[|s| - 1] == ';' ==> ts[|ts| - 1] == SEMICOLON)
      && Lex(ApplySelectLimit(sql, maxRows))
         == Ok(ItemTokens(Before()) + [Sign("(")] + body + ItemTokens(After(Itoa(limit))))
      && Atoi(Itoa(limit)) == limit
  {
    var limit := if maxRows <= 0 then 1 else maxRows;
    AcceptedIsJudged(sql, cfg, mode);
    assert BadToken(TokensOf(sql), 0).None?;
    TrimmedSemicolon(Trim(sql));
    var s, ts, bs := Trim(sql), TokensOf(sql), Lex(Body(sql)).value;
    WithoutLast(bs, SEMICOLON);
    assert bs == if s[|s| - 1] == ';' then ts[..|ts| - 1] else ts;
    WrappedBody(sql, maxRows);
    ItoaAtoi(limit);
  }

  lemma WrappedBody(sql: string, maxRows: int)
    requires Lex(Body(sql)).Ok?
    ensures
      Lex(ApplySelectLimit(sql, maxRows))
      == Ok(ItemTokens(Before()) + [Sign("(")] + Lex(Body(sql)).value
            + ItemTokens(After(Itoa(if maxRows <= 0 then 1 else maxRows))))
  {
    var limit := if maxRows <= 0 then 1 else maxRows;
    ItoaDigits(limit);
    BeforeItems();
    AfterText(Itoa(limit));
    Associate("select * from (", Body(sql), LimitClause(limit));
    LexWrapper(Body(sql), Itoa(limit));
  }

  lemma WithoutLast(ts: seq<Token>, t: Token)
    ensures (ts + [t])[..|ts + [t]| - 1] == ts
  {
  }

  lemma Regrouped(a: string, b: string, c: string, d: string)
    ensures a + b + c + d == a + (b + (c + d))
  {
    assert b + (c + d) == b + c + d;
  }
}
