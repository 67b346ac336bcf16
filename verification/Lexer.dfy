/** The tokenizer of the SQL guard, and a reference lexer that also reads
    comments, as white space. Both take the same lexemes. */
module Lexer {
  import opened Outcomes
  import opened Text
  import opened Scan

  datatype Kind = Identifier | Str | Number | Symbol

  datatype Token = Token(text: string, quoted: bool, kind: Kind)

  datatype LexError = CommentFound | DollarQuote | OpenLiteral | OpenQuotedIdentifier

  type Lexed = Result<seq<Token>, LexError>

  predicate IsIdentifierStart(c: char) {
    c == '_' || IsLetter(c)
  }

  // Whether c goes on a token of kind k: an identifier, a number, or the
  // parameter symbol $1.
  predicate Continues(k: Kind, c: char) {
    match k
    case Identifier => c == '_' || c == '$' || IsLetter(c) || IsDigit(c)
    case Number => IsDigit(c) || c == '.'
    case _ => IsDigit(c)
  }

  // How many runes at the start of s go on a token of kind k.
  function Run(k: Kind, s: string): (n: nat)
    ensures n <= |s| && (forall i | 0 <= i < n :: Continues(k, s[i])) && (n < |s| ==> !Continues(k, s[n]))
  {
    if s == "" || !Continues(k, s[0]) then 0 else 1 + Run(k, s[1..])
  }

  // How far a string literal goes.
  datatype Extent = Endless | Extent(width: nat)

  // The extent of a string literal after its opening quote, closing quote
  // included.
  function LiteralLength(s: string): (n: Extent)
    ensures n.Extent? ==> 0 < n.width <= |s|
    decreases |s|
  {
    if s == "" then Endless
    else if s[0] == '\\' && |s| > 1 then Plus(2, LiteralLength(s[2..]))
    else if s[0] != '\'' then Plus(1, LiteralLength(s[1..]))
    else if Pair(s, '\'', '\'') then Plus(2, LiteralLength(s[2..]))
    else Extent(1)
  }

  function Plus(k: nat, n: Extent): Extent {
    if n.Endless? then Endless else Extent(k + n.width)
  }

  // The same for a quoted identifier, with the name between the quotes.
  datatype QuotedName = Unclosed | Quoted(name: string, width: nat)

  function ReadQuoted(s: string): (q: QuotedName)
    ensures q.Quoted? ==> 0 < q.width <= |s|
    decreases |s|
  {
    if s == "" then Unclosed
    else if s[0] != '"' then Extend([s[0]], 1, ReadQuoted(s[1..]))
    else if Pair(s, '"', '"') then Extend("\"", 2, ReadQuoted(s[2..]))
    else Quoted("", 1)
  }

  function Extend(x: string, k: nat, q: QuotedName): QuotedName {
    match q
    case Unclosed => Unclosed
    case Quoted(name, width) => Quoted(x + name, k + width)
  }

  // A token and how many runes it takes.
  datatype Lexeme = Lexeme(token: Token, width: nat)

  predicate OpensComment(s: string) {
    Pair(s, '-', '-') || Pair(s, '/', '*')
  }

  // The lexeme at the start of a text that begins neither with white space nor
  // with a comment.
  function ReadLexeme(s: string): (r: Result<Lexeme, LexError>)
    requires s != ""
    ensures r.Ok? ==> 0 < r.value.width <= |s|
  {
    if s[0] == '$' then
      if |s| > 1 && IsDigit(s[1]) then
        var n := 1 + Run(Symbol, s[1..]);
        Ok(Lexeme(Token(s[..n], false, Symbol), n))
      else Err(DollarQuote)
    else if s[0] == '\'' then
      match LiteralLength(s[1..])
      case Endless => Err(OpenLiteral)
      case Extent(n) => Ok(Lexeme(Token(s[..1 + n], false, Str), 1 + n))
    else if s[0] == '"' then
      match ReadQuoted(s[1..])
      case Unclosed => Err(OpenQuotedIdentifier)
      case Quoted(name, n) => Ok(Lexeme(Token(name, true, Identifier), 1 + n))
    else if IsIdentifierStart(s[0]) then
      var n := 1 + Run(Identifier, s[1..]);
      Ok(Lexeme(Token(s[..n], false, Identifier), n))
    else if IsDigit(s[0]) then
      var n := 1 + Run(Number, s[1..]);
      Ok(Lexeme(Token(s[..n], false, Number), n))
    else Ok(Lexeme(Token(s[..1], false, Symbol), 1))
  }

  function Prepend(ts: seq<Token>, r: Lexed): Lexed {
    match r
    case Err(e) => Err(e)
    case Ok(us) => Ok(ts + us)
  }

  // The program's tokenizer: a comment is an error.
  function Lex(s: string): Lexed
    decreases |s|
  {
    if s == "" then Ok([])
    else if IsSpace(s[0]) then Lex(s[1..])
    else if OpensComment(s) then Err(CommentFound)
    else
      match ReadLexeme(s)
      case Err(e) => Err(e)
      case Ok(l) => Prepend([l.token], Lex(s[l.width..]))
  }

  // The reference: comments are white space, and st says in which one it is.
  function RefLex(st: State, s: string): Lexed
    requires st.Code? || st.Comment()
    decreases |s|
  {
    if s == "" then Ok([])
    else if st.Comment() || OpensComment(s) then
      var m := CommentMove(st, s).value;
      RefLex(m.next, s[m.width..])
    else if IsSpace(s[0]) then RefLex(Code, s[1..])
    else
      match ReadLexeme(s)
      case Err(e) => Err(e)
      case Ok(l) => Prepend([l.token], RefLex(Code, s[l.width..]))
  }

  method SkipRun(k: Kind, sql: string, start: nat, from: nat) returns (i: nat)
    requires start <= from <= |sql| && from - start <= Run(k, sql[start..])
    ensures i == start + Run(k, sql[start..])
  {
    i := from;
    while i < |sql| && Continues(k, sql[i])
      invariant from <= i <= |sql| && i - start <= Run(k, sql[start..])
    {
      assert sql[i] == sql[start..][i - start];
      i := i + 1;
    }
    var n := Run(k, sql[start..]);
    if i < start + n {
      assert sql[i] == sql[start..][i - start];
    }
  }

  lemma Slice(s: string, i: nat, j: nat)
    requires i <= j <= |s|
    ensures s[i..][..j - i] == s[i..j] && s[i..][j - i..] == s[j..]
    ensures j == i + 1 ==> s[i..j] == [s[i]]
  {
  }

  // The extent from start of a literal that has been read up to index i.
  function LiteralFrom(start: nat, s: string, i: nat): Extent
    requires start <= i <= |s|
  {
    Plus(i - start, LiteralLength(s[i..]))
  }

  // One round of the loop over a literal.
  lemma LiteralRound(start: nat, s: string, i: nat)
    requires start <= i < |s|
    ensures LiteralFrom(start, s, i) ==
      if s[i] == '\\' && i + 1 < |s| then LiteralFrom(start, s, i + 2)
      else if s[i] != '\'' then LiteralFrom(start, s, i + 1)
      else if i + 1 < |s| && s[i + 1] == '\'' then LiteralFrom(start, s, i + 2)
      else Extent(i + 1 - start)
  {
    Slice(s, i, i + 1);
    if i + 1 < |s| {
      Slice(s, i, i + 2);
    }
  }

  lemma QuotedStep(s: string, i: nat)
    requires i < |s|
    ensures ReadQuoted(s[i..]) ==
      if s[i] != '"' then Extend([s[i]], 1, ReadQuoted(s[i + 1..]))
      else if i + 1 < |s| && s[i + 1] == '"' then Extend("\"", 2, ReadQuoted(s[i + 2..]))
      else Quoted("", 1)
  {
    Slice(s, i, i + 1);
    if i + 1 < |s| {
      Slice(s, i, i + 2);
    }
  }

  method SkipLiteral(sql: string, start: nat) returns (i: nat, closed: bool)
    requires start <= |sql|
    ensures start <= i <= |sql| && LiteralLength(sql[start..]) == if closed then Extent(i - start) else Endless
  {
    i, closed := start, false;
    while i < |sql|
      invariant start <= i <= |sql| && LiteralFrom(start, sql, i) == LiteralLength(sql[start..])
    {
      LiteralRound(start, sql, i);
      if sql[i] == '\\' && i + 1 < |sql| {
        i := i + 2;
        continue;
      }
      if sql[i] != '\'' {
        i := i + 1;
        continue;
      }
      if i + 1 < |sql| && sql[i + 1] == '\'' {
        i := i + 2;
        continue;
      }
      i := i + 1;
      return i, true;
    }
  }

  method SkipQuoted(sql: string, start: nat) returns (i: nat, value: string, closed: bool)
    requires start <= |sql|
    ensures start <= i <= |sql| && ReadQuoted(sql[start..]) == if closed then Quoted(value, i - start) else Unclosed
  {
    i, value, closed := start, "", false;
    ghost var q := ReadQuoted(sql[start..]);
    while i < |sql|
      invariant start <= i <= |sql|
      invariant q == Extend(value, i - start, ReadQuoted(sql[i..]))
    {
      QuotedStep(sql, i);
      if sql[i] == '"' {
        if i + 1 < |sql| && sql[i + 1] == '"' {
          ExtendTwice(value, i - start, "\"", 2, ReadQuoted(sql[i + 2..]));
          value := value + "\"";
          i := i + 2;
          continue;
        }
        assert value + "" == value;
        i := i + 1;
        return i, value, true;
      }
      ExtendTwice(value, i - start, [sql[i]], 1, ReadQuoted(sql[i + 1..]));
      value := value + [sql[i]];
      i := i + 1;
    }
  }

  lemma ExtendTwice(x: string, k: nat, y: string, n: nat, q: QuotedName)
    ensures Extend(x, k, Extend(y, n, q)) == Extend(x + y, k + n, q)
  {
    if q.Quoted? {
      assert x + (y + q.name) == x + y + q.name;
    }
  }

  lemma PrependNothing(r: Lexed)
    ensures Prepend([], r) == r
  {
    if r.Ok? {
      assert [] + r.value == r.value;
    }
  }

  lemma PrependTwice(ts: seq<Token>, us: seq<Token>, r: Lexed)
    ensures Prepend(ts, Prepend(us, r)) == Prepend(ts + us, r)
  {
    if r.Ok? {
      assert ts + (us + r.value) == ts + us + r.value;
    }
  }

  // What the first runes at index i say of the lexeme there.
  lemma ReadRunAt(s: string, i: nat, k: Kind)
    requires i < |s|
    requires
      || (k == Identifier && IsIdentifierStart(s[i]))
      || (k == Number && IsDigit(s[i]) && !IsIdentifierStart(s[i]))
      || (k == Symbol && s[i] == '$' && i + 1 < |s| && IsDigit(s[i + 1]))
    ensures
      var n := 1 + Run(k, s[i + 1..]);
      ReadLexeme(s[i..]) == Ok(Lexeme(Token(s[i..i + n], false, k), n))
  {
    Slice(s, i, i + 1);
    Slice(s, i, i + 1 + Run(k, s[i + 1..]));
    assert i + 1 < |s| ==> s[i..][1] == s[i + 1];
  }

  lemma ReadLiteralAt(s: string, i: nat)
    requires i < |s| && s[i] == '\''
    ensures ReadLexeme(s[i..]) ==
      var n := LiteralLength(s[i + 1..]);
      if n.Endless? then Err(OpenLiteral)
      else Ok(Lexeme(Token(s[i..i + 1 + n.width], false, Str), 1 + n.width))
  {
    Slice(s, i, i + 1);
    if LiteralLength(s[i + 1..]).Extent? {
      Slice(s, i, i + 1 + LiteralLength(s[i + 1..]).width);
    }
  }

  lemma ReadQuotedAt(s: string, i: nat)
    requires i < |s| && s[i] == '"'
    ensures ReadLexeme(s[i..]) ==
      var q := ReadQuoted(s[i + 1..]);
      if q.Unclosed? then Err(OpenQuotedIdentifier) else Ok(Lexeme(Token(q.name, true, Identifier), 1 + q.width))
  {
    Slice(s, i, i + 1);
  }

  lemma ReadOtherAt(s: string, i: nat)
    requires i < |s| && s[i] != '\'' && s[i] != '"' && !IsIdentifierStart(s[i]) && !IsDigit(s[i])
    requires s[i] == '$' ==> i + 1 == |s| || !IsDigit(s[i + 1])
    ensures ReadLexeme(s[i..]) ==
      if s[i] == '$' then Err(DollarQuote) else Ok(Lexeme(Token([s[i]], false, Symbol), 1))
  {
    Slice(s, i, i + 1);
    assert i + 1 < |s| ==> s[i..][1] == s[i + 1];
  }

  method LiteralAt(sql: string, start: nat) returns (r: Result<Lexeme, LexError>)
    requires start < |sql| && sql[start] == '\''
    ensures r == ReadLexeme(sql[start..])
  {
    ReadLiteralAt(sql, start);
    var i, closed := SkipLiteral(sql, start + 1);
    if !closed {
      return Err(OpenLiteral);
    }
    return Ok(Lexeme(Token(sql[start..i], false, Str), i - start));
  }

  method QuotedAt(sql: string, start: nat) returns (r: Result<Lexeme, LexError>)
    requires start < |sql| && sql[start] == '"'
    ensures r == ReadLexeme(sql[start..])
  {
    ReadQuotedAt(sql, start);
    var i, value, closed := SkipQuoted(sql, start + 1);
    if !closed {
      return Err(OpenQuotedIdentifier);
    }
    return Ok(Lexeme(Token(value, true, Identifier), i - start));
  }

  method RunAt(k: Kind, sql: string, start: nat, from: nat) returns (r: Result<Lexeme, LexError>)
    requires start + 1 <= from <= |sql| && from - start - 1 <= Run(k, sql[start + 1..])
    ensures
      var n := 1 + Run(k, sql[start + 1..]);
      r == Ok(Lexeme(Token(sql[start..start + n], false, k), n))
  {
    var i := SkipRun(k, sql, start + 1, from);
    return Ok(Lexeme(Token(sql[start..i], false, k), i - start));
  }

  // The token at an index: the branches of the tokenizer's loop after white
  // space and comments.
  method TokenAt(sql: string, start: nat) returns (r: Result<Lexeme, LexError>)
    requires start < |sql|
    ensures r == ReadLexeme(sql[start..])
  {
    var ch := sql[start];
    if ch == '$' {
      if start + 1 < |sql| && IsDigit(sql[start + 1]) {
        ReadRunAt(sql, start, Symbol);
        r := RunAt(Symbol, sql, start, start + 2);
      } else {
        ReadOtherAt(sql, start);
        r := Err(DollarQuote);
      }
    } else if ch == '\'' {
      r := LiteralAt(sql, start);
    } else if ch == '"' {
      r := QuotedAt(sql, start);
    } else if IsIdentifierStart(ch) {
      ReadRunAt(sql, start, Identifier);
      r := RunAt(Identifier, sql, start, start + 1);
    } else if IsDigit(ch) {
      ReadRunAt(sql, start, Number);
      r := RunAt(Number, sql, start, start + 1);
    } else {
      ReadOtherAt(sql, start);
      r := Ok(Lexeme(Token([ch], false, Symbol), 1));
    }
  }

  // The tokenizer's answer when it has the tokens done and is at index i.
  function LexFrom(done: seq<Token>, s: string, i: nat): Lexed
    requires i <= |s|
  {
    Prepend(done, Lex(s[i..]))
  }

  // One round of the tokenizer's loop.
  lemma LexRound(done: seq<Token>, s: string, i: nat)
    requires i < |s|
    ensures LexFrom(done, s, i) ==
      if IsSpace(s[i]) then LexFrom(done, s, i + 1)
      else if i + 1 < |s| && ((s[i] == '-' && s[i + 1] == '-') || (s[i] == '/' && s[i + 1] == '*')) then
        Err(CommentFound)
      else
        var r := ReadLexeme(s[i..]);
        if r.Err? then Err(r.error) else LexFrom(done + [r.value.token], s, i + r.value.width)
  {
    Slice(s, i, i + 1);
    assert i + 1 < |s| ==> s[i..][1] == s[i + 1];
    var r := ReadLexeme(s[i..]);
    if r.Ok? {
      Slice(s, i, i + r.value.width);
      PrependTwice(done, [r.value.token], Lex(s[i + r.value.width..]));
    }
  }

  lemma LexEnds(done: seq<Token>, s: string)
    ensures LexFrom(done, s, |s|) == Ok(done)
    ensures LexFrom([], s, 0) == Lex(s)
  {
    assert s[|s|..] == "" && done + [] == done;
    assert s[0..] == s;
    PrependNothing(Lex(s));
  }

  method Tokenize(sql: string) returns (r: Lexed)
    ensures r == Lex(sql)
  {
    var tokens: seq<Token> := [];
    var i := 0;
    LexEnds(tokens, sql);
    while i < |sql|
      invariant i <= |sql| && LexFrom(tokens, sql, i) == Lex(sql)
    {
      LexRound(tokens, sql, i);
      if IsSpace(sql[i]) {
        i := i + 1;
        continue;
      }
      if sql[i] == '-' && i + 1 < |sql| && sql[i + 1] == '-' {
        return Err(CommentFound);
      }
      if sql[i] == '/' && i + 1 < |sql| && sql[i + 1] == '*' {
        return Err(CommentFound);
      }
      var lexeme := TokenAt(sql, i);
      if lexeme.Err? {
        return Err(lexeme.error);
      }
      tokens := tokens + [lexeme.value.token];
      i := i + lexeme.value.width;
    }
    LexEnds(tokens, sql);
    return Ok(tokens);
  }
}
