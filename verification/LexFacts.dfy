/** What the tokenizer makes of each kind of token, on runes alone. */
module LexFacts {
  import opened Outcomes
  import opened Text
  import opened Scan
  import opened Lexer
  import opened LexLaws
  import opened TokenLaws
  import opened ScanFacts

  // The tokens of a text that begins with t and goes on with y.
  function Then(t: Token, y: string): Lexed {
    match Lex(y)
    case Err(e) => Err(e)
    case Ok(ts) => Ok([t] + ts)
  }

  predicate IdentifierStart(c: char) {
    IsLetter(c) || c == '_'
  }

  predicate IdentifierRune(c: char) {
    IsLetter(c) || IsDigit(c) || c == '_' || c == '$'
  }

  predicate NumberRune(c: char) {
    IsDigit(c) || c == '.'
  }

  lemma {:induction false} RunOver(k: Kind, x: string, y: string)
    requires (forall i | 0 <= i < |x| :: Continues(k, x[i])) && (y == "" || !Continues(k, y[0]))
    ensures Run(k, x + y) == |x|
  {
    if x == "" {
      assert x + y == y;
    } else {
      CutAppend(x, 1, y);
      assert (x + y)[0] == x[0];
      RunOver(k, x[1..], y);
    }
  }

  lemma ReadsAs(x: string, y: string, t: Token)
    requires x != "" && !IsSpace(x[0]) && !OpensComment(x + y)
    requires ReadLexeme(x + y) == Ok(Lexeme(t, |x|))
    ensures Lex(x + y) == Then(t, y)
  {
    assert (x + y)[0] == x[0] && (x + y)[|x|..] == y;
  }

  lemma RunReadsAs(k: Kind, x: string, y: string)
    requires x != "" && (forall i | 0 < i < |x| :: Continues(k, x[i])) && (y == "" || !Continues(k, y[0]))
    ensures (x + y)[0] == x[0] && Run(k, (x + y)[1..]) == |x| - 1 && (x + y)[..|x|] == x
    ensures |x| > 1 ==> (x + y)[1] == x[1]
  {
    CutAppend(x, 1, y);
    RunOver(k, x[1..], y);
  }

  // A letter or underscore and all the letters, digits, underscores and dollar
  // signs that follow.
  lemma IdentifierIsRead(x: string, y: string)
    requires x != "" && IdentifierStart(x[0]) && (forall i | 0 < i < |x| :: IdentifierRune(x[i]))
    requires y == "" || !IdentifierRune(y[0])
    ensures Lex(x + y) == Then(Token(x, false, Identifier), y)
  {
    RunReadsAs(Identifier, x, y);
    ReadsAs(x, y, Token(x, false, Identifier));
  }

  // A digit and all the digits and dots that follow.
  lemma NumberIsRead(x: string, y: string)
    requires x != "" && IsDigit(x[0]) && (forall i | 0 < i < |x| :: NumberRune(x[i]))
    requires y == "" || !NumberRune(y[0])
    ensures Lex(x + y) == Then(Token(x, false, Number), y)
  {
    RunReadsAs(Number, x, y);
    ReadsAs(x, y, Token(x, false, Number));
  }

  // A dollar sign and all the digits that follow; without one it is refused.
  lemma ParameterIsRead(x: string, y: string)
    requires x != "" && x[0] == '$' && (forall i | 0 < i < |x| :: IsDigit(x[i]))
    requires y == "" || !IsDigit(y[0])
    ensures Lex(x + y) == if |x| > 1 then Then(Token(x, false, Symbol), y) else Err(DollarQuote)
  {
    RunReadsAs(Symbol, x, y);
    if |x| > 1 {
      ReadsAs(x, y, Token(x, false, Symbol));
    }
  }

  lemma {:induction false} ReadsName(name: string, y: string)
    requires y == "" || y[0] != '"'
    ensures ReadQuoted(Doubled(name) + ("\"" + y)) == Quoted(name, |Doubled(name)| + 1)
  {
    var z := "\"" + y;
    if name == "" {
      assert Doubled(name) + z == z && (y != "" ==> z[1] == y[0]);
    } else {
      var a, b := if name[0] == '"' then "\"\"" else [name[0]], Doubled(name[1..]);
      ReadsName(name[1..], y);
      ReadsPart(a, b + z);
      Associate(a, b, z);
      assert [name[0]] + name[1..] == name;
    }
  }

  lemma ReadsPart(p: string, y: string)
    requires NamePart(p)
    ensures ReadQuoted(p + y) == Extend(p[..1], |p|, ReadQuoted(y))
  {
    assert (p + y)[0] == p[0] && (|p| > 1 ==> (p + y)[1] == p[1]) && (p + y)[|p|..] == y;
  }

  // A name between double quotes, those in it doubled.
  lemma NameIsRead(name: string, y: string)
    requires y == "" || y[0] != '"'
    ensures Lex("\"" + (Doubled(name) + ("\"" + y))) == Then(Token(name, true, Identifier), y)
  {
    var x := "\"" + (Doubled(name) + "\"");
    ReadsName(name, y);
    NameText(Doubled(name), y);
    ReadsAs(x, y, Token(name, true, Identifier));
  }

  lemma NameText(x: string, y: string)
    ensures
      var s := "\"" + (x + ("\"" + y));
      s == "\"" + (x + "\"") + y && s[0] == '"' && s[1..] == x + ("\"" + y) && |"\"" + (x + "\"")| == |x| + 2
  {
    Associate(x, "\"", y);
    Associate("\"", x + "\"", y);
  }

  lemma {:induction false} ReadsLiteral(parts: seq<string>, y: string)
    requires (forall k | 0 <= k < |parts| :: LiteralPart(parts[k])) && (y == "" || y[0] != '\'')
    ensures LiteralLength(Concat(parts) + ("'" + y)) == Extent(|Concat(parts)| + 1)
  {
    var z := "'" + y;
    if parts == [] {
      assert "" + z == z && (y != "" ==> z[1] == y[0]);
    } else {
      ReadsLiteral(parts[1..], y);
      LiteralPartRead(parts[0], Concat(parts[1..]) + z);
      Associate(parts[0], Concat(parts[1..]), z);
    }
  }

  lemma LiteralPartRead(p: string, y: string)
    requires LiteralPart(p)
    ensures LiteralLength(p + y) == Plus(|p|, LiteralLength(y))
  {
    assert (p + y)[0] == p[0] && (|p| > 1 ==> (p + y)[1] == p[1]) && (p + y)[|p|..] == y;
  }

  // A literal, with its quotes.
  lemma LiteralIsRead(parts: seq<string>, y: string)
    requires (forall k | 0 <= k < |parts| :: LiteralPart(parts[k])) && (y == "" || y[0] != '\'')
    ensures
      var x := "'" + (Concat(parts) + "'");
      Lex(x + y) == Then(Token(x, false, Str), y)
  {
    var x := "'" + (Concat(parts) + "'");
    ReadsLiteral(parts, y);
    LiteralText(Concat(parts), y);
    ReadsAs(x, y, Token(x, false, Str));
  }

  lemma LiteralText(z: string, y: string)
    ensures
      var x := "'" + (z + "'");
      (x + y)[0] == '\'' && (x + y)[1..] == z + ("'" + y) && (x + y)[..|x|] == x && |x| == |z| + 2
  {
  }

  lemma {:induction false} NoLiteralEnd(parts: seq<string>, last: string)
    requires (forall k | 0 <= k < |parts| :: LiteralPart(parts[k])) && (last == "" || last == "\\")
    ensures LiteralLength(Concat(parts) + last).Endless?
  {
    if parts == [] {
      assert "" + last == last;
    } else {
      NoLiteralEnd(parts[1..], last);
      LiteralPartRead(parts[0], Concat(parts[1..]) + last);
      Associate(parts[0], Concat(parts[1..]), last);
    }
  }

  lemma {:induction false} NoNameEnd(parts: seq<string>)
    requires forall k | 0 <= k < |parts| :: NamePart(parts[k])
    ensures ReadQuoted(Concat(parts)).Unclosed?
  {
    if parts != [] {
      NoNameEnd(parts[1..]);
      ReadsPart(parts[0], Concat(parts[1..]));
    }
  }

  // Without its end a literal or a quoted name is refused.
  lemma OpenIsRefused(q: string, parts: seq<string>, last: string)
    requires Body(q, parts) && (last == "" || (q == "'" && last == "\\"))
    ensures Lex(q + (Concat(parts) + last)) == Err(if q == "'" then OpenLiteral else OpenQuotedIdentifier)
  {
    var s := q + (Concat(parts) + last);
    assert s[0] == q[0] && s[1..] == Concat(parts) + last;
    if q == "'" {
      NoLiteralEnd(parts, last);
    } else {
      NoNameEnd(parts);
      assert Concat(parts) + last == Concat(parts);
    }
  }

  // White space is skipped, a comment is refused, and any other rune is a symbol.
  lemma RuneIsRead(x: string, y: string)
    requires |x| == 1
    ensures IsSpace(x[0]) ==> Lex(x + y) == Lex(y)
    ensures y != "" && ((x[0] == '-' && y[0] == '-') || (x[0] == '/' && y[0] == '*')) ==>
      Lex(x + y) == Err(CommentFound)
    ensures Ordinary(x[0], y) && !IsSpace(x[0]) && !IdentifierStart(x[0]) && !IsDigit(x[0]) && x[0] != '$' ==>
      Lex(x + y) == Then(Token(x, false, Symbol), y)
  {
    assert (x + y)[0] == x[0] && (y != "" ==> (x + y)[1] == y[0]) && (x + y)[1..] == y && (x + y)[..1] == x;
  }
}
