/** Stripping comments preserves the tokens of a text, and tokens can be cut
    apart wherever no token runs over the cut. */
module LexLaws {
  import opened Outcomes
  import opened Text
  import opened Scan
  import opened StripLaws
  import opened Lexer

  // ---------------------------------------------------------- one lexeme

  // The runes of y neither go on the token t nor make a comment with it.
  predicate EndsToken(t: Token, y: string) {
    y == "" ||
    if t.quoted then y[0] != '"'
    else match t.kind
      case Str => y[0] != '\''
      case Symbol =>
        if t.text == "-" then y[0] != '-'
        else if t.text == "/" then y[0] != '*'
        else t.text != "" && t.text[0] == '$' ==> !IsDigit(y[0])
      case _ => !Continues(t.kind, y[0])
  }

  lemma {:induction false} RunStable(k: Kind, s: string, y: string)
    requires y == "" || !Continues(k, y[0])
    ensures Run(k, s[..Run(k, s)] + y) == Run(k, s)
  {
    var n := Run(k, s);
    if n > 0 {
      var t := s[..n] + y;
      assert t[0] == s[0] && t[1..] == s[1..][..n - 1] + y;
      RunStable(k, s[1..], y);
    } else {
      assert s[..0] + y == y;
    }
  }

  lemma {:induction false} LiteralStable(s: string, n: nat, y: string)
    requires LiteralLength(s) == Extent(n) && (y == "" || y[0] != '\'')
    ensures LiteralLength(s[..n] + y) == Extent(n)
    ensures n < |s| ==> s[n] != '\''
    decreases n
  {
    var t := s[..n] + y;
    assert t[0] == s[0];
    if s[0] == '\\' && |s| > 1 {
      TakeDrop(s, 2, n, y);
      LiteralStable(s[2..], n - 2, y);
    } else if s[0] != '\'' {
      TakeDrop(s, 1, n, y);
      LiteralStable(s[1..], n - 1, y);
    } else if Pair(s, '\'', '\'') {
      assert t[1] == s[1];
      TakeDrop(s, 2, n, y);
      LiteralStable(s[2..], n - 2, y);
    } else {
      assert t == "'" + y;
    }
  }

  lemma {:induction false} QuotedStable(s: string, y: string)
    requires ReadQuoted(s).Quoted? && (y == "" || y[0] != '"')
    ensures
      var n := ReadQuoted(s).width;
      && ReadQuoted(s[..n] + y) == ReadQuoted(s)
      && (n < |s| ==> s[n] != '"')
    decreases |s|
  {
    var n := ReadQuoted(s).width;
    var t := s[..n] + y;
    assert t[0] == s[0];
    if s[0] != '"' {
      TakeDrop(s, 1, n, y);
      QuotedStable(s[1..], y);
    } else if Pair(s, '"', '"') {
      assert t[1] == s[1];
      TakeDrop(s, 2, n, y);
      QuotedStable(s[2..], y);
    } else {
      assert t == "\"" + y;
    }
  }

  lemma TakeDrop(s: string, k: nat, n: nat, y: string)
    requires k <= n <= |s|
    ensures (s[..n] + y)[k..] == s[k..][..n - k] + y
  {
  }

  // A literal or a name that is not closed stays so before a text without quotes.
  lemma {:induction false} OpenLiteralStaysOpen(s: string, y: string)
    requires LiteralLength(s).Endless? && '\'' !in y
    ensures LiteralLength(s + y).Endless?
    decreases |s| + |y|
  {
    if s == "" {
      assert s + y == y;
      if |y| > 0 {
        OpenLiteralStaysOpen(s, y[1..]);
        assert "" + y[1..] == y[1..];
      }
      if |y| > 1 {
        OpenLiteralStaysOpen(s, y[2..]);
        assert "" + y[2..] == y[2..];
      }
    } else {
      var m := StripMove(Single, s).width;
      assert (s + y)[0] == s[0] && (|s| > 1 ==> (s + y)[1] == s[1]);
      OpenLiteralStaysOpen(s[m..], y);
      CutAppend(s, m, y);
      if s == "\\" && y != "" {
        OpenLiteralStaysOpen("", y[1..]);
        assert (s + y)[2..] == "" + y[1..];
      }
    }
  }

  lemma {:induction false} OpenNameStaysOpen(s: string, y: string)
    requires ReadQuoted(s).Unclosed? && '"' !in y
    ensures ReadQuoted(s + y).Unclosed?
    decreases |s| + |y|
  {
    if s == "" {
      assert s + y == y;
      if |y| > 0 {
        OpenNameStaysOpen(s, y[1..]);
        assert "" + y[1..] == y[1..];
      }
    } else {
      var m := StripMove(Double, s).width;
      assert (s + y)[0] == s[0] && (|s| > 1 ==> (s + y)[1] == s[1]);
      OpenNameStaysOpen(s[m..], y);
      CutAppend(s, m, y);
    }
  }

  // A lexeme is the same whatever follows it, as long as that ends the token.
  lemma LexemeStable(s: string, y: string)
    requires s != "" && ReadLexeme(s).Ok?
    requires EndsToken(ReadLexeme(s).value.token, y)
    ensures ReadLexeme(s[..ReadLexeme(s).value.width] + y) == ReadLexeme(s)
  {
    var n := ReadLexeme(s).value.width - 1;
    var t := s[..n + 1] + y;
    assert t[0] == s[0];
    assert t[1..] == s[1..][..n] + y;
    if s[0] == '\'' {
      LiteralStable(s[1..], n, y);
      assert t[..n + 1] == s[..n + 1];
    } else if s[0] == '"' {
      QuotedStable(s[1..], y);
    } else {
      assert t[..n + 1] == s[..n + 1];
      LexemeStablePlain(s, t, y);
    }
  }

  lemma LexemeStablePlain(s: string, t: string, y: string)
    requires s != "" && s[0] != '\'' && s[0] != '"' && ReadLexeme(s).Ok?
    requires
      var l := ReadLexeme(s).value;
      && EndsToken(l.token, y)
      && t != "" && t[0] == s[0] && t[1..] == s[1..][..l.width - 1] + y
      && l.width <= |t| && t[..l.width] == s[..l.width]
    ensures ReadLexeme(t) == ReadLexeme(s)
  {
    if s[0] == '$' {
      assert t[1] == t[1..][0] == s[1..][0] == s[1];
      RunStable(Symbol, s[1..], y);
    } else if IsIdentifierStart(s[0]) {
      RunStable(Identifier, s[1..], y);
    } else if IsDigit(s[0]) {
      RunStable(Number, s[1..], y);
    }
  }

  // What follows a lexeme ends its token.
  lemma LexemeEnds(s: string)
    requires s != "" && ReadLexeme(s).Ok? && !OpensComment(s)
    ensures EndsToken(ReadLexeme(s).value.token, s[ReadLexeme(s).value.width..])
  {
    var l := ReadLexeme(s).value;
    if l.width < |s| {
      assert s[l.width..][0] == s[l.width] == s[1..][l.width - 1];
      if s[0] == '\'' {
        LiteralStable(s[1..], l.width - 1, "");
      } else if s[0] == '"' {
        QuotedStable(s[1..], "");
      }
    }
  }

  lemma LexemeOpensNoComment(s: string, y: string)
    requires s != "" && ReadLexeme(s).Ok? && !OpensComment(s)
    requires EndsToken(ReadLexeme(s).value.token, y)
    ensures !OpensComment(s[..ReadLexeme(s).value.width] + y)
  {
    var l := ReadLexeme(s).value;
    var t := s[..l.width] + y;
    assert t[0] == s[0];
    if l.width > 1 {
      assert t[1] == s[1];
    } else {
      assert l.token.kind == Symbol && s[0] != '$' ==> l.token.text == [s[0]];
    }
  }

  // ------------------------------------------------- stripping, then lexing

  lemma {:induction false} StripOverPlain(s: string, n: nat)
    requires n <= |s| && forall i | 0 <= i < n :: Neutral(s[i])
    ensures Strip(Code, s) == s[..n] + Strip(Code, s[n..])
    ensures StripEnd(Code, s) == StripEnd(Code, s[n..])
  {
    if n == 0 {
      assert s[..0] + Strip(Code, s[0..]) == Strip(Code, s);
      assert s[0..] == s;
    } else {
      assert StripMove(Code, s) == Move(Code, 1);
      assert Strip(Code, s) == s[..1] + Strip(Code, s[1..]);
      StripOverPlain(s[1..], n - 1);
      TakeJoin(s, 1, n, Strip(Code, s[n..]));
    }
  }

  lemma TakeJoin(s: string, k: nat, n: nat, tail: string)
    requires k <= n <= |s|
    ensures s[k..][n - k..] == s[n..]
    ensures s[..k] + (s[k..][..n - k] + tail) == s[..n] + tail
  {
    assert s[..n] == s[..k] + s[k..][..n - k];
  }

  // One move of the stripper inside a literal, and inside a quoted name.
  lemma LiteralMove(s: string)
    requires s != ""
    ensures
      var m := StripMove(Single, s);
      if m.next == Single then LiteralLength(s) == Plus(m.width, LiteralLength(s[m.width..]))
      else m == Move(Code, 1) && LiteralLength(s) == Extent(1)
  {
  }

  lemma QuotedMove(s: string)
    requires s != ""
    ensures
      var m := StripMove(Double, s);
      if m.next == Double then
        exists x :: ReadQuoted(s) == Extend(x, m.width, ReadQuoted(s[m.width..]))
      else m == Move(Code, 1) && ReadQuoted(s) == Quoted("", 1)
  {
    if StripMove(Double, s).next == Double {
      var x := if s[0] == '"' then "\"" else [s[0]];
      assert ReadQuoted(s) == Extend(x, StripMove(Double, s).width, ReadQuoted(s[StripMove(Double, s).width..]));
    }
  }

  // The stripper copies the n runes of s that end a quoted lexeme.
  predicate CopiesTo(st: State, s: string, n: nat)
    requires n <= |s|
  {
    Strip(st, s) == s[..n] + Strip(Code, s[n..]) && StripEnd(st, s) == StripEnd(Code, s[n..])
  }

  lemma CopiesMore(st: State, s: string, n: nat)
    requires s != "" && !st.Comment() && !StripMove(st, s).next.Comment()
    requires StripMove(st, s).width <= n <= |s|
    requires CopiesTo(StripMove(st, s).next, s[StripMove(st, s).width..], n - StripMove(st, s).width)
    ensures CopiesTo(st, s, n)
  {
    TakeJoin(s, StripMove(st, s).width, n, Strip(Code, s[n..]));
  }

  lemma {:induction false} StripOverLiteral(s: string)
    ensures
      if LiteralLength(s).Endless? then StripEnd(Single, s) == Single
      else CopiesTo(Single, s, LiteralLength(s).width)
    decreases |s|
  {
    if s != "" {
      LiteralMove(s);
      var m := StripMove(Single, s);
      if m.next == Single {
        StripOverLiteral(s[m.width..]);
        if LiteralLength(s).Extent? {
          CopiesMore(Single, s, LiteralLength(s).width);
        }
      }
    }
  }

  lemma {:induction false} StripOverQuoted(s: string)
    ensures
      if ReadQuoted(s).Unclosed? then StripEnd(Double, s) == Double
      else CopiesTo(Double, s, ReadQuoted(s).width)
    decreases |s|
  {
    if s != "" {
      QuotedMove(s);
      var m := StripMove(Double, s);
      if m.next == Double {
        StripOverQuoted(s[m.width..]);
        if ReadQuoted(s).Quoted? {
          CopiesMore(Double, s, ReadQuoted(s).width);
        }
      }
    }
  }

  // Stripping copies a lexeme and goes on after it in code; where the lexeme
  // is an unterminated literal or name, stripping fails as well.
  lemma StripOverLexeme(s: string)
    requires s != "" && !OpensComment(s)
    ensures
      var r := ReadLexeme(s);
      if r.Ok? then CopiesTo(Code, s, r.value.width)
      else r.error == DollarQuote || !Closed(StripEnd(Code, s))
  {
    var r := ReadLexeme(s);
    if s[0] == '\'' || s[0] == '"' {
      StripOverQuotes(s);
    } else if r.Ok? {
      assert forall i | 0 < i < r.value.width :: s[i] == s[1..][i - 1];
      if r.value.width == 1 {
        assert StripMove(Code, s) == Move(Code, 1);
      } else {
        StripOverPlain(s, r.value.width);
      }
    }
  }

  lemma StripOverQuotes(s: string)
    requires s != "" && (s[0] == '\'' || s[0] == '"')
    ensures
      var r := ReadLexeme(s);
      if r.Ok? then CopiesTo(Code, s, r.value.width)
      else !Closed(StripEnd(Code, s))
  {
    var m := StripMove(Code, s);
    var r := ReadLexeme(s);
    if s[0] == '\'' {
      assert m == Move(Single, 1);
      StripOverLiteral(s[1..]);
    } else {
      assert m == Move(Double, 1);
      StripOverQuoted(s[1..]);
    }
    if r.Ok? {
      CopiesMore(Code, s, r.value.width);
    }
  }

  lemma {:induction false} LexOverSpaces(blank: string, s: string)
    requires Blank(blank)
    ensures Lex(blank + s) == Lex(s)
  {
    if blank == "" {
      assert blank + s == s;
    } else {
      assert (blank + s)[1..] == blank[1..] + s;
      LexOverSpaces(blank[1..], s);
    }
  }

  // The first lexeme of s is the first lexeme of its stripped text.
  lemma LexStripped(s: string)
    requires s != "" && !IsSpace(s[0]) && !OpensComment(s) && ReadLexeme(s).Ok?
    ensures
      var l := ReadLexeme(s).value;
      Lex(Strip(Code, s)) == Prepend([l.token], Lex(Strip(Code, s[l.width..])))
  {
    var l := ReadLexeme(s).value;
    var rest := Strip(Code, s[l.width..]);
    var out := s[..l.width] + rest;
    StripOverLexeme(s);
    StripErasesInPlace(Code, s[l.width..]);
    LexemeEnds(s);
    assert EndsToken(l.token, rest);
    LexemeStable(s, rest);
    LexemeOpensNoComment(s, rest);
    assert out[0] == s[0] && out[l.width..] == rest;
  }

  // Tokenizing the stripped text is lexing the text with comments as white
  // space, and only the dollar-quote rule can make it fail.
  lemma {:induction false} LexAfterStripping(st: State, s: string)
    requires (st.Code? || st.Comment()) && Closed(StripEnd(st, s))
    ensures Lex(Strip(st, s)) == RefLex(st, s)
    ensures Lex(Strip(st, s)).Err? ==> Lex(Strip(st, s)).error == DollarQuote
    decreases |s|
  {
    if s == "" {
    } else if st.Comment() || OpensComment(s) {
      var m := CommentMove(st, s).value;
      LexAfterStripping(m.next, s[m.width..]);
      LexOverSpaces(Blanked(s[..m.width]), Strip(m.next, s[m.width..]));
    } else if IsSpace(s[0]) {
      LexAfterStripping(Code, s[1..]);
      LexOverSpaces(s[..1], Strip(Code, s[1..]));
    } else {
      StripOverLexeme(s);
      match ReadLexeme(s)
      case Ok(l) =>
        LexAfterStripping(Code, s[l.width..]);
        LexStripped(s);
      case Err(e) =>
        StripErasesInPlace(Code, s);
    }
  }

  // Comment erasure preserves the tokens of a script.
  lemma StrippingPreservesTokens(s: string)
    requires StripComments(s).Ok?
    ensures Lex(StripComments(s).value) == RefLex(Code, s)
    ensures Lex(StripComments(s).value).Err? ==> Lex(StripComments(s).value).error == DollarQuote
  {
    assert "" + Strip(Code, s) == Strip(Code, s);
    LexAfterStripping(Code, s);
  }

  // ------------------------------------------------------ cutting tokens apart

  const SEMICOLON := Token(";", false, Symbol)

  lemma LexSemicolon(y: string)
    ensures Lex(";" + y) == Prepend([SEMICOLON], Lex(y))
  {
    assert (";" + y)[1..] == y && (";" + y)[..1] == ";";
    assert ReadLexeme(";" + y) == Ok(Lexeme(SEMICOLON, 1));
  }

  // A rune that goes on no token and makes no comment with the rune before it.
  predicate Breaks(y: string) {
    y == "" ||
    (!Continues(Identifier, y[0]) && y[0] != '.' && y[0] != '\'' && y[0] != '"' && y[0] != '-' && y[0] != '*')
  }

  lemma LexStep(s: string, y: string)
    requires s != "" && !IsSpace(s[0]) && !OpensComment(s) && ReadLexeme(s).Ok?
    requires EndsToken(ReadLexeme(s).value.token, y)
    ensures
      var l := ReadLexeme(s).value;
      Lex(s[..l.width] + y) == Prepend([l.token], Lex(y))
  {
    var l := ReadLexeme(s).value;
    var t := s[..l.width] + y;
    LexemeStable(s, y);
    LexemeOpensNoComment(s, y);
    assert t[0] == s[0] && t[l.width..] == y;
  }

  // No token of x goes on in y: x ends in white space, or y ends its last token.
  predicate CutsTokens(x: string, y: string)
    requires Lex(x).Ok?
    decreases |x|
  {
    if x == "" then true
    else if IsSpace(x[0]) then CutsTokens(x[1..], y)
    else
      var l := ReadLexeme(x).value;
      if l.width == |x| then EndsToken(l.token, y) else CutsTokens(x[l.width..], y)
  }

  lemma {:induction false} BreakCutsTokens(x: string, y: string)
    requires Lex(x).Ok? && Breaks(y)
    ensures CutsTokens(x, y)
    decreases |x|
  {
    if x != "" {
      if IsSpace(x[0]) {
        BreakCutsTokens(x[1..], y);
      } else {
        BreakCutsTokens(x[ReadLexeme(x).value.width..], y);
      }
    }
  }

  lemma LexConcat(x: string, y: string)
    requires Lex(x).Ok? && Breaks(y)
    ensures Lex(x + y) == Prepend(Lex(x).value, Lex(y))
  {
    BreakCutsTokens(x, y);
    LexCut(x, y);
  }

  // Two texts are tokenized one after the other where no token of the first
  // goes on in the second.
  lemma {:induction false} LexCut(x: string, y: string)
    requires Lex(x).Ok? && CutsTokens(x, y)
    ensures Lex(x + y) == Prepend(Lex(x).value, Lex(y))
    decreases |x|
  {
    if x == "" {
      assert x + y == y;
      PrependNothing(Lex(y));
    } else if IsSpace(x[0]) {
      CutAppend(x, 1, y);
      LexCut(x[1..], y);
    } else {
      var l := ReadLexeme(x).value;
      var rest := x[l.width..];
      LexemeEnds(x);
      CutAppend(x, l.width, y);
      assert EndsToken(l.token, rest + y) by {
        if rest == "" {
          assert rest + y == y;
        } else {
          assert (rest + y)[0] == rest[0];
        }
      }
      LexStep(x, rest + y);
      LexCut(rest, y);
      PrependTwice([l.token], Lex(rest).value, Lex(y));
    }
  }

  // White space at the ends of a text is invisible to the tokenizer.
  lemma LexTrimmed(s: string)
    requires Lex(Trim(s)).Ok?
    ensures Lex(s) == Lex(Trim(s))
  {
    var lead, trail := TrimParts(s);
    assert s == lead + (Trim(s) + trail);
    LexOverSpaces(lead, Trim(s) + trail);
    LexConcat(Trim(s), trail);
    LexOverSpaces(trail, "");
    assert trail + "" == trail;
    assert Lex(Trim(s)).value + [] == Lex(Trim(s)).value;
  }
}
