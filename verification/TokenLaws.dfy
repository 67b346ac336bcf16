/** The tokenizer loses nothing but white space, and white space between tokens
    means nothing. */
module TokenLaws {
  import opened Outcomes
  import opened Text
  import opened Scan
  import opened Lexer
  import opened LexLaws

  // A name with its double quotes doubled.
  function Doubled(name: string): string {
    if name == "" then ""
    else (if name[0] == '"' then "\"\"" else [name[0]]) + Doubled(name[1..])
  }

  // How a token is spelled.
  function Spelling(t: Token): string {
    if t.quoted then "\"" + (Doubled(t.text) + "\"") else t.text
  }

  // Tokens with gaps around them.
  function Weave(gaps: seq<string>, ts: seq<Token>): string
    requires |gaps| == |ts| + 1
  {
    if ts == [] then gaps[0] else gaps[0] + (Spelling(ts[0]) + Weave(gaps[1..], ts[1..]))
  }

  predicate AllBlank(gaps: seq<string>) {
    forall i | 0 <= i < |gaps| :: Blank(gaps[i])
  }

  lemma {:induction false} QuotedSpelling(s: string)
    requires ReadQuoted(s).Quoted?
    ensures s[..ReadQuoted(s).width] == Doubled(ReadQuoted(s).name) + "\""
    decreases |s|
  {
    var q := ReadQuoted(s);
    if s[0] != '"' {
      QuotedSpelling(s[1..]);
      DoubledMore([s[0]], [s[0]], ReadQuoted(s[1..]).name);
      TakeMore(s, 1, q.width);
    } else if Pair(s, '"', '"') {
      QuotedSpelling(s[2..]);
      DoubledMore("\"", "\"\"", ReadQuoted(s[2..]).name);
      TakeMore(s, 2, q.width);
    } else {
      assert Doubled("") + "\"" == "\"";
    }
  }

  lemma DoubledMore(x: string, xx: string, name: string)
    requires |x| == 1 && xx == if x[0] == '"' then "\"\"" else x
    ensures Doubled(x + name) + "\"" == xx + (Doubled(name) + "\"")
  {
    assert (x + name)[1..] == name;
    Associate(xx, Doubled(name), "\"");
  }

  lemma TakeMore(s: string, k: nat, n: nat)
    requires k <= n <= |s|
    ensures s[..n] == s[..k] + s[k..][..n - k]
  {
  }

  // A lexeme is the spelling of its token.
  lemma LexemeSpelling(s: string)
    requires s != "" && ReadLexeme(s).Ok?
    ensures s[..ReadLexeme(s).value.width] == Spelling(ReadLexeme(s).value.token)
  {
    if s[0] == '"' {
      QuotedSpelling(s[1..]);
      TakeMore(s, 1, ReadLexeme(s).value.width);
    }
  }

  // A text is its tokens, as they are spelled, and blanks.
  lemma {:induction false} TokensCoverText(s: string) returns (gaps: seq<string>)
    requires Lex(s).Ok?
    ensures |gaps| == |Lex(s).value| + 1 && AllBlank(gaps)
    ensures s == Weave(gaps, Lex(s).value)
    decreases |s|
  {
    if s == "" {
      gaps := [""];
    } else if IsSpace(s[0]) {
      var rest := TokensCoverText(s[1..]);
      gaps := [s[..1] + rest[0]] + rest[1..];
      GapMore(s[..1], rest, Lex(s).value);
    } else {
      var l := ReadLexeme(s).value;
      var rest := TokensCoverText(s[l.width..]);
      gaps := [""] + rest;
      LexemeSpelling(s);
      assert s == s[..l.width] + s[l.width..];
      TokenMore(l.token, rest, Lex(s[l.width..]).value);
    }
  }

  lemma GapMore(x: string, gaps: seq<string>, ts: seq<Token>)
    requires |gaps| == |ts| + 1
    ensures Weave([x + gaps[0]] + gaps[1..], ts) == x + Weave(gaps, ts)
  {
    var more := [x + gaps[0]] + gaps[1..];
    assert more[1..] == gaps[1..];
    if ts != [] {
      Associate(x, gaps[0], Spelling(ts[0]) + Weave(gaps[1..], ts[1..]));
    }
  }

  lemma TokenMore(t: Token, gaps: seq<string>, ts: seq<Token>)
    requires |gaps| == |ts| + 1
    ensures Weave([""] + gaps, [t] + ts) == Spelling(t) + Weave(gaps, ts)
  {
    assert ([""] + gaps)[1..] == gaps && ([t] + ts)[1..] == ts;
    assert "" + (Spelling(t) + Weave(gaps, ts)) == Spelling(t) + Weave(gaps, ts);
  }

  // Gaps that keep tokens apart: only the first and the last may be empty.
  predicate Apart(gaps: seq<string>) {
    forall i | 0 < i < |gaps| - 1 :: gaps[i] != ""
  }

  // However the tokens of a text are spaced, they are the same tokens.
  lemma {:induction false} SpacingIsInvisible(s: string, gaps: seq<string>)
    requires Lex(s).Ok? && |gaps| == |Lex(s).value| + 1 && AllBlank(gaps) && Apart(gaps)
    ensures Lex(Weave(gaps, Lex(s).value)) == Lex(s)
    decreases |s|
  {
    if s == "" {
      BlankHasNoTokens(gaps[0]);
    } else if IsSpace(s[0]) {
      SpacingIsInvisible(s[1..], gaps);
    } else {
      var l := ReadLexeme(s).value;
      var rest, later := s[l.width..], gaps[1..];
      var ts := Lex(rest).value;
      var y := Weave(later, ts);
      assert Lex(s).value[1..] == ts;
      SpacingIsInvisible(rest, later);
      LexemeSpelling(s);
      GapEnds(l.token, later, ts);
      LexStep(s, y);
      LexOverSpaces(gaps[0], s[..l.width] + y);
    }
  }

  lemma BlankHasNoTokens(blank: string)
    requires Blank(blank)
    ensures Lex(blank) == Ok([])
  {
    LexOverSpaces(blank, "");
    assert blank + "" == blank;
  }

  // A gap, or the end of the text, ends any token.
  lemma GapEnds(t: Token, gaps: seq<string>, ts: seq<Token>)
    requires |gaps| == |ts| + 1 && AllBlank(gaps) && (ts != [] ==> gaps[0] != "")
    ensures EndsToken(t, Weave(gaps, ts))
  {
    var y := Weave(gaps, ts);
    if y != "" {
      assert y[0] == gaps[0][0] && IsSpace(y[0]);
    }
  }
}
