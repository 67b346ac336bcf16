/** What the two scanners make of each construct of SQL, on runes alone: comments,
    literals, quoted names and everything else. Every text is made of these, so
    the facts below leave nothing open. */
module ScanFacts {
  import opened Outcomes
  import opened Text
  import opened Scan
  import opened StripLaws
  import opened SplitLaws

  // ------------------------------------------------------------- on the runes

  // x with every rune but newlines turned into spaces.
  function Spaces(x: string): (r: string)
    ensures |r| == |x| && forall i | 0 <= i < |x| :: r[i] == if x[i] == '\n' then '\n' else ' '
  {
    seq(|x|, i requires 0 <= i < |x| => if x[i] == '\n' then '\n' else ' ')
  }

  // The two runes follow each other nowhere in x.
  predicate Never(x: string, a: char, b: char) {
    forall i | 0 <= i < |x| - 1 :: !(x[i] == a && x[i + 1] == b)
  }

  function Concat(parts: seq<string>): string {
    if parts == [] then "" else parts[0] + Concat(parts[1..])
  }

  // What a literal is made of: a rune, one after a backslash, or a doubled quote.
  predicate LiteralPart(p: string) {
    || (|p| == 1 && p[0] != '\'' && p[0] != '\\')
    || (|p| == 2 && p[0] == '\\')
    || p == "''"
  }

  // What a quoted name is made of: a rune or a doubled quote.
  predicate NamePart(p: string) {
    (|p| == 1 && p[0] != '"') || p == "\"\""
  }

  // The answer for a text that begins with x and goes on with a text that is
  // answered so: out stands for x.
  function Before(out: string, rest: Result<string, StripError>): Result<string, StripError> {
    match rest
    case Err(e) => Err(e)
    case Ok(z) => Ok(out + z)
  }

  // ---------------------------------------------------------- over a part of it

  // Reading x from st, before y, writes out and leads to next.
  predicate StripsOver(st: State, x: string, y: string, out: string, next: State) {
    Strip(st, x + y) == out + Strip(next, y) && StripEnd(st, x + y) == StripEnd(next, y)
  }

  predicate SplitsOver(st: State, x: string, y: string, next: State) {
    RawSplit(st, x + y) == Push(x, RawSplit(next, y))
  }

  lemma StripsOn(st: State, a: string, b: string, y: string, out: string, more: string, mid: State, next: State)
    requires StripsOver(st, a, b + y, out, mid) && StripsOver(mid, b, y, more, next)
    ensures StripsOver(st, a + b, y, out + more, next)
  {
    Associate(a, b, y);
    Associate(out, more, Strip(next, y));
  }

  lemma SplitsOn(st: State, a: string, b: string, y: string, mid: State, next: State)
    requires SplitsOver(st, a, b + y, mid) && SplitsOver(mid, b, y, next)
    ensures SplitsOver(st, a + b, y, next)
  {
    Associate(a, b, y);
    PushPush(a, b, RawSplit(next, y));
  }

  // One move of both scanners.
  lemma BothStep(st: State, x: string, y: string, next: State)
    requires x != "" && StripMove(st, x + y) == SplitMove(st, x + y) == Move(next, |x|) && !Cuts(st, x + y)
    ensures StripsOver(st, x, y, if st.Comment() || next.Comment() then Spaces(x) else x, next)
    ensures SplitsOver(st, x, y, next)
  {
    StripStep(st, x, y);
    SplitStep(st, x, y);
    assert Blanked(x) == Spaces(x);
  }

  lemma OnlyRune(x: string)
    requires |x| == 1
    ensures x == [x[0]]
  {
  }

  // One rune in a comment that goes on.
  lemma CommentStep(st: State, x: string, y: string)
    requires |x| == 1 && st.Comment()
    requires st.Line? ==> x[0] != '\n'
    requires st.Block? ==> !(x[0] == '*' && y != "" && y[0] == '/')
    ensures StripsOver(st, x, y, Spaces(x), st) && SplitsOver(st, x, y, st)
  {
    assert (x + y)[0] == x[0] && (y != "" ==> (x + y)[1] == y[0]);
    BothStep(st, x, y, st);
  }

  // The runes of a comment that does not end in them.
  predicate GoesOn(st: State, x: string, y: string) {
    && (st.Line? ==> '\n' !in x)
    && (st.Block? ==> Never(x, '*', '/') && !(x != "" && x[|x| - 1] == '*' && y != "" && y[0] == '/'))
  }

  lemma {:induction false} CommentRunes(st: State, x: string, y: string)
    requires st.Comment() && GoesOn(st, x, y)
    ensures StripsOver(st, x, y, Spaces(x), st) && SplitsOver(st, x, y, st)
  {
    if x == "" {
      Nothing(st, y);
    } else {
      var a, b := x[..1], x[1..];
      assert b != "" ==> (b + y)[0] == x[1];
      CommentStep(st, a, b + y);
      CommentRunes(st, b, y);
      CommentOn(st, a, b, y, st, st);
      assert a + b == x;
    }
  }

  lemma CommentOn(st: State, a: string, b: string, y: string, mid: State, next: State)
    requires StripsOver(st, a, b + y, Spaces(a), mid) && StripsOver(mid, b, y, Spaces(b), next)
    requires SplitsOver(st, a, b + y, mid) && SplitsOver(mid, b, y, next)
    ensures StripsOver(st, a + b, y, Spaces(a + b), next) && SplitsOver(st, a + b, y, next)
  {
    StripsOn(st, a, b, y, Spaces(a), Spaces(b), mid, next);
    SplitsOn(st, a, b, y, mid, next);
    assert Spaces(a) + Spaces(b) == Spaces(a + b);
  }

  lemma Nothing(st: State, y: string)
    ensures StripsOver(st, "", y, "", st) && SplitsOver(st, "", y, st)
  {
    assert "" + y == y && "" + Strip(st, y) == Strip(st, y);
    PushNothing(RawSplit(st, y));
  }

  // ------------------------------------------------------------ whole comments

  lemma CommentOpens(mark: string, y: string)
    requires mark == "--" || mark == "/*"
    ensures
      var st := if mark == "--" then Line else Block;
      StripsOver(Code, mark, y, Spaces(mark), st) && SplitsOver(Code, mark, y, st)
  {
    assert (mark + y)[0] == mark[0] && (mark + y)[1] == mark[1];
    BothStep(Code, mark, y, if mark == "--" then Line else Block);
  }

  lemma CommentCloses(mark: string, y: string)
    requires mark == "\n" || mark == "*/"
    ensures
      var st := if mark == "\n" then Line else Block;
      StripsOver(st, mark, y, Spaces(mark), Code) && SplitsOver(st, mark, y, Code)
  {
    assert (mark + y)[0] == mark[0] && (|mark| > 1 ==> (mark + y)[1] == mark[1]);
    BothStep(if mark == "\n" then Line else Block, mark, y, Code);
  }

  lemma WholeComment(mark: string, x: string, end: string, y: string)
    requires (mark == "--" && end == "\n" && '\n' !in x) || (mark == "/*" && end == "*/" && Never(x, '*', '/'))
    ensures StripsOver(Code, mark + x + end, y, Spaces(mark + x + end), Code)
    ensures SplitsOver(Code, mark + x + end, y, Code)
  {
    var st := if mark == "--" then Line else Block;
    assert (end + y)[0] == end[0];
    CommentBegins(mark, x, end + y);
    CommentCloses(end, y);
    CommentOn(Code, mark + x, end, y, st, Code);
  }

  lemma CommentBegins(mark: string, x: string, y: string)
    requires mark == "--" || mark == "/*"
    requires GoesOn(if mark == "--" then Line else Block, x, y)
    ensures
      var st := if mark == "--" then Line else Block;
      StripsOver(Code, mark + x, y, Spaces(mark + x), st) && SplitsOver(Code, mark + x, y, st)
  {
    var st := if mark == "--" then Line else Block;
    CommentOpens(mark, x + y);
    CommentRunes(st, x, y);
    CommentOn(Code, mark, x, y, st, st);
  }

  lemma OpenComment(mark: string, x: string)
    requires (mark == "--" && '\n' !in x) || (mark == "/*" && Never(x, '*', '/'))
    ensures
      var st := if mark == "--" then Line else Block;
      && Strip(Code, mark + x) == Spaces(mark + x) && StripEnd(Code, mark + x) == st
      && RawSplit(Code, mark + x) == [mark + x]
  {
    CommentBegins(mark, x, "");
    AtTheEnd(mark + x, Spaces(mark + x), if mark == "--" then Line else Block);
  }

  lemma AtTheEnd(x: string, out: string, next: State)
    requires StripsOver(Code, x, "", out, next)
    ensures Strip(Code, x) == out && StripEnd(Code, x) == next
    ensures SplitsOver(Code, x, "", next) ==> RawSplit(Code, x) == [x]
  {
    assert x + "" == x && out + "" == out;
  }

  // ------------------------------------------------- literals, names and the rest

  // A part of a literal or of a quoted name, and its quotes.
  lemma {:induction false} LiteralParts(parts: seq<string>, y: string)
    requires forall k | 0 <= k < |parts| :: LiteralPart(parts[k])
    ensures StripsOver(Single, Concat(parts), y, Concat(parts), Single)
  {
    if parts == [] {
      Nothing(Single, y);
    } else {
      var p, rest := parts[0], Concat(parts[1..]);
      QuotedStep(Single, p, rest + y);
      LiteralParts(parts[1..], y);
      StripsOn(Single, p, rest, y, p, rest, Single, Single);
    }
  }

  lemma {:induction false} NameParts(parts: seq<string>, y: string)
    requires forall k | 0 <= k < |parts| :: NamePart(parts[k])
    ensures StripsOver(Double, Concat(parts), y, Concat(parts), Double)
  {
    if parts == [] {
      Nothing(Double, y);
    } else {
      var p, rest := parts[0], Concat(parts[1..]);
      QuotedStep(Double, p, rest + y);
      NameParts(parts[1..], y);
      StripsOn(Double, p, rest, y, p, rest, Double, Double);
    }
  }

  lemma QuotedStep(st: State, p: string, y: string)
    requires (st.Single? && LiteralPart(p)) || (st.Double? && NamePart(p))
    ensures StripsOver(st, p, y, p, st)
  {
    assert (p + y)[0] == p[0] && (|p| > 1 ==> (p + y)[1] == p[1]);
    StripStep(st, p, y);
  }

  predicate IsQuote(q: string) {
    q == "'" || q == "\""
  }

  function InQuote(q: string): State {
    if q == "'" then Single else Double
  }

  lemma QuoteOpens(q: string, y: string)
    requires IsQuote(q)
    ensures StripsOver(Code, q, y, q, InQuote(q))
  {
    assert (q + y)[0] == q[0];
    StripStep(Code, q, y);
  }

  lemma QuoteCloses(q: string, y: string)
    requires IsQuote(q) && (y == "" || y[0] != q[0])
    ensures StripsOver(InQuote(q), q, y, q, Code)
  {
    assert (q + y)[0] == q[0] && (y != "" ==> (q + y)[1] == y[0]);
    StripStep(InQuote(q), q, y);
  }

  // The body of a literal or of a quoted name.
  predicate Body(q: string, parts: seq<string>) {
    && IsQuote(q)
    && forall k | 0 <= k < |parts| :: if q == "'" then LiteralPart(parts[k]) else NamePart(parts[k])
  }

  lemma QuotedBegins(q: string, parts: seq<string>, y: string)
    requires Body(q, parts)
    ensures StripsOver(Code, q + Concat(parts), y, q + Concat(parts), InQuote(q))
  {
    QuoteOpens(q, Concat(parts) + y);
    if q == "'" {
      LiteralParts(parts, y);
    } else {
      NameParts(parts, y);
    }
    StripsOn(Code, q, Concat(parts), y, q, Concat(parts), InQuote(q), InQuote(q));
  }

  lemma WholeQuoted(q: string, parts: seq<string>, y: string)
    requires Body(q, parts) && (y == "" || y[0] != q[0])
    ensures StripsOver(Code, q + Concat(parts) + q, y, q + Concat(parts) + q, Code)
  {
    QuotedBegins(q, parts, q + y);
    QuoteCloses(q, y);
    StripsOn(Code, q + Concat(parts), q, y, q + Concat(parts), q, InQuote(q), Code);
  }

  // The splitter stays in quotes up to the next one; a literal that opens with
  // two of them goes on after both.
  lemma {:induction false} SplitInQuotes(q: string, x: string, y: string)
    requires IsQuote(q) && q[0] !in x
    ensures SplitsOver(InQuote(q), x + q, y, Code)
  {
    if x == "" {
      assert "" + q == q && (q + y)[0] == q[0];
      SplitStep(InQuote(q), q, y);
    } else {
      var a, b := x[..1], x[1..];
      assert (a + (b + q + y))[0] == x[0];
      SplitStep(InQuote(q), a, b + q + y);
      SplitInQuotes(q, b, y);
      SplitsOn(InQuote(q), a, b + q, y, InQuote(q), Code);
      assert a + (b + q) == x + q;
    }
  }

  lemma SplitQuoteOpens(q: string, x: string)
    requires IsQuote(q) && (q == "'" ==> x != "" && x[0] != '\'')
    ensures SplitsOver(Code, q, x, InQuote(q))
  {
    assert (q + x)[0] == q[0] && (x != "" ==> (q + x)[1] == x[0]);
    SplitStep(Code, q, x);
  }

  lemma SplitTwoQuotes(x: string)
    ensures SplitsOver(Code, "''", x, Single)
  {
    assert ("''" + x)[0] == '\'' && ("''" + x)[1] == '\'';
    SplitStep(Code, "''", x);
  }

  // A rune that opens nothing.
  predicate Ordinary(c: char, y: string) {
    && c != '\'' && c != '"'
    && !(y != "" && ((c == '-' && y[0] == '-') || (c == '/' && y[0] == '*')))
  }

  lemma OrdinaryStep(x: string, y: string)
    requires |x| == 1 && Ordinary(x[0], y)
    ensures StripsOver(Code, x, y, x, Code)
    ensures x != ";" ==> SplitsOver(Code, x, y, Code)
  {
    assert (x + y)[0] == x[0] && (y != "" ==> (x + y)[1] == y[0]);
    StripStep(Code, x, y);
    if x[0] == ';' {
      OnlyRune(x);
    } else {
      SplitStep(Code, x, y);
    }
  }

  // ------------------------------------------------------------- what they make

  // A line comment ends at the first newline and a block comment at the first end
  // mark. Stripping leaves blanks in place of it and goes on from there; for the
  // splitter it is part of the piece.
  lemma CommentIsErased(mark: string, x: string, end: string, y: string)
    requires (mark == "--" && end == "\n" && '\n' !in x) || (mark == "/*" && end == "*/" && Never(x, '*', '/'))
    ensures StripComments(mark + x + end + y) == Before(Spaces(mark + x + end), StripComments(y))
    ensures RawSplit(Code, mark + x + end + y) == Push(mark + x + end, RawSplit(Code, y))
  {
    WholeComment(mark, x, end, y);
    StripsTo(mark + x + end, y, Spaces(mark + x + end));
  }

  // The last line may be a comment; a block comment must be closed. Nothing in
  // either is cut.
  lemma CommentWithoutEnd(mark: string, x: string)
    requires (mark == "--" && '\n' !in x) || (mark == "/*" && Never(x, '*', '/'))
    ensures StripComments(mark + x) == if mark == "--" then Ok(Spaces(mark + x)) else Err(OpenBlock)
    ensures RawSplit(Code, mark + x) == [mark + x]
  {
    OpenComment(mark, x);
    StripsWhole(mark + x, Spaces(mark + x));
  }

  lemma StripsWhole(x: string, out: string)
    requires Strip(Code, x) == out
    ensures StripComments(x) ==
      match StripVerdict(StripEnd(Code, x))
      case Some(e) => Err(e)
      case None => Ok(out)
  {
    assert "" + out == out;
  }

  // Stripping copies a literal or a quoted name whole.
  lemma QuotedIsKept(q: string, parts: seq<string>, y: string)
    requires Body(q, parts) && (y == "" || y[0] != q[0])
    ensures StripComments(q + Concat(parts) + q + y)
      == Before(q + Concat(parts) + q, StripComments(y))
  {
    WholeQuoted(q, parts, y);
    StripsTo(q + Concat(parts) + q, y, q + Concat(parts) + q);
  }

  // It must be closed; a backslash at the very end is no escape.
  lemma QuotedWithoutEnd(q: string, parts: seq<string>, last: string)
    requires Body(q, parts) && (last == "" || (q == "'" && last == "\\"))
    ensures StripComments(q + Concat(parts) + last) == Err(if q == "'" then OpenString else OpenIdentifier)
  {
    QuotedBegins(q, parts, last);
    if last != "" {
      assert StripEnd(Single, last) == Single;
    }
  }

  // For the splitter the next quote closes, whatever it is, but that a literal
  // cannot be empty: two quotes open it. Nothing in quotes is cut.
  lemma QuotedIsNotCut(q: string, x: string, y: string)
    requires IsQuote(q) && q[0] !in x
    ensures q == "\"" || x != "" ==> RawSplit(Code, q + x + q + y) == Push(q + x + q, RawSplit(Code, y))
    ensures q == "'" ==> RawSplit(Code, "''" + (x + "'") + y) == Push("''" + (x + "'"), RawSplit(Code, y))
  {
    SplitInQuotes(q, x, y);
    if q == "\"" || x != "" {
      assert (x + q + y) != "" && (x != "" ==> (x + q + y)[0] == x[0]);
      SplitQuoteOpens(q, x + q + y);
      SplitsOn(Code, q, x + q, y, InQuote(q), Code);
      Associate(q, x, q);
    }
    if q == "'" {
      SplitTwoQuotes(x + "'" + y);
      SplitsOn(Code, "''", x + "'", y, Single, Code);
    }
  }

  lemma {:induction false} StaysInQuotes(q: string, x: string)
    requires IsQuote(q) && q[0] !in x
    ensures RawSplit(InQuote(q), x) == [x]
  {
    if x != "" {
      assert x == x[..1] + x[1..];
      SplitStep(InQuote(q), x[..1], x[1..]);
      StaysInQuotes(q, x[1..]);
    }
  }

  lemma OpenIsNotCut(q: string, x: string)
    requires IsQuote(q) && q[0] !in x
    ensures RawSplit(Code, q + x) == [q + x]
    ensures RawSplit(Code, "''" + x) == ["''" + x] || q != "'"
  {
    StaysInQuotes(q, x);
    assert (q + x)[0] == q[0] && (x != "" ==> (q + x)[1] == x[0]);
    SplitStep(Code, q, x);
    if q == "'" {
      SplitTwoQuotes(x);
    }
  }

  // Any other rune stays where it is, and a semicolon cuts.
  lemma OrdinaryIsKept(x: string, y: string)
    requires |x| == 1 && Ordinary(x[0], y)
    ensures StripComments(x + y) == Before(x, StripComments(y))
    ensures RawSplit(Code, x + y) == if x == ";" then [""] + RawSplit(Code, y) else Push(x, RawSplit(Code, y))
  {
    OrdinaryStep(x, y);
    StripsTo(x, y, x);
    if x == ";" {
      SplitCut(x, y);
    }
  }

  lemma StripsTo(x: string, y: string, out: string)
    requires StripsOver(Code, x, y, out, Code)
    ensures StripComments(x + y) == Before(out, StripComments(y))
  {
    assert "" + Strip(Code, x + y) == Strip(Code, x + y) && "" + Strip(Code, y) == Strip(Code, y);
  }

  lemma NothingIsEmpty()
    ensures StripComments("") == Ok("") && RawSplit(Code, "") == [""]
  {
    assert "" + "" == "";
  }
}
