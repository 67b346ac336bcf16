/** Script validation is blind to the case of letters outside quotes. */
module ScriptCase {
  import opened Outcomes
  import opened Text
  import opened Scan
  import opened StripLaws
  import opened SplitLaws
  import opened Commute
  import opened Lexer
  import opened LexLaws
  import opened Config
  import opened Guard
  import opened CaseLaws
  import opened Script

  // ------------------------------------------------------------- alike texts

  // Two texts, read from code or a comment, that differ only in the case of
  // letters outside quotes.
  predicate AlikeText(st: State, a: string, b: string)
    requires st.Code? || st.Comment()
    decreases |a|
  {
    |a| == |b| &&
    (a == "" ||
     if st.Code? && Verbatim(a) > 0 then
       var n := Verbatim(a);
       a[..n] == b[..n] && AlikeText(Code, a[n..], b[n..])
     else
       var m := StripMove(st, a);
       EqualFold(a[..m.width], b[..m.width]) && AlikeText(m.next, a[m.width..], b[m.width..]))
  }

  lemma FoldParts(a: string, b: string, n: nat)
    requires n <= |a| == |b| && EqualFold(a[..n], b[..n]) && EqualFold(a[n..], b[n..])
    ensures EqualFold(a, b)
  {
    FoldConcat(a[..n], a[n..], b[..n], b[n..]);
    assert a == a[..n] + a[n..] && b == b[..n] + b[n..];
  }

  lemma {:induction false} AlikeFolds(st: State, a: string, b: string)
    requires (st.Code? || st.Comment()) && AlikeText(st, a, b)
    ensures EqualFold(a, b)
    decreases |a|
  {
    if a != "" {
      if st.Code? && Verbatim(a) > 0 {
        AlikeFolds(Code, a[Verbatim(a)..], b[Verbatim(a)..]);
        FoldParts(a, b, Verbatim(a));
      } else {
        var m := StripMove(st, a);
        AlikeFolds(m.next, a[m.width..], b[m.width..]);
        FoldParts(a, b, m.width);
      }
    }
  }

  // ------------------------------------------------------- stripping is blind

  lemma SameStripMove(st: State, x: string, y: string)
    requires x != "" && EqualFold(x, y)
    ensures |x| == |y| && StripMove(st, x) == StripMove(st, y)
  {
    SameRune(x, y, 0);
    if |x| > 1 {
      SameRune(x, y, 1);
    }
  }

  lemma {:induction false} SameStripEnd(st: State, x: string, y: string)
    requires EqualFold(x, y)
    ensures StripEnd(st, x) == StripEnd(st, y)
    decreases |x|
  {
    assert |ToLower(x)| == |ToLower(y)|;
    if x != "" {
      SameStripMove(st, x, y);
      var m := StripMove(st, x);
      SameRest(x, y, m.width);
      SameStripEnd(m.next, x[m.width..], y[m.width..]);
    }
  }

  predicate StartsQuoted(s: string) {
    s != "" && (s[0] == '\'' || s[0] == '"')
  }

  // A quoted lexeme is the same before texts that begin alike.
  lemma QuotedBefore(a: string, y: string)
    requires StartsQuoted(a) && ReadLexeme(a).Ok?
    requires
      var rest := a[ReadLexeme(a).value.width..];
      y == "" || (rest != "" && (Lower(y[0]) == Lower(rest[0]) || y[0] == ' '))
    ensures
      var n := Verbatim(a);
      0 < n == ReadLexeme(a).value.width && Verbatim(a[..n] + y) == n && ReadLexeme(a[..n] + y) == ReadLexeme(a)
  {
    LexemeEnds(a);
    if y != "" && y[0] != ' ' {
      SameClass(y[0], a[Verbatim(a)..][0]);
    }
    LexemeStable(a, y);
  }

  lemma FoldOverQuoted(a: string, y: string)
    requires StartsQuoted(a) && ReadLexeme(a).Ok?
    requires
      var rest := a[ReadLexeme(a).value.width..];
      y == "" || (rest != "" && (Lower(y[0]) == Lower(rest[0]) || y[0] == ' '))
    ensures FoldCase(a[..Verbatim(a)] + y) == a[..Verbatim(a)] + FoldCase(y)
  {
    var n := Verbatim(a);
    QuotedBefore(a, y);
    assert (a[..n] + y)[..n] == a[..n] && (a[..n] + y)[n..] == y;
  }

  // Stripping and folding over a quoted lexeme.
  lemma StripFoldQuoted(a: string)
    requires StartsQuoted(a) && Closed(StripEnd(Code, a))
    ensures
      var n := Verbatim(a);
      && ReadLexeme(a).Ok? && n == ReadLexeme(a).value.width > 0
      && Closed(StripEnd(Code, a[n..]))
      && FoldCase(Strip(Code, a)) == a[..n] + FoldCase(Strip(Code, a[n..]))
  {
    StripOverQuotes(a);
    var n := Verbatim(a);
    StripErasesInPlace(Code, a[n..]);
    FoldOverQuoted(a, Strip(Code, a[n..]));
  }

  // Stripping and folding over a move outside quotes.
  lemma StripFoldMove(st: State, a: string)
    requires a != "" && (st.Comment() || (st.Code? && !StartsQuoted(a)))
    ensures
      var m := StripMove(st, a);
      FoldCase(Strip(st, a)) == ToLower(Emit(st, m, a)) + FoldCase(Strip(m.next, a[m.width..]))
  {
    var m := StripMove(st, a);
    FoldPlain(Emit(st, m, a), Strip(m.next, a[m.width..]));
  }

  lemma SameEmit(st: State, m: Move, a: string, b: string)
    requires m.width <= |a| && m.width <= |b| && EqualFold(a[..m.width], b[..m.width])
    ensures ToLower(Emit(st, m, a)) == ToLower(Emit(st, m, b))
  {
    forall i | 0 <= i < m.width
      ensures Lower(a[i]) == Lower(b[i])
    {
      SameRune(a[..m.width], b[..m.width], i);
    }
  }

  lemma SameQuoted(a: string, b: string)
    requires StartsQuoted(a) && ReadLexeme(a).Ok? && EqualFold(a, b) && |a| == |b|
    requires a[..Verbatim(a)] == b[..Verbatim(a)]
    ensures StartsQuoted(b) && ReadLexeme(b) == ReadLexeme(a) && Verbatim(b) == Verbatim(a)
  {
    var n := Verbatim(a);
    assert b[0] == b[..n][0] == a[..n][0] == a[0];
    if n < |a| {
      SameRune(a, b, n);
    }
    QuotedBefore(a, b[n..]);
    assert a[..n] + b[n..] == b;
  }

  lemma {:induction false} StrippedQuotedAlike(a: string, b: string)
    requires StartsQuoted(a) && |a| == |b| && a[..Verbatim(a)] == b[..Verbatim(a)] && EqualFold(a, b)
    requires Closed(StripEnd(Code, a)) && Closed(StripEnd(Code, b))
    requires FoldCase(Strip(Code, a[Verbatim(a)..])) == FoldCase(Strip(Code, b[Verbatim(a)..]))
    ensures FoldCase(Strip(Code, a)) == FoldCase(Strip(Code, b))
  {
    StripFoldQuoted(a);
    SameQuoted(a, b);
    StripFoldQuoted(b);
  }

  lemma {:induction false} StrippedMoveAlike(st: State, a: string, b: string)
    requires a != "" && EqualFold(a, b) && |a| == |b| && (st.Comment() || (st.Code? && !StartsQuoted(a)))
    requires
      var m := StripMove(st, a);
      && EqualFold(a[..m.width], b[..m.width])
      && FoldCase(Strip(m.next, a[m.width..])) == FoldCase(Strip(m.next, b[m.width..]))
    ensures FoldCase(Strip(st, a)) == FoldCase(Strip(st, b))
  {
    SameRune(a, b, 0);
    SameStripMove(st, a, b);
    StripFoldMove(st, a);
    StripFoldMove(st, b);
    SameEmit(st, StripMove(st, a), a, b);
  }

  lemma {:induction false} StrippedAlike(st: State, a: string, b: string)
    requires (st.Code? || st.Comment()) && AlikeText(st, a, b) && Closed(StripEnd(st, a))
    ensures FoldCase(Strip(st, a)) == FoldCase(Strip(st, b))
    decreases |a|
  {
    AlikeFolds(st, a, b);
    SameStripEnd(st, a, b);
    if a != "" {
      if st.Code? && StartsQuoted(a) {
        var n := Verbatim(a);
        StripFoldQuoted(a);
        StrippedAlike(Code, a[n..], b[n..]);
        StrippedQuotedAlike(a, b);
      } else {
        var m := StripMove(st, a);
        StrippedAlike(m.next, a[m.width..], b[m.width..]);
        StrippedMoveAlike(st, a, b);
      }
    }
  }

  // Alike texts are refused alike, or give texts that fold alike.
  predicate StripAlike(x: Result<string, StripError>, y: Result<string, StripError>) {
    if x.Ok? then y.Ok? && FoldCase(x.value) == FoldCase(y.value) else y == x
  }

  lemma AlikeAreStrippedAlike(a: string, b: string)
    requires AlikeText(Code, a, b)
    ensures StripAlike(StripComments(a), StripComments(b))
  {
    AlikeFolds(Code, a, b);
    SameStripEnd(Code, a, b);
    assert "" + Strip(Code, a) == Strip(Code, a) && "" + Strip(Code, b) == Strip(Code, b);
    if Closed(StripEnd(Code, a)) {
      StrippedAlike(Code, a, b);
    }
  }

  // --------------------------------------------------------------- one round

  predicate SameStatement(s: ScriptStatement, t: ScriptStatement) {
    s.mode == t.mode && s.validation == t.validation && FoldCase(s.sql) == FoldCase(t.sql)
  }

  predicate SameValidation(v: ScriptValidation, w: ScriptValidation) {
    && |v.statements| == |w.statements| && v.tables == w.tables
    && forall k | 0 <= k < |v.statements| :: SameStatement(v.statements[k], w.statements[k])
  }

  // The same error and, but for the case of letters, the same statements.
  predicate SameAnswer(x: Answer, y: Answer) {
    x.error == y.error && SameValidation(x.validation, y.validation)
  }

  predicate SameRound(x: Round, y: Round) {
    if x.Next? then y.Next? && SameValidation(x.validation, y.validation) else y == x
  }

  lemma FoldedOperation(s: string)
    ensures OperationOf(FoldCase(s)) == OperationOf(s)
  {
    LexFolds(s);
    if Lex(s).Ok? && Lex(s).value != [] {
      var t := Lex(s).value[0];
      assert ToLower(ToLower(t.text)) == ToLower(t.text);
    }
  }

  // Statements that fold alike are judged alike.
  lemma FoldedStatements(x: string, y: string, cfg: ConnectionConfig)
    requires FoldCase(x) == FoldCase(y)
    ensures FoldCase(Trim(x)) == FoldCase(Trim(y)) && (Trim(x) == "" <==> Trim(y) == "")
    ensures OperationOf(Trim(x)) == OperationOf(Trim(y))
    ensures forall mode :: Validate(Trim(x), cfg, mode) == Validate(Trim(y), cfg, mode)
  {
    FoldTrim(x);
    FoldTrim(y);
    FoldedOperation(Trim(x));
    FoldedOperation(Trim(y));
    assert |FoldCase(Trim(x))| == |Trim(x)| && |FoldCase(Trim(y))| == |Trim(y)|;
    forall mode
      ensures Validate(Trim(x), cfg, mode) == Validate(Trim(y), cfg, mode)
    {
      CaseIsInvisible(Trim(x), Trim(y), cfg, mode);
    }
  }

  lemma AddsAlike(v: ScriptValidation, w: ScriptValidation, x: string, y: string, mode: Mode, verdict: Verdict)
    requires SameValidation(v, w) && FoldCase(x) == FoldCase(y)
    ensures SameValidation(Add(v, x, mode, verdict), Add(w, y, mode, verdict))
  {
  }

  lemma RoundsAlike(a: string, b: string, v: ScriptValidation, w: ScriptValidation, n: nat,
                    cfg: ConnectionConfig, max: int)
    requires AlikeText(Code, a, b) && SameValidation(v, w)
    ensures SameRound(OneRound(a, v, n, cfg, max), OneRound(b, w, n, cfg, max))
  {
    AlikeAreStrippedAlike(a, b);
    if StripComments(a).Ok? {
      var x, y := StripComments(a).value, StripComments(b).value;
      FoldedStatements(x, y, cfg);
      var mode := ScriptMode(OperationOf(Trim(x)));
      if mode.Some? {
        AddsAlike(v, w, Trim(x), Trim(y), mode.value, Validate(Trim(x), cfg, mode.value));
      }
    }
  }

  // ---------------------------------------------------------------- the loop

  // Trimming a piece first, or dropping a blank one, does not change its round.
  lemma RoundTrimmed(p: string, v: ScriptValidation, n: nat, cfg: ConnectionConfig, max: int)
    ensures OneRound(Trim(p), v, n, cfg, max) == OneRound(p, v, n, cfg, max)
    ensures Trim(p) == "" ==> OneRound(p, v, n, cfg, max) == Skip
  {
    StripTrimmed(p);
    assert "" + Strip(Code, p) == Strip(Code, p);
    assert "" + Strip(Code, Trim(p)) == Strip(Code, Trim(p));
    if Trim(p) == "" {
      assert Strip(Code, "") == "" && Trim("") == "";
    }
  }

  lemma {:induction false} LoopOverRaw(ps: seq<string>, v: ScriptValidation, n: nat, cfg: ConnectionConfig, max: int)
    ensures ScriptLoop(Tidy(ps), v, n, cfg, max) == ScriptLoop(ps, v, n, cfg, max)
  {
    if ps != [] {
      RoundTrimmed(ps[0], v, n, cfg, max);
      TidyStep(ps[0], ps[1..]);
      assert ps == [ps[0]] + ps[1..];
      match OneRound(ps[0], v, n, cfg, max)
      case Stop(_) =>
      case Skip => LoopOverRaw(ps[1..], v, n, cfg, max);
      case Next(w) => LoopOverRaw(ps[1..], w, n + 1, cfg, max);
    }
  }

  predicate AlikePieces(ps: seq<string>, qs: seq<string>) {
    |ps| == |qs| && forall k | 0 <= k < |ps| :: AlikeText(Code, ps[k], qs[k])
  }

  lemma {:induction false} LoopsAlike(ps: seq<string>, qs: seq<string>, v: ScriptValidation, w: ScriptValidation,
                                      n: nat, cfg: ConnectionConfig, max: int)
    requires AlikePieces(ps, qs) && SameValidation(v, w)
    ensures SameAnswer(ScriptLoop(ps, v, n, cfg, max), ScriptLoop(qs, w, n, cfg, max))
  {
    if ps != [] {
      RoundsAlike(ps[0], qs[0], v, w, n, cfg, max);
      match OneRound(ps[0], v, n, cfg, max)
      case Stop(_) =>
      case Skip => LoopsAlike(ps[1..], qs[1..], v, w, n, cfg, max);
      case Next(x) =>
        LoopsAlike(ps[1..], qs[1..], x, OneRound(qs[0], w, n, cfg, max).validation, n + 1, cfg, max);
    }
  }

  lemma {:induction false} JoinsFold(ps: seq<string>, qs: seq<string>)
    requires ps != [] && AlikePieces(ps, qs)
    ensures EqualFold(Join(ps), Join(qs))
  {
    AlikeFolds(Code, ps[0], qs[0]);
    if |ps| > 1 {
      JoinsFold(ps[1..], qs[1..]);
      FoldConcat(ps[0], ";", qs[0], ";");
      FoldConcat(ps[0] + ";", Join(ps[1..]), qs[0] + ";", Join(qs[1..]));
    }
  }

  // Scripts whose pieces, as the splitter cuts them, differ only in the case of
  // letters outside quotes get the same answer: the same error, or statements of
  // the same modes, verdicts and tables.
  lemma CaseOfPiecesIsInvisible(a: string, b: string, cfg: ConnectionConfig, max: int)
    requires AlikePieces(RawSplit(Code, a), RawSplit(Code, b))
    ensures SameAnswer(ScriptAnswer(a, cfg, max), ScriptAnswer(b, cfg, max))
  {
    var ps, qs := RawSplit(Code, a), RawSplit(Code, b);
    SplitIsLossless(Code, a);
    SplitIsLossless(Code, b);
    JoinsFold(ps, qs);
    SameBlank(a, b);
    LoopOverRaw(ps, NO_STATEMENTS, 0, cfg, max);
    LoopOverRaw(qs, NO_STATEMENTS, 0, cfg, max);
    LoopsAlike(ps, qs, NO_STATEMENTS, NO_STATEMENTS, 0, cfg, max);
  }

  // ------------------------------------------------------------ whole scripts

  // A quoted lexeme of x is one of x;y.
  lemma QuotedInFront(x: string, y: string)
    requires StartsQuoted(x) && Closed(StripEnd(Code, x))
    ensures
      var n := Verbatim(x);
      && 0 < n <= |x| && StripEnd(Code, x) == StripEnd(Code, x[n..])
      && StartsQuoted(x + ";" + y) && Verbatim(x + ";" + y) == n
  {
    StripFoldQuoted(x);
    StripOverQuotes(x);
    TextInFront(x, y, Verbatim(x));
    QuotedGoesOn(x, x[Verbatim(x)..] + (";" + y));
  }

  lemma QuotedGoesOn(x: string, z: string)
    requires StartsQuoted(x) && ReadLexeme(x).Ok? && z != ""
    requires
      var n := ReadLexeme(x).value.width;
      z[0] == if n < |x| then x[n..][0] else ';'
    ensures Verbatim(x[..Verbatim(x)] + z) == Verbatim(x)
  {
    LexemeEnds(x);
    LexemeStable(x, z);
  }

  lemma TextInFront(x: string, y: string, n: nat)
    requires 0 < n <= |x|
    ensures x + ";" + y == x[..n] + (x[n..] + (";" + y)) && (x + ";" + y)[0] == x[0]
    ensures (x[n..] + (";" + y))[0] == if n < |x| then x[n..][0] else ';'
  {
    Associate(x, ";", y);
    CutAppend(x, n, ";" + y);
  }

  lemma MoveInFront(st: State, x: string, y: string)
    requires x != "" && (st.Comment() || (st.Code? && !StartsQuoted(x)))
    ensures StripMove(st, x + ";" + y) == StripMove(st, x) && (x + ";" + y)[0] == x[0]
  {
    Associate(x, ";", y);
    MoveConcat(st, x, ";" + y);
  }

  lemma CutBoth(x: string, y: string, n: nat)
    requires n <= |x|
    ensures (x + ";" + y)[..n] == x[..n] && (x + ";" + y)[n..] == x[n..] + ";" + y
  {
  }

  // What is alike before and after a semicolon that the stripper sees in code.
  lemma {:induction false} AlikeApart(st: State, x: string, y: string, x': string, y': string)
    requires (st.Code? || st.Comment()) && |x| == |x'| && AlikeText(st, x + ";" + y, x' + ";" + y')
    requires StripEnd(st, x) == Code
    ensures AlikeText(st, x, x') && AlikeText(Code, y, y')
    decreases |x|
  {
    var s, t := x + ";" + y, x' + ";" + y';
    if x == "" {
      CutBoth("", y, 0);
      assert s[1..] == y && t[1..] == y' && StripMove(Code, s) == Move(Code, 1);
    } else if st.Code? && StartsQuoted(x) {
      QuotedInFront(x, y);
      var n := Verbatim(x);
      CutBoth(x, y, n);
      CutBoth(x', y', n);
      AlikeApart(Code, x[n..], y, x'[n..], y');
    } else {
      MoveInFront(st, x, y);
      var m := StripMove(st, x);
      CutBoth(x, y, m.width);
      CutBoth(x', y', m.width);
      AlikeApart(m.next, x[m.width..], y, x'[m.width..], y');
    }
  }

  lemma {:induction false} AlikeInPieces(ps: seq<string>, qs: seq<string>)
    requires ps != [] && |ps| == |qs| && (forall k | 0 <= k < |ps| :: |ps[k]| == |qs[k]|)
    requires AlikeText(Code, Join(ps), Join(qs)) && EndInCode(ps)
    ensures AlikePieces(ps, qs)
  {
    if |ps| > 1 {
      AlikeApart(Code, ps[0], Join(ps[1..]), qs[0], Join(qs[1..]));
      AlikeInPieces(ps[1..], qs[1..]);
      assert forall k | 0 < k < |ps| :: ps[k] == ps[1..][k - 1] && qs[k] == qs[1..][k - 1];
    }
  }

  // So it is with scripts that are alike as wholes, where every cut is at top
  // level.
  lemma ScriptCaseIsInvisible(a: string, b: string, cfg: ConnectionConfig, max: int)
    requires AlikeText(Code, a, b) && CutsAtTopLevel(a)
    ensures SameAnswer(ScriptAnswer(a, cfg, max), ScriptAnswer(b, cfg, max))
  {
    var ps, qs := RawSplit(Code, a), RawSplit(Code, b);
    AlikeFolds(Code, a, b);
    SameSplit(Code, a, b);
    SplitIsLossless(Code, a);
    SplitIsLossless(Code, b);
    TopLevelCuts(ps);
    forall k | 0 <= k < |ps|
      ensures |ps[k]| == |qs[k]|
    {
      assert |ToLower(ps[k])| == |ToLower(qs[k])|;
    }
    AlikeInPieces(ps, qs);
    CaseOfPiecesIsInvisible(a, b, cfg, max);
  }
}
