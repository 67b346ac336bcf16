/** Validation of import scripts: split, strip, judge each statement. */
module Script {
  import opened Outcomes
  import opened Text
  import opened Scan
  import opened StripLaws
  import opened SplitLaws
  import opened Commute
  import opened Lexer
  import opened LexLaws
  import opened Config
  import opened Guard
  import opened GuardLaws

  datatype ScriptStatement = ScriptStatement(sql: string, mode: Mode, validation: Verdict)

  datatype ScriptValidation = ScriptValidation(statements: seq<ScriptStatement>, tables: seq<string>)

  datatype ScriptError =
    | ScriptRequired
    | LimitNotPositive
    | Unstrippable(statement: nat, strip: StripError)
    | TooMany(statement: nat)
    | NotAllowlisted(statement: nat)
    | Rejected(statement: nat, reason: Option<Reason>)
    | NothingToExecute

  datatype Answer = Answer(validation: ScriptValidation, error: Option<ScriptError>)

  function OperationOf(sql: string): string {
    match Lex(sql)
    case Err(_) => ""
    case Ok(ts) => Operation(ts)
  }

  function ScriptMode(op: string): Option<Mode> {
    if IsDMLOperation(op) then Some(DML) else if IsDDLOperation(op) then Some(DDL) else None
  }

  function Add(v: ScriptValidation, sql: string, mode: Mode, verdict: Verdict): ScriptValidation {
    ScriptValidation(v.statements + [ScriptStatement(sql, mode, verdict)], AppendUnique(v.tables, verdict.tables))
  }

  // What the loop makes of one raw statement: it stops, passes over a blank
  // one, or goes on with what it has built.
  datatype Round = Stop(error: ScriptError) | Skip | Next(validation: ScriptValidation)

  function OneRound(raw: string, v: ScriptValidation, n: nat, cfg: ConnectionConfig, max: int): Round {
    match StripComments(raw)
    case Err(e) => Stop(Unstrippable(n + 1, e))
    case Ok(x) =>
      var s := Trim(x);
      if s == "" then Skip
      else if n + 1 > max then Stop(TooMany(n + 1))
      else
        match ScriptMode(OperationOf(s))
        case None => Stop(NotAllowlisted(n + 1))
        case Some(mode) =>
          var verdict := Validate(s, cfg, mode);
          if !verdict.valid then Stop(Rejected(n + 1, verdict.reason)) else Next(Add(v, s, mode, verdict))
  }

  // The loop over the raw statements, with what it has built after n of them.
  function ScriptLoop(raws: seq<string>, v: ScriptValidation, n: nat, cfg: ConnectionConfig, max: int): Answer {
    if raws == [] then
      Answer(v, if v.statements == [] then Some(NothingToExecute) else None)
    else
      match OneRound(raws[0], v, n, cfg, max)
      case Stop(error) => Answer(v, Some(error))
      case Skip => ScriptLoop(raws[1..], v, n, cfg, max)
      case Next(w) => ScriptLoop(raws[1..], w, n + 1, cfg, max)
  }

  const NO_STATEMENTS := ScriptValidation([], [])

  function ScriptAnswer(script: string, cfg: ConnectionConfig, max: int): Answer {
    if Trim(script) == "" then Answer(NO_STATEMENTS, Some(ScriptRequired))
    else if max <= 0 then Answer(NO_STATEMENTS, Some(LimitNotPositive))
    else ScriptLoop(Split(script), NO_STATEMENTS, 0, cfg, max)
  }

  // The answer when the loop has built v of n statements and is at statement i.
  function ScriptFrom(v: ScriptValidation, raws: seq<string>, i: nat, n: nat, cfg: ConnectionConfig, max: int): Answer
    requires i <= |raws|
  {
    ScriptLoop(raws[i..], v, n, cfg, max)
  }

  lemma ScriptFromRound(v: ScriptValidation, raws: seq<string>, i: nat, n: nat, cfg: ConnectionConfig, max: int)
    requires i < |raws|
    ensures ScriptFrom(v, raws, i, n, cfg, max) ==
      var r := OneRound(raws[i], v, n, cfg, max);
      if r.Stop? then Answer(v, Some(r.error))
      else if r.Skip? then ScriptFrom(v, raws, i + 1, n, cfg, max)
      else ScriptFrom(r.validation, raws, i + 1, n + 1, cfg, max)
  {
    assert raws[i..][1..] == raws[i + 1..];
  }

  // One raw statement: the body of the loop.
  method ValidateStatement(raw: string, result: ScriptValidation, statementNumber: nat, cfg: ConnectionConfig,
                           maxStatements: int)
    returns (r: Round)
    ensures r == OneRound(raw, result, statementNumber, cfg, maxStatements)
  {
    var stripped := StripSQLComments(raw);
    if stripped.Err? {
      return Stop(Unstrippable(statementNumber + 1, stripped.error));
    }
    var statement := Trim(stripped.value);
    if statement == "" {
      return Skip;
    }
    if statementNumber + 1 > maxStatements {
      return Stop(TooMany(statementNumber + 1));
    }
    var mode := ScriptMode(OperationOf(statement));
    if mode.None? {
      return Stop(NotAllowlisted(statementNumber + 1));
    }
    var validation := Validate(statement, cfg, mode.value);
    if !validation.valid {
      return Stop(Rejected(statementNumber + 1, validation.reason));
    }
    var tables := AppendUniqueTables(result.tables, validation.tables);
    return Next(ScriptValidation(result.statements + [ScriptStatement(statement, mode.value, validation)], tables));
  }

  // One round of the loop, at raw statement i.
  method NextStatement(raws: seq<string>, i: nat, result: ScriptValidation, statementNumber: nat,
                       cfg: ConnectionConfig, maxStatements: int, ghost answer: Answer)
    returns (next: ScriptValidation, number: nat, stop: Option<ScriptError>)
    requires i < |raws| && ScriptFrom(result, raws, i, statementNumber, cfg, maxStatements) == answer
    ensures stop.None? ==> ScriptFrom(next, raws, i + 1, number, cfg, maxStatements) == answer
    ensures stop.Some? ==> Answer(next, stop) == answer
  {
    ScriptFromRound(result, raws, i, statementNumber, cfg, maxStatements);
    var round := ValidateStatement(raws[i], result, statementNumber, cfg, maxStatements);
    match round
    case Stop(error) => return result, statementNumber, Some(error);
    case Skip => return result, statementNumber, None;
    case Next(validation) => return validation, statementNumber + 1, None;
  }

  // The loop over the raw statements.
  method ValidateStatements(raws: seq<string>, cfg: ConnectionConfig, maxStatements: int)
    returns (result: ScriptValidation, error: Option<ScriptError>)
    ensures Answer(result, error) == ScriptFrom(NO_STATEMENTS, raws, 0, 0, cfg, maxStatements)
  {
    result := NO_STATEMENTS;
    var statementNumber := 0;
    var i := 0;
    ghost var answer := ScriptFrom(result, raws, i, statementNumber, cfg, maxStatements);
    while i < |raws|
      invariant i <= |raws|
      invariant ScriptFrom(result, raws, i, statementNumber, cfg, maxStatements) == answer
    {
      result, statementNumber, error := NextStatement(raws, i, result, statementNumber, cfg, maxStatements, answer);
      if error.Some? {
        return;
      }
      i := i + 1;
    }
    error := if |result.statements| == 0 then Some(NothingToExecute) else None;
  }

  method ValidateScript(script: string, cfg: ConnectionConfig, maxStatements: int)
    returns (result: ScriptValidation, error: Option<ScriptError>)
    ensures Answer(result, error) == ScriptAnswer(script, cfg, maxStatements)
  {
    if Trim(script) == "" {
      return NO_STATEMENTS, Some(ScriptRequired);
    }
    if maxStatements <= 0 {
      return NO_STATEMENTS, Some(LimitNotPositive);
    }
    var raws := SplitStatements(script);
    assert raws[0..] == raws;
    result, error := ValidateStatements(raws, cfg, maxStatements);
  }

  // -------------------------------------------------------------- acceptance

  // A statement is accepted in the mode of its leading keyword.
  predicate StatementAccepted(s: string, cfg: ConnectionConfig) {
    var mode := ScriptMode(OperationOf(s));
    mode.Some? && Validate(s, cfg, mode.value).valid
  }

  function Judged(s: string, cfg: ConnectionConfig): ScriptStatement
    requires StatementAccepted(s, cfg)
  {
    var mode := ScriptMode(OperationOf(s)).value;
    ScriptStatement(s, mode, Validate(s, cfg, mode))
  }

  function JudgedAll(xs: seq<string>, cfg: ConnectionConfig): (r: seq<ScriptStatement>)
    requires forall x | x in xs :: StatementAccepted(x, cfg)
    ensures |r| == |xs| && forall i | 0 <= i < |xs| :: r[i] == Judged(xs[i], cfg)
  {
    seq(|xs|, i requires 0 <= i < |xs| => Judged(xs[i], cfg))
  }

  function AllTables(statements: seq<ScriptStatement>): seq<string> {
    if statements == [] then [] else statements[0].validation.tables + AllTables(statements[1..])
  }

  predicate Accepts(xs: seq<string>, n: nat, cfg: ConnectionConfig, max: int) {
    n + |xs| <= max && forall x | x in xs :: StatementAccepted(x, cfg)
  }

  // What the loop adds to v when it accepts the executable statements xs.
  function AddAll(v: ScriptValidation, xs: seq<string>, cfg: ConnectionConfig): ScriptValidation
    requires forall x | x in xs :: StatementAccepted(x, cfg)
  {
    ScriptValidation(v.statements + JudgedAll(xs, cfg), AppendUnique(v.tables, AllTables(JudgedAll(xs, cfg))))
  }

  lemma AddAllStep(v: ScriptValidation, x: string, xs: seq<string>, cfg: ConnectionConfig)
    requires StatementAccepted(x, cfg) && forall y | y in xs :: StatementAccepted(y, cfg)
    ensures
      var s := Judged(x, cfg);
      AddAll(Add(v, x, s.mode, s.validation), xs, cfg) == AddAll(v, [x] + xs, cfg)
  {
    var s, rest := Judged(x, cfg), JudgedAll(xs, cfg);
    JudgedAllStep(x, xs, cfg);
    AllTablesStep(s, rest);
    Associate(v.statements, [s], rest);
    AppendUniqueConcat(v.tables, s.validation.tables, AllTables(rest));
  }

  lemma JudgedAllStep(x: string, xs: seq<string>, cfg: ConnectionConfig)
    requires StatementAccepted(x, cfg) && forall y | y in xs :: StatementAccepted(y, cfg)
    ensures JudgedAll([x] + xs, cfg) == [Judged(x, cfg)] + JudgedAll(xs, cfg)
  {
  }

  lemma AllTablesStep(s: ScriptStatement, rest: seq<ScriptStatement>)
    ensures AllTables([s] + rest) == s.validation.tables + AllTables(rest)
  {
    assert ([s] + rest)[1..] == rest;
  }

  lemma TidyStep(x: string, xs: seq<string>)
    ensures Tidy([x] + xs) == if Trim(x) == "" then Tidy(xs) else [Trim(x)] + Tidy(xs)
  {
    assert ([x] + xs)[1..] == xs;
  }

  // When one round goes on, and with what.
  lemma RoundAccepts(raw: string, v: ScriptValidation, n: nat, cfg: ConnectionConfig, max: int)
    requires StripComments(raw).Ok?
    ensures
      var s, r := Trim(StripComments(raw).value), OneRound(raw, v, n, cfg, max);
      if s == "" then r == Skip
      else if n < max && StatementAccepted(s, cfg) then
        r == Next(Add(v, s, Judged(s, cfg).mode, Judged(s, cfg).validation))
      else r.Stop?
  {
  }

  // The executable statements xs are accepted after n others, and the answer
  // adds them to v.
  predicate AnswerFor(answer: Answer, v: ScriptValidation, xs: seq<string>, n: nat, cfg: ConnectionConfig, max: int) {
    && (answer.error.None? <==> Accepts(xs, n, cfg, max) && 0 < n + |xs|)
    && (answer.error.None? ==> answer.validation == AddAll(v, xs, cfg))
  }

  lemma AnswerStep(answer: Answer, v: ScriptValidation, x: string, xs: seq<string>, n: nat,
                   cfg: ConnectionConfig, max: int)
    requires StatementAccepted(x, cfg) && n < max
    requires AnswerFor(answer, Add(v, x, Judged(x, cfg).mode, Judged(x, cfg).validation), xs, n + 1, cfg, max)
    ensures AnswerFor(answer, v, [x] + xs, n, cfg, max)
  {
    if Accepts(xs, n + 1, cfg, max) {
      AddAllStep(v, x, xs, cfg);
    }
    assert Accepts([x] + xs, n, cfg, max) ==> Accepts(xs, n + 1, cfg, max) by {
      assert forall y | y in xs :: y in [x] + xs;
    }
  }

  lemma NotAccepted(x: string, xs: seq<string>, n: nat, cfg: ConnectionConfig, max: int)
    requires !(n < max && StatementAccepted(x, cfg))
    ensures !Accepts([x] + xs, n, cfg, max)
  {
    assert x in [x] + xs;
  }

  lemma AddNone(v: ScriptValidation, cfg: ConnectionConfig)
    ensures AddAll(v, [], cfg) == v
  {
    assert JudgedAll([], cfg) == [];
    assert v.statements + [] == v.statements;
  }

  lemma {:induction false} LoopAccepts(raws: seq<string>, v: ScriptValidation, n: nat, cfg: ConnectionConfig, max: int)
    requires n == |v.statements| && n <= max
    ensures
      var answer, xs := ScriptLoop(raws, v, n, cfg, max), StripAll(raws);
      if xs.Ok? then AnswerFor(answer, v, Tidy(xs.value), n, cfg, max) else answer.error.Some?
  {
    if raws == [] {
      AddNone(v, cfg);
    } else if StripComments(raws[0]).Ok? {
      var s := Trim(StripComments(raws[0]).value);
      var rest := StripAll(raws[1..]);
      RoundAccepts(raws[0], v, n, cfg, max);
      if rest.Ok? {
        TidyStep(StripComments(raws[0]).value, rest.value);
      }
      if s == "" {
        LoopAccepts(raws[1..], v, n, cfg, max);
      } else if n < max && StatementAccepted(s, cfg) {
        var w := Add(v, s, Judged(s, cfg).mode, Judged(s, cfg).validation);
        LoopAccepts(raws[1..], w, n + 1, cfg, max);
        if rest.Ok? {
          AnswerStep(ScriptLoop(raws[1..], w, n + 1, cfg, max), v, s, Tidy(rest.value), n, cfg, max);
        }
      } else if rest.Ok? {
        NotAccepted(s, Tidy(rest.value), n, cfg, max);
      }
    }
  }

  // A script is accepted exactly when every statement of it can be stripped,
  // the number of those that are not blank is between one and the limit, and
  // each is accepted in the mode of its leading keyword. Then the answer lists
  // them in order, with the duplicate-free union of their tables.
  lemma ScriptIsAccepted(script: string, cfg: ConnectionConfig, max: int)
    ensures
      var answer, xs := ScriptAnswer(script, cfg, max), Executables(script);
      && (answer.error.None? <==>
            xs.Ok? && 1 <= |xs.value| <= max && forall x | x in xs.value :: StatementAccepted(x, cfg))
      && (answer.error.None? ==>
            && answer.validation.statements == JudgedAll(xs.value, cfg)
            && answer.validation.tables == AppendUnique([], AllTables(answer.validation.statements)))
  {
    if max > 0 {
      LoopAccepts(Split(script), NO_STATEMENTS, 0, cfg, max);
    }
    if Trim(script) == "" {
      BlankScript(script);
    }
    if ScriptAnswer(script, cfg, max).error.None? {
      var js := JudgedAll(Executables(script).value, cfg);
      assert [] + js == js;
    }
  }

  lemma BlankScript(script: string)
    requires Trim(script) == ""
    ensures Split(script) == [] && Executables(script) == Ok([])
  {
    var lead, trail := TrimParts(script);
    assert script == lead + trail && script == (lead + trail) + "";
    SplitOverSpaces(lead + trail, "");
    assert RawSplit(Code, "") == [""] && Push(script, [""]) == [script];
    assert [script][1..] == [] && Split(script) == Tidy([script]);
  }

  // Widening the policy never turns an accepted script into a rejected one,
  // and changes nothing in the answer.
  lemma ScriptGuardIsMonotone(script: string, c: ConnectionConfig, d: ConnectionConfig)
    requires Wider(c, d) && c.maxScriptStatements <= d.maxScriptStatements
    requires ScriptAnswer(script, c, c.maxScriptStatements).error.None?
    ensures ScriptAnswer(script, d, d.maxScriptStatements) == ScriptAnswer(script, c, c.maxScriptStatements)
  {
    ScriptIsAccepted(script, c, c.maxScriptStatements);
    ScriptIsAccepted(script, d, d.maxScriptStatements);
    var xs := Executables(script).value;
    forall x | x in xs
      ensures StatementAccepted(x, d) && Judged(x, d) == Judged(x, c)
    {
      GuardIsMonotone(x, c, d, ScriptMode(OperationOf(x)).value);
    }
    assert JudgedAll(xs, d) == JudgedAll(xs, c);
  }

  // ------------------------------------- what is validated is what was written

  // The tokens that are not semicolons.
  function Significant(ts: seq<Token>): seq<Token> {
    if ts == [] then []
    else (if ts[0] == SEMICOLON then [] else [ts[0]]) + Significant(ts[1..])
  }

  // The significant tokens of statements, one after the other.
  function TokensOfAll(xs: seq<string>): seq<Token> {
    if xs == [] then [] else Significant(TokensOf(xs[0])) + TokensOfAll(xs[1..])
  }

  lemma {:induction false} SignificantConcat(ts: seq<Token>, us: seq<Token>)
    ensures Significant(ts + us) == Significant(ts) + Significant(us)
  {
    if ts == [] {
      assert ts + us == us;
    } else {
      CutAppend(ts, 1, us);
      SignificantConcat(ts[1..], us);
      Associate(if ts[0] == SEMICOLON then [] else [ts[0]], Significant(ts[1..]), Significant(us));
    }
  }

  // Trimming a text keeps its tokens; a blank text has none.
  lemma TrimmedTokens(x: string)
    requires Lex(Trim(x)).Ok?
    ensures Lex(x) == Ok(TokensOf(x)) && TokensOf(Trim(x)) == TokensOf(x)
    ensures Trim(x) == "" ==> TokensOf(x) == []
  {
    LexTrimmed(x);
    var lead, trail := TrimParts(x);
    TrimIsIdentityWhenTrimmed(Trim(x));
  }

  lemma {:induction false} TidyTokens(xs: seq<string>)
    requires forall x | x in xs :: Lex(Trim(x)).Ok?
    ensures TokensOfAll(Tidy(xs)) == TokensOfAll(xs)
  {
    if xs != [] {
      TidyTokens(xs[1..]);
      TrimmedTokens(xs[0]);
      if Trim(xs[0]) == "" {
        assert Tidy(xs) == Tidy(xs[1..]);
        assert Significant([]) + TokensOfAll(xs[1..]) == TokensOfAll(xs[1..]);
      } else {
        assert Tidy(xs)[0] == Trim(xs[0]) && Tidy(xs)[1..] == Tidy(xs[1..]);
      }
    }
  }

  // The tokens of texts joined by semicolons.
  lemma {:induction false} JoinedTokens(xs: seq<string>)
    requires xs != [] && forall x | x in xs :: Lex(Trim(x)).Ok?
    ensures Lex(Join(xs)).Ok? && Significant(Lex(Join(xs)).value) == TokensOfAll(xs)
  {
    TrimmedTokens(xs[0]);
    var ts := TokensOf(xs[0]);
    if |xs| == 1 {
      assert xs[1..] == [] && Significant(ts) + [] == Significant(ts);
    } else {
      JoinedTokens(xs[1..]);
      TokensAroundSemicolon(xs[0], Join(xs[1..]));
    }
  }

  lemma TokensAroundSemicolon(x: string, y: string)
    requires Lex(x).Ok? && Lex(y).Ok?
    ensures Lex(x + ";" + y).Ok?
    ensures Significant(Lex(x + ";" + y).value) == Significant(Lex(x).value) + Significant(Lex(y).value)
  {
    LexConcat(x, ";" + y);
    LexSemicolon(y);
    Associate(x, ";", y);
    SemicolonIsInsignificant(Lex(x).value, Lex(y).value);
  }

  lemma SemicolonIsInsignificant(ts: seq<Token>, us: seq<Token>)
    ensures Significant(ts + ([SEMICOLON] + us)) == Significant(ts) + Significant(us)
  {
    SignificantConcat(ts, [SEMICOLON] + us);
    assert ([SEMICOLON] + us)[1..] == us;
  }

  lemma {:induction false} TidyHasAll(xs: seq<string>, x: string)
    requires x in xs && Trim(x) != ""
    ensures Trim(x) in Tidy(xs)
  {
    if xs[0] != x {
      TidyHasAll(xs[1..], x);
    }
  }

  lemma AcceptedPieces(script: string, cfg: ConnectionConfig, max: int) returns (stripped: seq<string>)
    requires ScriptAnswer(script, cfg, max).error.None?
    ensures StripAll(RawSplit(Code, script)) == Ok(stripped)
    ensures Executables(script) == Ok(Tidy(stripped))
    ensures forall x | x in stripped :: Lex(Trim(x)).Ok?
  {
    ScriptIsAccepted(script, cfg, max);
    TidyBeforeStripping(RawSplit(Code, script));
    stripped := StripAll(RawSplit(Code, script)).value;
    forall x | x in stripped
      ensures Lex(Trim(x)).Ok?
    {
      if Trim(x) != "" {
        TidyHasAll(stripped, x);
        AcceptedIsLexed(Trim(x), cfg);
      }
    }
  }

  lemma AcceptedIsLexed(t: string, cfg: ConnectionConfig)
    requires StatementAccepted(t, cfg)
    ensures Lex(t).Ok?
  {
    assert ScriptMode(OperationOf(t)).Some?;
  }

  // Where every cut is at top level, an accepted script has, semicolons apart,
  // exactly the tokens of the statements that were judged, in their order:
  // comments are white space, and nothing is lost, added or split differently.
  lemma AcceptedScriptTokens(script: string, cfg: ConnectionConfig, max: int)
    requires ScriptAnswer(script, cfg, max).error.None? && CutsAtTopLevel(script)
    ensures RefLex(Code, script).Ok? && Executables(script).Ok?
    ensures Significant(RefLex(Code, script).value) == TokensOfAll(Executables(script).value)
  {
    var stripped := AcceptedPieces(script, cfg, max);
    TopLevelStrips(script);
    JoinedTokens(stripped);
    TidyTokens(stripped);
    StrippingPreservesTokens(script);
  }

  // So it is with any script in step that can be stripped.
  lemma AcceptedInStepTokens(script: string, cfg: ConnectionConfig, max: int)
    requires ScriptAnswer(script, cfg, max).error.None? && StripComments(script).Ok?
    requires InStep(Code, script)
    ensures RefLex(Code, script).Ok? && Executables(script).Ok?
    ensures Significant(RefLex(Code, script).value) == TokensOfAll(Executables(script).value)
  {
    InStepCutsAtTopLevel(script);
    AcceptedScriptTokens(script, cfg, max);
  }

  lemma TopLevelStrips(script: string)
    requires CutsAtTopLevel(script) && StripAll(RawSplit(Code, script)).Ok?
    ensures StripComments(script) == Ok(Join(StripAll(RawSplit(Code, script)).value))
  {
    var pieces := RawSplit(Code, script);
    SplitIsLossless(Code, script);
    TopLevelCuts(pieces);
    if !Closed(StripEnd(Code, script)) {
      EndOfLastPiece(pieces);
    }
    PiecewiseStripping(script);
    assert "" + Strip(Code, script) == Strip(Code, script);
  }
}
