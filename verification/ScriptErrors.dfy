/** Where the validation of a script stops, and what its error says. */
module ScriptErrors {
  import opened Outcomes
  import opened Text
  import opened Scan
  import opened Commute
  import opened Lexer
  import opened Config
  import opened Guard
  import opened GuardLaws
  import opened Readings
  import opened Script

  // The first word of a statement.
  predicate BeginsWith(s: string, word: string) {
    Lex(s).Ok? && Says(Lex(s).value, 0, word)
  }

  predicate BeginsDML(s: string) {
    BeginsWith(s, "insert") || BeginsWith(s, "update") || BeginsWith(s, "delete")
  }

  predicate BeginsDDL(s: string) {
    BeginsWith(s, "create") || BeginsWith(s, "alter") || BeginsWith(s, "drop") || BeginsWith(s, "truncate")
  }

  // The mode of a statement in a script, by its first word.
  lemma ModeByFirstWord(s: string)
    ensures ScriptMode(OperationOf(s)) == Some(DML) <==> BeginsDML(s)
    ensures ScriptMode(OperationOf(s)) == Some(DDL) <==> BeginsDDL(s)
    ensures ScriptMode(OperationOf(s)).None? <==> !BeginsDML(s) && !BeginsDDL(s)
  {
    var words := ["insert", "update", "delete", "create", "alter", "drop", "truncate"];
    forall k | 0 <= k < 7
      ensures OperationOf(s) == words[k] <==> BeginsWith(s, words[k])
    {
    }
  }

  // The number that an error gives its statement.
  function NumberOf(e: ScriptError): int {
    match e
    case Unstrippable(n, _) => n
    case TooMany(n) => n
    case NotAllowlisted(n) => n
    case Rejected(n, _) => n
    case _ => 0
  }

  // Why the piece at which validation stops has error e: it cannot be stripped, or
  // it is one statement too many, does not begin with an allowed word, or is
  // rejected in its mode, for this reason.
  predicate Faulty(piece: string, e: ScriptError, cfg: ConnectionConfig, max: int) {
    match e
    case Unstrippable(_, error) => StripComments(piece) == Err(error)
    case ScriptRequired => false
    case LimitNotPositive => false
    case NothingToExecute => false
    case _ =>
      && StripComments(piece).Ok?
      && var s := Trim(StripComments(piece).value);
         && s != "" && (e.TooMany? <==> NumberOf(e) > max)
         && (e.NotAllowlisted? ==> !BeginsDML(s) && !BeginsDDL(s))
         && (e.Rejected? ==>
               && (BeginsDML(s) || BeginsDDL(s))
               && var v := Validate(s, cfg, if BeginsDML(s) then DML else DDL);
                  !v.valid && e.reason == v.reason)
  }

  // After n statements, the pieces before i are all accepted, as so many more.
  predicate AcceptedBefore(pieces: seq<string>, i: nat, more: nat, cfg: ConnectionConfig) {
    && i <= |pieces| && StripAll(pieces[..i]).Ok?
    && var xs := Tidy(StripAll(pieces[..i]).value);
       |xs| == more && forall x | x in xs :: StatementAccepted(x, cfg)
  }

  // Validation stops at piece i with error e: those before are accepted, the error
  // counts them, and the piece is faulty.
  predicate StopsAt(pieces: seq<string>, i: nat, n: nat, e: ScriptError, cfg: ConnectionConfig, max: int) {
    && i < |pieces| && 0 <= NumberOf(e) - n - 1
    && AcceptedBefore(pieces, i, NumberOf(e) - n - 1, cfg) && Faulty(pieces[i], e, cfg, max)
  }

  lemma RoundStops(raw: string, v: ScriptValidation, n: nat, cfg: ConnectionConfig, max: int)
    requires OneRound(raw, v, n, cfg, max).Stop?
    ensures
      var e := OneRound(raw, v, n, cfg, max).error;
      NumberOf(e) == n + 1 && Faulty(raw, e, cfg, max)
  {
    if StripComments(raw).Ok? {
      ModeByFirstWord(Trim(StripComments(raw).value));
    }
  }

  lemma AcceptedOneMore(piece: string, pieces: seq<string>, i: nat, more: nat, cfg: ConnectionConfig)
    requires AcceptedBefore(pieces, i, more, cfg) && StripComments(piece).Ok?
    requires
      var s := Trim(StripComments(piece).value);
      s != "" ==> StatementAccepted(s, cfg)
    ensures
      var s := Trim(StripComments(piece).value);
      AcceptedBefore([piece] + pieces, i + 1, more + (if s == "" then 0 else 1), cfg)
  {
    var all := [piece] + pieces;
    assert all[..i + 1] == [piece] + pieces[..i];
    StripAllStep(piece, pieces[..i]);
    TidyStep(StripComments(piece).value, StripAll(pieces[..i]).value);
  }

  lemma StripAllStep(piece: string, pieces: seq<string>)
    requires StripComments(piece).Ok? && StripAll(pieces).Ok?
    ensures StripAll([piece] + pieces) == Ok([StripComments(piece).value] + StripAll(pieces).value)
  {
    assert ([piece] + pieces)[1..] == pieces;
  }

  lemma {:induction false} LoopStops(pieces: seq<string>, v: ScriptValidation, n: nat, cfg: ConnectionConfig, max: int)
    returns (i: nat)
    requires ScriptLoop(pieces, v, n, cfg, max).error.Some?
    requires ScriptLoop(pieces, v, n, cfg, max).error != Some(NothingToExecute)
    ensures StopsAt(pieces, i, n, ScriptLoop(pieces, v, n, cfg, max).error.value, cfg, max)
  {
    var piece, rest := pieces[0], pieces[1..];
    var round := OneRound(piece, v, n, cfg, max);
    if round.Stop? {
      RoundStops(piece, v, n, cfg, max);
      i := 0;
      assert pieces[..0] == [];
    } else {
      RoundAccepts(piece, v, n, cfg, max);
      var k := LoopStops(rest, if round.Skip? then v else round.validation, if round.Skip? then n else n + 1, cfg, max);
      i := k + 1;
      StopsLater(pieces, k, n, ScriptLoop(pieces, v, n, cfg, max).error.value, cfg, max);
    }
  }

  lemma StopsLater(pieces: seq<string>, k: nat, n: nat, e: ScriptError, cfg: ConnectionConfig, max: int)
    requires pieces != [] && StripComments(pieces[0]).Ok?
    requires
      var s := Trim(StripComments(pieces[0]).value);
      (s != "" ==> StatementAccepted(s, cfg)) && StopsAt(pieces[1..], k, n + (if s == "" then 0 else 1), e, cfg, max)
    ensures StopsAt(pieces, k + 1, n, e, cfg, max)
  {
    var s := Trim(StripComments(pieces[0]).value);
    AcceptedOneMore(pieces[0], pieces[1..], k, NumberOf(e) - n - 1 - (if s == "" then 0 else 1), cfg);
    assert pieces == [pieces[0]] + pieces[1..];
  }

  // The error of a script that is not accepted gives the number of the first
  // statement, blank ones apart, that is at fault, and says why. Those before it
  // were accepted.
  lemma FirstFaultIsTold(script: string, cfg: ConnectionConfig, max: int) returns (i: nat)
    requires Trim(script) != "" && max > 0
    requires
      var error := ScriptAnswer(script, cfg, max).error;
      error.Some? && error != Some(NothingToExecute)
    ensures StopsAt(Split(script), i, 0, ScriptAnswer(script, cfg, max).error.value, cfg, max)
  {
    i := LoopStops(Split(script), NO_STATEMENTS, 0, cfg, max);
  }

  // The other errors are of the whole script: it is blank, the limit is not
  // positive, or everything in it is a comment or blank.
  lemma WholeScriptErrors(script: string, cfg: ConnectionConfig, max: int)
    ensures
      var error := ScriptAnswer(script, cfg, max).error;
      && (error == Some(ScriptRequired) <==> Trim(script) == "")
      && (error == Some(LimitNotPositive) <==> Trim(script) != "" && max <= 0)
      && (error == Some(NothingToExecute) <==> Trim(script) != "" && max > 0 && Executables(script) == Ok([]))
  {
    if Trim(script) != "" && max > 0 {
      LoopFindsNothing(Split(script), NO_STATEMENTS, 0, cfg, max);
    }
  }

  // Everything can be stripped, and is blank then.
  predicate NothingIn(pieces: seq<string>) {
    StripAll(pieces).Ok? && Tidy(StripAll(pieces).value) == []
  }

  lemma NothingInMore(pieces: seq<string>)
    requires pieces != []
    ensures NothingIn(pieces) <==>
      StripComments(pieces[0]).Ok? && Trim(StripComments(pieces[0]).value) == "" && NothingIn(pieces[1..])
  {
    assert pieces == [pieces[0]] + pieces[1..];
    if StripComments(pieces[0]).Ok? && StripAll(pieces[1..]).Ok? {
      StripAllStep(pieces[0], pieces[1..]);
      TidyStep(StripComments(pieces[0]).value, StripAll(pieces[1..]).value);
    }
  }

  predicate FindsNothing(error: Option<ScriptError>, nothing: bool) {
    && (nothing ==> error == Some(NothingToExecute))
    && (error.Some? ==> !error.value.ScriptRequired? && !error.value.LimitNotPositive?
                        && (error.value.NothingToExecute? ==> nothing))
  }

  lemma {:induction false} LoopFindsNothing(pieces: seq<string>, v: ScriptValidation, n: nat, cfg: ConnectionConfig,
                                            max: int)
    requires |v.statements| == n
    ensures
      FindsNothing(ScriptLoop(pieces, v, n, cfg, max).error, n == 0 && NothingIn(pieces))
  {
    if pieces == [] {
      assert NothingIn([]);
    } else {
      var round := OneRound(pieces[0], v, n, cfg, max);
      NothingInMore(pieces);
      RoundIsBlank(pieces[0], v, n, cfg, max);
      LoopStep(pieces, v, n, cfg, max, round);
      if round.Skip? {
        LoopFindsNothing(pieces[1..], v, n, cfg, max);
      } else if round.Next? {
        LoopFindsNothing(pieces[1..], round.validation, n + 1, cfg, max);
      }
    }
  }

  lemma LoopStep(pieces: seq<string>, v: ScriptValidation, n: nat, cfg: ConnectionConfig, max: int, round: Round)
    requires pieces != [] && round == OneRound(pieces[0], v, n, cfg, max)
    ensures ScriptLoop(pieces, v, n, cfg, max) ==
      match round
      case Stop(error) => Answer(v, Some(error))
      case Skip => ScriptLoop(pieces[1..], v, n, cfg, max)
      case Next(w) => ScriptLoop(pieces[1..], w, n + 1, cfg, max)
  {
  }

  // A round goes on without a statement exactly when there is none.
  lemma RoundIsBlank(raw: string, v: ScriptValidation, n: nat, cfg: ConnectionConfig, max: int)
    ensures
      var r := OneRound(raw, v, n, cfg, max);
      && (r.Skip? <==> StripComments(raw).Ok? && Trim(StripComments(raw).value) == "")
      && (r.Next? ==> |r.validation.statements| == |v.statements| + 1)
      && (r.Stop? ==> !r.error.ScriptRequired? && !r.error.LimitNotPositive? && !r.error.NothingToExecute?)
  {
    if StripComments(raw).Ok? {
      RoundAccepts(raw, v, n, cfg, max);
    }
  }

  // The statements of an accepted script are those that are not blank, in order;
  // each has the mode of its first word, and its own verdict in that mode.
  lemma AcceptedByFirstWord(script: string, cfg: ConnectionConfig, max: int)
    requires ScriptAnswer(script, cfg, max).error.None?
    ensures
      var answer, xs := ScriptAnswer(script, cfg, max).validation.statements, Executables(script);
      && xs.Ok? && |answer| == |xs.value|
      && forall k | 0 <= k < |answer| ::
           && answer[k].sql == xs.value[k]
           && (answer[k].mode == if BeginsDML(xs.value[k]) then DML else DDL)
           && (BeginsDML(xs.value[k]) || BeginsDDL(xs.value[k]))
           && answer[k].validation == Validate(xs.value[k], cfg, answer[k].mode)
  {
    ScriptIsAccepted(script, cfg, max);
    var xs := Executables(script).value;
    forall k | 0 <= k < |xs|
      ensures StatementAccepted(xs[k], cfg) && Judged(xs[k], cfg).mode == if BeginsDML(xs[k]) then DML else DDL
      ensures BeginsDML(xs[k]) || BeginsDDL(xs[k])
    {
      ModeByFirstWord(xs[k]);
    }
  }
}
