/** The two character scanners of the SQL guard: the statement splitter and the
    comment stripper. Each is an automaton with one rune of lookahead; they
    agree on comments but not on quotes, exactly as the program has them. */
module Scan {
  import opened Outcomes
  import opened Text

  // Where a scanner is: in code, in a string literal, in a quoted identifier,
  // in a line comment or in a block comment.
  datatype State = Code | Single | Double | Line | Block {
    predicate Comment() { Line? || Block? }
  }

  // The state after the runes just consumed, and how many they were.
  datatype Move = Move(next: State, width: nat)

  predicate Pair(s: string, a: char, b: char) {
    |s| > 1 && s[0] == a && s[1] == b
  }

  // What both scanners do inside a comment and where one opens.
  function CommentMove(st: State, s: string): Option<Move>
    requires s != ""
  {
    match st
    case Line => Some(Move(if s[0] == '\n' then Code else Line, 1))
    case Block => Some(if Pair(s, '*', '/') then Move(Code, 2) else Move(Block, 1))
    case Code =>
      if Pair(s, '-', '-') then Some(Move(Line, 2))
      else if Pair(s, '/', '*') then Some(Move(Block, 2))
      else None
    case _ => None
  }

  // ---------------------------------------------------------------- stripper

  function StripMove(st: State, s: string): (m: Move)
    requires s != ""
    ensures 1 <= m.width <= |s| && m.width <= 2
  {
    match CommentMove(st, s)
    case Some(m) => m
    case None =>
      match st
      case Single =>
        if s[0] == '\\' && |s| > 1 then Move(Single, 2)
        else if s[0] != '\'' then Move(Single, 1)
        else if Pair(s, '\'', '\'') then Move(Single, 2)
        else Move(Code, 1)
      case Double =>
        if s[0] != '"' then Move(Double, 1)
        else if Pair(s, '"', '"') then Move(Double, 2)
        else Move(Code, 1)
      case _ =>
        Move(if s[0] == '\'' then Single else if s[0] == '"' then Double else Code, 1)
  }

  function Erase(comment: bool, c: char): char {
    if comment && c != '\n' then ' ' else c
  }

  function Blanked(s: string): (r: string)
    ensures |r| == |s|
  {
    seq(|s|, i requires 0 <= i < |s| => Erase(true, s[i]))
  }

  // What the stripper writes for the runes of one move.
  function Emit(st: State, m: Move, s: string): (r: string)
    requires m.width <= |s|
    ensures |r| == m.width
  {
    if st.Comment() || m.next.Comment() then Blanked(s[..m.width]) else s[..m.width]
  }

  function Strip(st: State, s: string): (r: string)
    decreases |s|
  {
    if s == "" then ""
    else
      var m := StripMove(st, s);
      Emit(st, m, s) + Strip(m.next, s[m.width..])
  }

  function StripEnd(st: State, s: string): State
    decreases |s|
  {
    if s == "" then st
    else
      var m := StripMove(st, s);
      StripEnd(m.next, s[m.width..])
  }

  datatype StripError = OpenBlock | OpenString | OpenIdentifier

  function StripVerdict(end: State): Option<StripError> {
    match end
    case Block => Some(OpenBlock)
    case Single => Some(OpenString)
    case Double => Some(OpenIdentifier)
    case _ => None
  }

  // A script may end in code or in a line comment, and nowhere else.
  predicate Closed(st: State) {
    st.Code? || st.Line?
  }

  // The stripper's answer when it has written w and goes on in state st with s.
  function StripFrom(w: string, st: State, s: string): Result<string, StripError> {
    match StripVerdict(StripEnd(st, s))
    case Some(e) => Err(e)
    case None => Ok(w + Strip(st, s))
  }

  function StripComments(s: string): Result<string, StripError> {
    StripFrom("", Code, s)
  }

  // The four flags of the loops, as one state.
  ghost predicate FlagsAre(st: State, inSingle: bool, inDouble: bool, inLine: bool, inBlock: bool) {
    && inSingle == st.Single? && inDouble == st.Double? && inLine == st.Line? && inBlock == st.Block?
  }

  // One round of the loop takes the stripper from (w, st, i) to (w', st', i').
  lemma StripRound(w: string, st: State, s: string, i: nat, w': string, st': State, i': nat)
    requires i < i' <= |s|
    requires StripMove(st, s[i..]) == Move(st', i' - i)
    requires
      var comment := st.Comment() || st'.Comment();
      if i' == i + 1 then w' == w + [Erase(comment, s[i])]
      else w' == w + [Erase(comment, s[i])] + [Erase(comment, s[i + 1])]
    ensures StripFrom(w, st, s[i..]) == StripFrom(w', st', s[i'..])
  {
    var m := StripMove(st, s[i..]);
    assert s[i..][m.width..] == s[i'..];
    var emitted, rest := Emit(st, m, s[i..]), Strip(st', s[i'..]);
    assert w + (emitted + rest) == w + emitted + rest;
    assert w + emitted == w';
  }

  method StripSQLComments(sql: string) returns (r: Result<string, StripError>)
    ensures r == StripComments(sql)
  {
    var result := "";
    var inSingle, inDouble, inLineComment, inBlockComment := false, false, false, false;
    ghost var st := Code;
    var i := 0;
    assert sql[0..] == sql;
    while i < |sql|
      invariant i <= |sql|
      invariant FlagsAre(st, inSingle, inDouble, inLineComment, inBlockComment)
      invariant StripFrom(result, st, sql[i..]) == StripComments(sql)
    {
      var ch := sql[i];
      var next := if i + 1 < |sql| then sql[i + 1] else '\0';
      ghost var m := StripMove(st, sql[i..]);
      ghost var w, j := result, i;

      if inLineComment {
        if ch == '\n' {
          result := result + [ch];
          inLineComment := false;
        } else {
          result := result + " ";
        }
      } else if inBlockComment {
        if ch == '*' && next == '/' {
          result := result + " " + " ";
          i := i + 1;
          inBlockComment := false;
        } else if ch == '\n' {
          result := result + [ch];
        } else {
          result := result + " ";
        }
      } else if !inSingle && !inDouble && ch == '-' && next == '-' {
        result := result + " " + " ";
        i := i + 1;
        inLineComment := true;
      } else if !inSingle && !inDouble && ch == '/' && next == '*' {
        result := result + " " + " ";
        i := i + 1;
        inBlockComment := true;
      } else if inSingle {
        result := result + [ch];
        if ch == '\\' && i + 1 < |sql| {
          result := result + [sql[i + 1]];
          i := i + 1;
        } else if ch == '\'' {
          if next == '\'' {
            result := result + [next];
            i := i + 1;
          } else {
            inSingle := false;
          }
        }
      } else if inDouble {
        result := result + [ch];
        if ch == '"' {
          if next == '"' {
            result := result + [next];
            i := i + 1;
          } else {
            inDouble := false;
          }
        }
      } else {
        if ch == '\'' {
          inSingle := true;
        } else if ch == '"' {
          inDouble := true;
        }
        result := result + [ch];
      }
      i := i + 1;
      StripRound(w, st, sql, j, result, m.next, i);
      st := m.next;
    }
    assert sql[i..] == "" && result + "" == result;
    if inBlockComment {
      return Err(OpenBlock);
    }
    if inSingle {
      return Err(OpenString);
    }
    if inDouble {
      return Err(OpenIdentifier);
    }
    return Ok(result);
  }

  // ---------------------------------------------------------------- splitter

  function SplitMove(st: State, s: string): (m: Move)
    requires s != ""
    ensures 1 <= m.width <= |s| && m.width <= 2
  {
    match CommentMove(st, s)
    case Some(m) => m
    case None =>
      match st
      case Single => Move(if s[0] == '\'' then Code else Single, 1)
      case Double => Move(if s[0] == '"' then Code else Double, 1)
      case _ =>
        // a literal that opens with two quotes stays open
        if s[0] == '\'' then Move(Single, if Pair(s, '\'', '\'') then 2 else 1)
        else Move(if s[0] == '"' then Double else Code, 1)
  }

  predicate Cuts(st: State, s: string) {
    s != "" && st.Code? && s[0] == ';'
  }

  // Put x in front of the first piece.
  function Push(x: string, pieces: seq<string>): (r: seq<string>)
    requires pieces != []
    ensures |r| == |pieces| && r[0] == x + pieces[0] && r[1..] == pieces[1..]
  {
    [x + pieces[0]] + pieces[1..]
  }

  // The pieces between the semicolons that the splitter sees in code.
  function RawSplit(st: State, s: string): (pieces: seq<string>)
    ensures pieces != []
    decreases |s|
  {
    if s == "" then [""]
    else if Cuts(st, s) then [""] + RawSplit(Code, s[1..])
    else
      var m := SplitMove(st, s);
      Push(s[..m.width], RawSplit(m.next, s[m.width..]))
  }

  function SplitEnd(st: State, s: string): State
    decreases |s|
  {
    if s == "" then st
    else
      var m := SplitMove(st, s);
      SplitEnd(m.next, s[m.width..])
  }

  // Pieces trimmed, blank ones dropped.
  function Tidy(pieces: seq<string>): seq<string> {
    if pieces == [] then []
    else (if Trim(pieces[0]) == "" then [] else [Trim(pieces[0])]) + Tidy(pieces[1..])
  }

  function Split(s: string): seq<string> {
    Tidy(RawSplit(Code, s))
  }

  method AddStatement(statements: seq<string>, sql: string) returns (r: seq<string>)
    ensures r == statements + Tidy([sql])
  {
    var trimmed := Trim(sql);
    r := if trimmed != "" then statements + [trimmed] else statements;
  }

  // The splitter's answer when it has finished the statements done, has written
  // w of the next one and goes on in state st with s.
  function SplitFrom(done: seq<string>, w: string, st: State, s: string): seq<string> {
    done + Tidy(Push(w, RawSplit(st, s)))
  }

  // One round of the loop takes it from (done, w, st, i) to (done', w', st', i').
  lemma SplitRound(done: seq<string>, w: string, st: State, s: string, i: nat,
                   done': seq<string>, w': string, st': State, i': nat)
    requires i < i' <= |s|
    requires SplitMove(st, s[i..]) == Move(st', i' - i)
    requires
      if Cuts(st, s[i..]) then done' == done + Tidy([w]) && w' == ""
      else done' == done && w' == if i' == i + 1 then w + [s[i]] else w + [s[i]] + [s[i + 1]]
    ensures SplitFrom(done, w, st, s[i..]) == SplitFrom(done', w', st', s[i'..])
  {
    assert s[i..][i' - i..] == s[i'..];
    if Cuts(st, s[i..]) {
      SplitRoundCut(done, w, st, s[i..]);
    } else {
      assert w + s[i..][..i' - i] == w';
      SplitRoundMove(done, w, st, s[i..]);
    }
  }

  lemma SplitRoundCut(done: seq<string>, w: string, st: State, s: string)
    requires Cuts(st, s)
    ensures SplitFrom(done, w, st, s) == SplitFrom(done + Tidy([w]), "", Code, s[1..])
  {
    var pieces := RawSplit(Code, s[1..]);
    CutPieces(w, pieces);
    PushNothing(pieces);
    assert done + (Tidy([w]) + Tidy(pieces)) == done + Tidy([w]) + Tidy(pieces);
  }

  lemma SplitRoundMove(done: seq<string>, w: string, st: State, s: string)
    requires s != "" && !Cuts(st, s)
    ensures
      var m := SplitMove(st, s);
      SplitFrom(done, w, st, s) == SplitFrom(done, w + s[..m.width], m.next, s[m.width..])
  {
    var m := SplitMove(st, s);
    PushPush(w, s[..m.width], RawSplit(m.next, s[m.width..]));
  }

  method SplitStatements(sql: string) returns (statements: seq<string>)
    ensures statements == Split(sql)
  {
    statements := [];
    var current := "";
    var inSingle, inDouble, inLineComment, inBlockComment := false, false, false, false;
    ghost var st := Code;
    var i := 0;
    PushNothing(RawSplit(Code, sql));
    assert [] + Split(sql) == Split(sql);
    assert sql[0..] == sql;
    while i < |sql|
      invariant i <= |sql|
      invariant FlagsAre(st, inSingle, inDouble, inLineComment, inBlockComment)
      invariant SplitFrom(statements, current, st, sql[i..]) == Split(sql)
    {
      var ch := sql[i];
      var next := if i + 1 < |sql| then sql[i + 1] else '\0';
      ghost var done, w, j, m := statements, current, i, SplitMove(st, sql[i..]);

      if inLineComment {
        current := current + [ch];
        if ch == '\n' {
          inLineComment := false;
        }
      } else if inBlockComment {
        current := current + [ch];
        if ch == '*' && next == '/' {
          current := current + [next];
          i := i + 1;
          inBlockComment := false;
        }
      } else if !inSingle && !inDouble && ch == '-' && next == '-' {
        current := current + [ch] + [next];
        i := i + 1;
        inLineComment := true;
      } else if !inSingle && !inDouble && ch == '/' && next == '*' {
        current := current + [ch] + [next];
        i := i + 1;
        inBlockComment := true;
      } else if ch == '\'' && !inDouble {
        inSingle := !inSingle;
        current := current + [ch];
        if inSingle && next == '\'' {
          current := current + [next];
          i := i + 1;
        }
      } else if ch == '"' && !inSingle {
        inDouble := !inDouble;
        current := current + [ch];
      } else if ch == ';' && !inSingle && !inDouble {
        statements := AddStatement(statements, current);
        current := "";
      } else {
        current := current + [ch];
      }
      i := i + 1;
      SplitRound(done, w, st, sql, j, statements, current, m.next, i);
      st := m.next;
    }
    assert sql[i..] == "" && current + "" == current;
    assert Push(current, [""]) == [current];
    statements := AddStatement(statements, current);
  }

  lemma PushNothing(pieces: seq<string>)
    requires pieces != []
    ensures Push("", pieces) == pieces
  {
    assert "" + pieces[0] == pieces[0];
  }

  lemma PushPush(x: string, y: string, pieces: seq<string>)
    requires pieces != []
    ensures Push(x, Push(y, pieces)) == Push(x + y, pieces)
  {
    assert x + (y + pieces[0]) == x + y + pieces[0];
  }

  lemma CutPieces(x: string, pieces: seq<string>)
    requires pieces != []
    ensures Tidy(Push(x, [""] + pieces)) == Tidy([x]) + Tidy(pieces)
  {
    assert Push(x, [""] + pieces) == [x] + pieces by {
      assert x + "" == x;
    }
    assert ([x] + pieces)[1..] == pieces;
    assert [x][1..] == [];
  }
}
