/** The splitter loses nothing, and cutting is compositional. */
module SplitLaws {
  import opened Outcomes
  import opened Text
  import opened Scan
  import opened StripLaws

  function Join(pieces: seq<string>): string
    requires pieces != []
  {
    if |pieces| == 1 then pieces[0] else pieces[0] + ";" + Join(pieces[1..])
  }

  lemma JoinPush(x: string, pieces: seq<string>)
    requires pieces != []
    ensures Join(Push(x, pieces)) == x + Join(pieces)
  {
    if |pieces| > 1 {
      assert x + pieces[0] + ";" + Join(pieces[1..]) == x + (pieces[0] + ";" + Join(pieces[1..]));
    }
  }

  // The untrimmed pieces, joined by semicolons, are the script.
  lemma {:induction false} SplitIsLossless(st: State, s: string)
    ensures Join(RawSplit(st, s)) == s
    decreases |s|
  {
    if s == "" {
    } else if Cuts(st, s) {
      var rest := RawSplit(Code, s[1..]);
      SplitIsLossless(Code, s[1..]);
      JoinCut(s, rest);
    } else {
      var m := SplitMove(st, s);
      SplitIsLossless(m.next, s[m.width..]);
      JoinMove(s, m.width, RawSplit(m.next, s[m.width..]));
    }
  }

  lemma JoinMove(s: string, n: nat, rest: seq<string>)
    requires n <= |s| && rest != [] && Join(rest) == s[n..]
    ensures Join(Push(s[..n], rest)) == s
  {
    JoinPush(s[..n], rest);
    assert s == s[..n] + s[n..];
  }

  lemma JoinCut(s: string, rest: seq<string>)
    requires s != "" && s[0] == ';' && rest != [] && Join(rest) == s[1..]
    ensures Join([""] + rest) == s
  {
    assert ([""] + rest)[1..] == rest;
    assert s == "" + ";" + s[1..];
  }

  // The pieces of two texts, the last of the first and the first of the
  // second being one piece.
  function Glue(ps: seq<string>, qs: seq<string>): (r: seq<string>)
    requires ps != [] && qs != []
    ensures |r| == |ps| + |qs| - 1
  {
    ps[..|ps| - 1] + Push(ps[|ps| - 1], qs)
  }

  lemma GluePush(x: string, ps: seq<string>, qs: seq<string>)
    requires ps != [] && qs != []
    ensures Push(x, Glue(ps, qs)) == Glue(Push(x, ps), qs)
  {
    var l, r := Push(x, Glue(ps, qs)), Glue(Push(x, ps), qs);
    if |ps| == 1 {
      assert x + (ps[0] + qs[0]) == x + ps[0] + qs[0];
    } else {
      assert Push(x, ps)[1..] == ps[1..];
      assert forall k | 0 < k < |l| :: l[k] == Glue(ps, qs)[k] == r[k];
    }
  }

  lemma GlueCons(x: string, ps: seq<string>, qs: seq<string>)
    requires ps != [] && qs != []
    ensures [x] + Glue(ps, qs) == Glue([x] + ps, qs)
  {
  }

  lemma SplitMoveConcat(st: State, a: string, b: string)
    requires a != "" && CleanStart(b)
    ensures SplitMove(st, a + b) == SplitMove(st, a)
  {
    var ab := a + b;
    assert ab[0] == a[0];
    if |a| > 1 {
      assert ab[1] == a[1];
    } else {
      assert a == [a[0]];
      assert b != "" ==> ab[1] == b[0];
    }
  }

  // One move: the runes x it consumes, and the rest y.
  lemma SplitStep(st: State, x: string, y: string)
    requires x != "" && !Cuts(st, x + y) && SplitMove(st, x + y).width == |x|
    ensures RawSplit(st, x + y) == Push(x, RawSplit(SplitMove(st, x + y).next, y))
    ensures SplitEnd(st, x + y) == SplitEnd(SplitMove(st, x + y).next, y)
  {
    assert (x + y)[..|x|] == x && (x + y)[|x|..] == y;
  }

  lemma SplitCut(x: string, y: string)
    requires |x| == 1 && x[0] == ';'
    ensures RawSplit(Code, x + y) == [""] + RawSplit(Code, y)
    ensures SplitEnd(Code, x + y) == SplitEnd(Code, y)
  {
    assert (x + y)[0] == ';' && (x + y)[1..] == y;
  }

  lemma {:induction false} SplitConcat(st: State, a: string, b: string)
    requires CleanStart(b)
    ensures RawSplit(st, a + b) == Glue(RawSplit(st, a), RawSplit(SplitEnd(st, a), b))
    ensures SplitEnd(st, a + b) == SplitEnd(SplitEnd(st, a), b)
    decreases |a|
  {
    var tail := RawSplit(SplitEnd(st, a), b);
    if a == "" {
      assert a + b == b;
      PushNothing(tail);
      assert Glue([""], tail) == tail;
    } else {
      SplitMoveConcat(st, a, b);
      var m := SplitMove(st, a);
      var x, rest := a[..m.width], a[m.width..];
      CutAppend(a, m.width, b);
      SplitConcat(m.next, rest, b);
      if Cuts(st, a) {
        SplitCut(x, rest + b);
        GlueCons("", RawSplit(Code, rest), tail);
      } else {
        assert (a + b)[0] == a[0];
        SplitStep(st, x, rest + b);
        GluePush(x, RawSplit(m.next, rest), tail);
      }
    }
  }

  lemma GlueAt(ps: seq<string>, qs: seq<string>)
    requires ps != [] && qs != []
    ensures Glue(ps, qs)[|ps| - 1] == ps[|ps| - 1] + qs[0]
    ensures qs[0] == "" ==> Glue(ps, qs) == ps + qs[1..]
  {
    assert ps[|ps| - 1] + "" == ps[|ps| - 1];
  }

  // Outside code, a semicolon is one more rune of its piece.
  lemma SemicolonIsSwallowed(st: State, x: string, b: string)
    requires st != Code && |x| == 1 && x[0] == ';'
    ensures RawSplit(st, x + b)[0] != ""
  {
    assert (x + b)[0] == ';';
    SplitStep(st, x, b);
  }

  // Cutting two texts joined by a semicolon cuts each of them on its own, exactly
  // when the first ends outside quotes and comments.
  lemma CutsAreCompositional(a: string, b: string)
    ensures RawSplit(Code, a + ";" + b) == RawSplit(Code, a) + RawSplit(Code, b)
      <==> SplitEnd(Code, a) == Code
  {
    var ps, qs, st := RawSplit(Code, a), RawSplit(Code, b), SplitEnd(Code, a);
    var tail := RawSplit(st, ";" + b);
    Associate(a, ";", b);
    SplitConcat(Code, a, ";" + b);
    GlueAt(ps, tail);
    if st == Code {
      SplitCut(";", b);
    } else {
      SemicolonIsSwallowed(st, ";", b);
      assert (ps + qs)[|ps| - 1] == ps[|ps| - 1];
    }
  }

  lemma {:induction false} TidyConcat(ps: seq<string>, qs: seq<string>)
    ensures Tidy(ps + qs) == Tidy(ps) + Tidy(qs)
  {
    if ps == [] {
      assert ps + qs == qs;
    } else {
      CutAppend(ps, 1, qs);
      TidyConcat(ps[1..], qs);
      Associate(if Trim(ps[0]) == "" then [] else [Trim(ps[0])], Tidy(ps[1..]), Tidy(qs));
    }
  }

  // A text that leaves code does so by a quote or a comment mark in its last piece.
  // The last piece has a rune in it, or is the one whose quote or comment was
  // open before.
  predicate LastHasRune(st: State, ps: seq<string>)
    requires ps != []
  {
    !Blank(ps[|ps| - 1]) || (|ps| == 1 && st != Code)
  }

  lemma {:induction false} OpenPieceIsNotBlank(st: State, s: string)
    requires SplitEnd(st, s) != Code
    ensures LastHasRune(st, RawSplit(st, s))
    decreases |s|
  {
    if s == "" {
    } else if Cuts(st, s) {
      OpenPieceIsNotBlank(Code, s[1..]);
      OpenAfterCut(RawSplit(Code, s[1..]), st);
    } else {
      var m := SplitMove(st, s);
      OpenPieceIsNotBlank(m.next, s[m.width..]);
      OpeningHasRune(st, s);
      OpenPushed(s[..m.width], RawSplit(m.next, s[m.width..]), st, m.next);
    }
  }

  lemma OpeningHasRune(st: State, s: string)
    requires s != "" && !Cuts(st, s)
    ensures st == Code && SplitMove(st, s).next != Code ==> !IsSpace(s[..SplitMove(st, s).width][0])
  {
  }

  lemma OpenAfterCut(qs: seq<string>, st: State)
    requires qs != [] && LastHasRune(Code, qs)
    ensures LastHasRune(st, [""] + qs)
  {
  }

  lemma OpenPushed(x: string, qs: seq<string>, st: State, next: State)
    requires qs != [] && x != "" && (st == Code && next != Code ==> !IsSpace(x[0]))
    requires LastHasRune(next, qs)
    ensures LastHasRune(st, Push(x, qs))
  {
    if |qs| == 1 {
      BlankParts(x, qs[0]);
    } else {
      assert Push(x, qs)[1..][|qs| - 2] == qs[|qs| - 1];
    }
  }

  lemma BlankParts(x: string, y: string)
    ensures Blank(x + y) <==> Blank(x) && Blank(y)
  {
    assert forall i | 0 <= i < |x| :: (x + y)[i] == x[i];
    assert forall i | 0 <= i < |y| :: (x + y)[|x| + i] == y[i];
  }

  // A piece that goes on past a semicolon is another statement.
  lemma LongerStatement(p: string, tail: string)
    requires !Blank(p) && tail != "" && tail[0] == ';'
    ensures Trim(p) != "" && Trim(p + tail) != "" && Trim(p + tail) != Trim(p)
  {
    BlankIsTrimmed(p);
    var lead, trail := TrimParts(p);
    var rest := TrimRightPart(tail);
    var core := TrimRight(tail);
    var t := Trim(p) + (trail + core);
    assert core != "" && core[0] == ';' by {
      assert !IsSpace(tail[0]) && tail == core + rest;
      assert core != "" ==> core[0] == tail[0];
    }
    assert p + tail == lead + t + rest;
    assert t[0] == Trim(p)[0] && t[|t| - 1] == core[|core| - 1];
    TrimUnique(lead, t, rest);
  }

  // Where the first text ends in a quote or a comment, its last statement runs
  // over the semicolon.
  lemma LastStatementRunsOver(a: string, b: string)
    requires SplitEnd(Code, a) != Code
    ensures Split(a + ";" + b) != Split(a) + Split(b)
  {
    var ps, st := RawSplit(Code, a), SplitEnd(Code, a);
    var init, last := ps[..|ps| - 1], ps[|ps| - 1];
    var tail := RawSplit(st, ";" + b);
    Associate(a, ";", b);
    SplitConcat(Code, a, ";" + b);
    OpenPieceIsNotBlank(Code, a);
    SemicolonStartsPiece(st, b);
    LongerStatement(last, tail[0]);
    assert ps == init + [last];
    TidyConcat(init, [last]);
    TidyConcat(init, Push(last, tail));
    assert [last][1..] == [] && Tidy([last]) == [Trim(last)];
    var i := |Tidy(init)|;
    assert Split(a)[i] == Trim(last) && (Split(a) + Split(b))[i] == Trim(last);
    assert Split(a + ";" + b)[i] == Tidy(Push(last, tail))[0] == Trim(last + tail[0]);
  }

  lemma SemicolonStartsPiece(st: State, b: string)
    requires st != Code
    ensures RawSplit(st, ";" + b)[0] != "" && RawSplit(st, ";" + b)[0][0] == ';'
  {
    assert (";" + b)[0] == ';';
    SplitStep(st, ";", b);
  }

  // Splitting two texts joined by a semicolon gives the statements of the first
  // and then those of the second, exactly when the first ends outside quotes and
  // comments.
  lemma SplitIsCompositional(a: string, b: string)
    ensures Split(a + ";" + b) == Split(a) + Split(b) <==> SplitEnd(Code, a) == Code
  {
    CutsAreCompositional(a, b);
    if SplitEnd(Code, a) == Code {
      TidyConcat(RawSplit(Code, a), RawSplit(Code, b));
    } else {
      LastStatementRunsOver(a, b);
    }
  }

  // No semicolon of s is seen in code.
  predicate NoCut(st: State, s: string) {
    |RawSplit(st, s)| == 1
  }

  lemma NoCutIsOnePiece(st: State, s: string)
    requires NoCut(st, s)
    ensures RawSplit(st, s) == [s]
  {
    SplitIsLossless(st, s);
  }

  lemma {:induction false} NoCutPrefix(st: State, s: string, n: nat)
    requires NoCut(st, s) && n <= |s|
    ensures NoCut(st, s[..n])
    decreases |s|
  {
    if n == 1 {
      assert s[..n][0] == s[0] && s[..n][1..] == "";
    } else if n > 1 {
      var m := SplitMove(st, s);
      NoCutPrefix(m.next, s[m.width..], n - m.width);
      NoCutLonger(st, s, n);
    }
  }

  lemma {:induction false} NoCutLonger(st: State, s: string, n: nat)
    requires 1 < n <= |s| && !Cuts(st, s)
    requires NoCut(SplitMove(st, s).next, s[SplitMove(st, s).width..][..n - SplitMove(st, s).width])
    ensures NoCut(st, s[..n])
  {
    var p, w := s[..n], SplitMove(st, s).width;
    assert p[0] == s[0] && p[1] == s[1];
    assert p[w..] == s[w..][..n - w];
  }

  // Every piece is free of cuts when read from code.
  lemma {:induction false} PiecesHaveNoCut(st: State, s: string, k: nat)
    requires k < |RawSplit(st, s)|
    ensures NoCut(if k == 0 then st else Code, RawSplit(st, s)[k])
    decreases |s|
  {
    var ps := RawSplit(st, s);
    if s == "" {
    } else if Cuts(st, s) {
      if k > 0 {
        PiecesHaveNoCut(Code, s[1..], k - 1);
      }
    } else {
      var m := SplitMove(st, s);
      var qs := RawSplit(m.next, s[m.width..]);
      PiecesHaveNoCut(m.next, s[m.width..], k);
      if k == 0 {
        PieceIsPrefix(st, s);
        PrefixMove(st, s, ps[0]);
        SplitStep(st, s[..m.width], qs[0]);
      } else {
        assert ps[k] == ps[1..][k - 1] == qs[1..][k - 1];
      }
    }
  }

  // The first piece is the text up to its end or to a semicolon.
  lemma {:induction false} PieceIsPrefix(st: State, s: string)
    ensures RawSplit(st, s)[0] <= s
    ensures RawSplit(st, s)[0] == s || s[|RawSplit(st, s)[0]|] == ';'
    decreases |s|
  {
    if s != "" && !Cuts(st, s) {
      var m := SplitMove(st, s);
      PieceIsPrefix(m.next, s[m.width..]);
      assert s == s[..m.width] + s[m.width..];
    }
  }

  // A move does not depend on what follows the piece it is in.
  lemma PrefixMove(st: State, s: string, p: string)
    requires s != "" && !Cuts(st, s) && SplitMove(st, s).width <= |p| && p <= s
    requires p == s || s[|p|] == ';'
    ensures !Cuts(st, p) && SplitMove(st, p) == SplitMove(st, s)
  {
    assert p[0] == s[0] && (|p| > 1 ==> p[1] == s[1]);
  }

  lemma {:induction false} NoCutAfterBlanks(lead: string, s: string)
    requires Blank(lead) && NoCut(Code, lead + s)
    ensures NoCut(Code, s)
  {
    if lead == "" {
      assert lead + s == s;
    } else {
      var t := lead + s;
      assert t[1..] == lead[1..] + s;
      assert SplitMove(Code, t) == Move(Code, 1);
      NoCutAfterBlanks(lead[1..], s);
    }
  }

  lemma {:induction false} TidyMember(ps: seq<string>, t: string) returns (k: nat)
    requires t in Tidy(ps)
    ensures k < |ps| && t == Trim(ps[k]) && t != ""
  {
    if Trim(ps[0]) != "" && t == Trim(ps[0]) {
      k := 0;
    } else {
      k := TidyMember(ps[1..], t);
      k := k + 1;
    }
  }

  // Splitting a statement that the splitter returned gives that statement alone.
  lemma StatementsResplit(s: string, t: string)
    requires t in Split(s)
    ensures Split(t) == [t]
  {
    var k := TidyMember(RawSplit(Code, s), t);
    var piece := RawSplit(Code, s)[k];
    PiecesHaveNoCut(Code, s, k);
    var lead, trail := TrimParts(piece);
    assert piece == lead + (t + trail);
    NoCutAfterBlanks(lead, t + trail);
    NoCutPrefix(Code, t + trail, |t|);
    assert (t + trail)[..|t|] == t;
    NoCutIsOnePiece(Code, t);
    TrimIsIdentityWhenTrimmed(t);
    assert Split(t) == Tidy([t]);
    assert [t][1..] == [] && Tidy([t][1..]) == [];
  }
}
