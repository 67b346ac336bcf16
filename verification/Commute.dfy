/** How splitting and comment stripping interact: a script is split first, and
    its pieces are stripped one by one. */
module Commute {
  import opened Outcomes
  import opened Text
  import opened Scan
  import opened StripLaws
  import opened SplitLaws

  // Strip every piece on its own; the first failure is the answer.
  function StripAll(pieces: seq<string>): (r: Result<seq<string>, StripError>)
    ensures r.Ok? ==> |r.value| == |pieces|
  {
    if pieces == [] then Ok([])
    else
      match StripComments(pieces[0])
      case Err(e) => Err(e)
      case Ok(x) =>
        match StripAll(pieces[1..])
        case Err(e) => Err(e)
        case Ok(xs) => Ok([x] + xs)
  }

  // Wherever the splitter cuts the script, the stripper, reading the script
  // from its start, is outside quotes and comments.
  predicate CutsAtTopLevel(s: string) {
    var pieces := RawSplit(Code, s);
    forall k | 0 < k < |pieces| :: StripEnd(Code, Join(pieces[..k])) == Code
  }

  predicate EndInCode(pieces: seq<string>)
    requires pieces != []
  {
    |pieces| == 1 || (StripEnd(Code, pieces[0]) == Code && EndInCode(pieces[1..]))
  }

  lemma StripSemicolon(b: string)
    ensures Strip(Code, ";" + b) == ";" + Strip(Code, b)
    ensures StripEnd(Code, ";" + b) == StripEnd(Code, b)
  {
    assert (";" + b)[1..] == b;
    assert StripMove(Code, ";" + b) == Move(Code, 1);
  }

  lemma StripOverCut(a: string, b: string)
    ensures Strip(Code, a + ";" + b) == Strip(Code, a) + Strip(StripEnd(Code, a), ";" + b)
    ensures StripEnd(Code, a + ";" + b) == StripEnd(StripEnd(Code, a), ";" + b)
  {
    StripConcat(Code, a, ";" + b);
    assert a + ";" + b == a + (";" + b);
  }

  lemma StripOverCodeCut(a: string, b: string)
    requires StripEnd(Code, a) == Code
    ensures Strip(Code, a + ";" + b) == Strip(Code, a) + ";" + Strip(Code, b)
    ensures StripEnd(Code, a + ";" + b) == StripEnd(Code, b)
  {
    StripOverCut(a, b);
    StripSemicolon(b);
    var x, y := Strip(Code, a), Strip(Code, b);
    assert x + (";" + y) == x + ";" + y;
  }

  lemma {:induction false} TopLevelCuts(pieces: seq<string>)
    requires pieces != []
    ensures EndInCode(pieces)
      <==> forall k | 0 < k < |pieces| :: StripEnd(Code, Join(pieces[..k])) == Code
  {
    if |pieces| > 1 {
      var rest := pieces[1..];
      assert pieces[..1] == [pieces[0]] && Join([pieces[0]]) == pieces[0];
      TopLevelCuts(rest);
      if StripEnd(Code, pieces[0]) == Code {
        forall j | 0 < j < |rest|
          ensures StripEnd(Code, Join(pieces[..j + 1])) == StripEnd(Code, Join(rest[..j]))
        {
          assert pieces[..j + 1][1..] == rest[..j];
          StripOverCodeCut(pieces[0], Join(rest[..j]));
        }
        forall k | 1 < k < |pieces|
          ensures StripEnd(Code, Join(pieces[..k])) == StripEnd(Code, Join(rest[..k - 1]))
        {
          assert k - 1 + 1 == k;
        }
      }
    }
  }

  lemma {:induction false} StripPieces(pieces: seq<string>)
    requires pieces != []
    ensures
      var s := Join(pieces);
      (StripAll(pieces).Ok? && Join(StripAll(pieces).value) == Strip(Code, s))
      <==> (EndInCode(pieces) && Closed(StripEnd(Code, s)))
  {
    var head, x := pieces[0], Strip(Code, pieces[0]);
    assert "" + x == x;
    if |pieces| == 1 {
      assert pieces[1..] == [];
    } else {
      var rest := Join(pieces[1..]);
      StripPieces(pieces[1..]);
      StripOverCut(head, rest);
      StripErasesInPlace(Code, head);
      var e, s := StripEnd(Code, head), Strip(Code, Join(pieces));
      if e == Code {
        StripOverCodeCut(head, rest);
        if StripAll(pieces[1..]).Ok? {
          var xs := StripAll(pieces[1..]).value;
          assert ([x] + xs)[1..] == xs;
          JoinCancels(x, Join(xs), Strip(Code, rest));
        }
      } else if StripAll(pieces).Ok? {
        // the stripper has let a line comment run over the cut
        assert e == Line && s[|head|] == Strip(Line, ";" + rest)[0] == ' ';
        assert Join(StripAll(pieces).value)[|head|] == ';';
      }
    }
  }

  lemma JoinCancels(x: string, y: string, z: string)
    ensures x + ";" + y == x + ";" + z <==> y == z
  {
    var l, r := x + ";" + y, x + ";" + z;
    assert y == l[|x| + 1..] && z == r[|x| + 1..];
  }

  // Stripping the pieces one by one is stripping the script, exactly when every
  // cut is at top level and the script itself can be stripped.
  lemma PiecewiseStripping(s: string)
    ensures
      var pieces := RawSplit(Code, s);
      (StripAll(pieces).Ok? && Join(StripAll(pieces).value) == Strip(Code, s))
      <==> (CutsAtTopLevel(s) && StripComments(s).Ok?)
  {
    SplitIsLossless(Code, s);
    PiecewiseJoin(RawSplit(Code, s));
  }

  lemma PiecewiseJoin(pieces: seq<string>)
    requires pieces != []
    ensures
      (StripAll(pieces).Ok? && Join(StripAll(pieces).value) == Strip(Code, Join(pieces)))
      <==> ((forall k | 0 < k < |pieces| :: StripEnd(Code, Join(pieces[..k])) == Code)
            && Closed(StripEnd(Code, Join(pieces))))
  {
    TopLevelCuts(pieces);
    StripPieces(pieces);
  }

  // ------------------------------------------------------ the two in lockstep

  // No string literal opens with two quotes, escapes a quote by a backslash or
  // has a third quote after a doubled one: the three texts on which splitter
  // and stripper read quotes differently.
  predicate InStep(st: State, s: string)
    decreases |s|
  {
    s == "" ||
    (var m := StripMove(st, s);
     && !(st.Code? && Pair(s, '\'', '\''))
     && !(st.Single? && Pair(s, '\\', '\''))
     && !(st.Single? && Pair(s, '\'', '\'') && |s| > 2 && s[2] == '\'')
     && InStep(m.next, s[m.width..]))
  }

  // qs are the pieces ps, stripped; the first of them is read in state st.
  ghost predicate Stripped(st: State, ps: seq<string>, qs: seq<string>) {
    && |ps| == |qs| > 0
    && qs[0] == Strip(st, ps[0]) && Closed(StripEnd(st, ps[0]))
    && forall k | 0 < k < |ps| :: qs[k] == Strip(Code, ps[k]) && Closed(StripEnd(Code, ps[k]))
  }

  lemma StrippedCut(ps: seq<string>, qs: seq<string>)
    requires Stripped(Code, ps, qs)
    ensures Stripped(Code, [""] + ps, [""] + qs)
  {
  }

  lemma StrippedPush(st: State, m: Move, ps: seq<string>, qs: seq<string>, x: string)
    requires Stripped(m.next, ps, qs) && m.width == |x| > 0
    requires StripMove(st, x + ps[0]) == m
    ensures Stripped(st, Push(x, ps), Push(Emit(st, m, x), qs))
  {
    var p := x + ps[0];
    assert p[m.width..] == ps[0] && p[..m.width] == x == x[..m.width];
    var ps', qs' := Push(x, ps), Push(Emit(st, m, x), qs);
    assert forall k | 0 < k < |ps| :: ps'[k] == ps'[1..][k - 1] == ps[k] && qs'[k] == qs'[1..][k - 1] == qs[k];
  }

  // What the stripper does to the first runes does not depend on what follows
  // the piece they are in.
  lemma StripMoveInPiece(st: State, s: string, x: string, p: string)
    requires s != "" && x + p <= s && x == s[..StripMove(st, s).width]
    requires x + p == s || s[|x + p|] == ';'
    ensures StripMove(st, x + p) == StripMove(st, s)
  {
    var t := x + p;
    assert t[0] == s[0] && (|t| > 1 ==> t[1] == s[1]);
  }

  lemma RawSplitTwice(st: State, mid: State, end: State, s: string)
    requires |s| > 1 && !Cuts(st, s) && SplitMove(st, s) == Move(mid, 1)
    requires !Cuts(mid, s[1..]) && SplitMove(mid, s[1..]) == Move(end, 1)
    ensures RawSplit(st, s) == Push(s[..2], RawSplit(end, s[2..]))
  {
    assert s[1..][1..] == s[2..] && s[..1] + s[1..][..1] == s[..2];
    PushPush(s[..1], s[1..][..1], RawSplit(end, s[2..]));
  }

  // In lockstep the splitter cuts a move of the stripper into moves of its own
  // and ends up in the same state.
  lemma SplitFollowsStrip(st: State, s: string)
    requires s != "" && InStep(st, s) && Closed(StripEnd(st, s)) && !Cuts(st, s)
    ensures
      var m := StripMove(st, s);
      RawSplit(st, s) == Push(s[..m.width], RawSplit(m.next, s[m.width..]))
  {
    var m := StripMove(st, s);
    if SplitMove(st, s) != m {
      assert s[1..] != "" && s[1..][0] == s[1];
      if st.Double? {
        RawSplitTwice(Double, Code, Double, s);
      } else if s[0] == '\'' {
        assert s[1..][|s| - 2] == s[|s| - 1];
        assert |s| > 2 ==> s[1..][1] == s[2];
        RawSplitTwice(Single, Code, Single, s);
      } else {
        RawSplitTwice(Single, Single, Single, s);
      }
    }
  }

  // Erasing comments keeps a text in step.
  lemma {:induction false} InStepErased(st: State, s: string)
    requires InStep(st, s)
    ensures InStep(Outside(st), Strip(st, s))
    decreases |s|
  {
    if s != "" {
      var m := StripMove(st, s);
      var emitted, rest := Emit(st, m, s), Strip(m.next, s[m.width..]);
      var out := emitted + rest;
      InStepErased(m.next, s[m.width..]);
      if st.Comment() || m.next.Comment() {
        InStepOverSpaces(emitted, rest);
      } else {
        InStepMove(st, s, out);
      }
    }
  }

  lemma InStepMove(st: State, s: string, out: string)
    requires s != "" && InStep(st, s) && out == Strip(st, s)
    requires !st.Comment() && !StripMove(st, s).next.Comment()
    requires InStep(StripMove(st, s).next, Strip(StripMove(st, s).next, s[StripMove(st, s).width..]))
    ensures InStep(st, out)
  {
    var m := StripMove(st, s);
    StripErasesInPlace(st, s);
    assert out[..m.width] == s[..m.width] && out[m.width..] == Strip(m.next, s[m.width..]);
    SameMove(st, s, out);
  }

  lemma {:induction false} InStepOverSpaces(blank: string, s: string)
    requires Blank(blank) && InStep(Code, s)
    ensures InStep(Code, blank + s)
  {
    if blank == "" {
      assert blank + s == s;
    } else {
      assert (blank + s)[1..] == blank[1..] + s;
      InStepOverSpaces(blank[1..], s);
    }
  }

  lemma {:induction false} SplitOverSpaces(blank: string, s: string)
    requires Blank(blank)
    ensures RawSplit(Code, blank + s) == Push(blank, RawSplit(Code, s))
  {
    if blank == "" {
      assert blank + s == s;
      PushNothing(RawSplit(Code, s));
    } else {
      var t := blank + s;
      assert t[1..] == blank[1..] + s && t[..1] == [blank[0]];
      assert SplitMove(Code, t) == Move(Code, 1) && !Cuts(Code, t);
      SplitOverSpaces(blank[1..], s);
      PushPush([blank[0]], blank[1..], RawSplit(Code, s));
      assert [blank[0]] + blank[1..] == blank;
    }
  }

  // The splitter reads the erased text move by move as the stripper read s:
  // first a move that is erased, then one that is copied.
  lemma SplitErasedComment(st: State, s: string)
    requires s != ""
    requires st.Comment() || StripMove(st, s).next.Comment()
    ensures
      var m := StripMove(st, s);
      RawSplit(Code, Strip(st, s)) == Push(Emit(st, m, s), RawSplit(Code, Strip(m.next, s[m.width..])))
  {
    var m := StripMove(st, s);
    SplitOverSpaces(Emit(st, m, s), Strip(m.next, s[m.width..]));
  }

  lemma SplitErasedVerbatim(st: State, s: string, out: string)
    requires s != "" && !Cuts(st, s) && out == Strip(st, s)
    requires !st.Comment() && !StripMove(st, s).next.Comment()
    requires ErasedInPlace(s, out) && InStep(st, out) && Closed(StripEnd(st, out))
    ensures
      var m := StripMove(st, s);
      RawSplit(st, out) == Push(s[..m.width], RawSplit(m.next, Strip(m.next, s[m.width..])))
  {
    var m := StripMove(st, s);
    var x, rest := s[..m.width], Strip(m.next, s[m.width..]);
    assert out == x + rest;
    assert out[..m.width] == x && out[m.width..] == rest;
    SameMove(st, s, out);
    assert out[0] == s[0];
    SplitFollowsStrip(st, out);
  }

  lemma SplitErased(st: State, s: string)
    requires s != "" && InStep(st, s) && Closed(StripEnd(st, s)) && !Cuts(st, s)
    requires !st.Comment() && !StripMove(st, s).next.Comment()
    ensures
      var m := StripMove(st, s);
      RawSplit(st, Strip(st, s)) == Push(s[..m.width], RawSplit(m.next, Strip(m.next, s[m.width..])))
  {
    InStepErased(st, s);
    StripAgain(st, s);
    StripErasesInPlace(st, s);
    SplitErasedVerbatim(st, s, Strip(st, s));
  }

  // One move in front of pieces that are stripped keeps them so.
  lemma StrippedMove(st: State, s: string, qs: seq<string>)
    requires s != "" && InStep(st, s) && Closed(StripEnd(st, s)) && !Cuts(st, s)
    requires
      var m := StripMove(st, s);
      Stripped(m.next, RawSplit(m.next, s[m.width..]), qs)
    ensures
      var m := StripMove(st, s);
      Stripped(st, RawSplit(st, s), Push(Emit(st, m, s), qs))
  {
    var m := StripMove(st, s);
    var x, rest := s[..m.width], s[m.width..];
    var ps := RawSplit(m.next, rest);
    SplitFollowsStrip(st, s);
    PieceIsPrefix(m.next, rest);
    StrippedFirst(st, s, x, rest, ps, qs);
  }

  lemma StrippedFirst(st: State, s: string, x: string, rest: string, ps: seq<string>, qs: seq<string>)
    requires s != "" && x == s[..StripMove(st, s).width] && rest == s[StripMove(st, s).width..]
    requires ps != [] && ps[0] <= rest && (ps[0] == rest || rest[|ps[0]|] == ';')
    requires Stripped(StripMove(st, s).next, ps, qs)
    ensures Stripped(st, Push(x, ps), Push(Emit(st, StripMove(st, s), s), qs))
  {
    var m := StripMove(st, s);
    PrefixOfRest(s, x, rest, ps[0]);
    StripMoveInPiece(st, s, x, ps[0]);
    assert Emit(st, m, x) == Emit(st, m, s) by {
      assert x[..m.width] == x;
    }
    StrippedPush(st, m, ps, qs, x);
  }

  lemma PrefixOfRest(s: string, x: string, rest: string, p: string)
    requires |x| <= |s| && x == s[..|x|] && rest == s[|x|..] && p <= rest && (p == rest || rest[|p|] == ';')
    ensures x + p <= s && (x + p == s || s[|x + p|] == ';')
  {
    assert s == x + rest;
  }

  lemma SplitCommutesCut(s: string)
    requires s != "" && s[0] == ';'
    requires Stripped(Code, RawSplit(Code, s[1..]), RawSplit(Code, Strip(Code, s[1..])))
    ensures Stripped(Code, RawSplit(Code, s), RawSplit(Code, Strip(Code, s)))
  {
    var rest := Strip(Code, s[1..]);
    StripSemicolon(s[1..]);
    assert s == ";" + s[1..];
    assert Strip(Code, s)[0] == ';' && Strip(Code, s)[1..] == rest;
    StrippedCut(RawSplit(Code, s[1..]), RawSplit(Code, rest));
  }

  lemma SplitCommutesMove(st: State, s: string)
    requires s != "" && InStep(st, s) && Closed(StripEnd(st, s)) && !Cuts(st, s)
    ensures
      var m := StripMove(st, s);
      RawSplit(Outside(st), Strip(st, s))
      == Push(Emit(st, m, s), RawSplit(Outside(m.next), Strip(m.next, s[m.width..])))
  {
    if st.Comment() || StripMove(st, s).next.Comment() {
      SplitErasedComment(st, s);
    } else {
      SplitErased(st, s);
    }
  }

  lemma {:induction false} SplitCommutes(st: State, s: string)
    requires InStep(st, s) && Closed(StripEnd(st, s))
    ensures Stripped(st, RawSplit(st, s), RawSplit(Outside(st), Strip(st, s)))
    decreases |s|
  {
    if s == "" {
    } else if Cuts(st, s) {
      SplitCommutes(Code, s[1..]);
      SplitCommutesCut(s);
    } else {
      var m := StripMove(st, s);
      SplitCommutes(m.next, s[m.width..]);
      SplitCommutesMove(st, s);
      StrippedMove(st, s, RawSplit(Outside(m.next), Strip(m.next, s[m.width..])));
    }
  }

  lemma {:induction false} StrippedIsStripAll(ps: seq<string>, qs: seq<string>)
    requires Stripped(Code, ps, qs)
    ensures StripAll(ps) == Ok(qs)
  {
    assert "" + Strip(Code, ps[0]) == qs[0];
    if |ps| > 1 {
      assert forall k | 0 <= k < |ps| - 1 :: ps[1..][k] == ps[k + 1] && qs[1..][k] == qs[k + 1];
      StrippedIsStripAll(ps[1..], qs[1..]);
      assert qs == [qs[0]] + qs[1..];
    } else {
      assert ps[1..] == [] && qs == [qs[0]] + [];
    }
  }

  // ----------------------------------------------------- executable statements

  // The texts that script validation goes on with: every statement of the
  // splitter stripped and trimmed, blank ones dropped.
  function Executables(s: string): Result<seq<string>, StripError> {
    match StripAll(Split(s))
    case Err(e) => Err(e)
    case Ok(xs) => Ok(Tidy(xs))
  }

  lemma {:induction false} BlankTail(st: State, blank: string)
    requires Blank(blank)
    ensures Closed(StripEnd(st, blank)) <==> Closed(st)
    ensures Blank(Strip(st, blank))
    ensures StripVerdict(StripEnd(st, blank)) == StripVerdict(st)
    decreases |blank|
  {
    if blank != "" {
      var m := StripMove(st, blank);
      assert m.width == 1;
      BlankTail(m.next, blank[1..]);
    }
  }

  // Trimming before stripping does not show after trimming again.
  lemma StripTrimmed(p: string)
    ensures StripVerdict(StripEnd(Code, Trim(p))) == StripVerdict(StripEnd(Code, p))
    ensures Trim(Strip(Code, Trim(p))) == Trim(Strip(Code, p))
  {
    var lead, trail := TrimParts(p);
    var t := Trim(p);
    var e := StripEnd(Code, t);
    Associate(lead, t, trail);
    StripOverSpaces(lead, t + trail);
    StripConcat(Code, t, trail);
    BlankTail(e, trail);
    TrimIgnoresBlanks(lead, Strip(Code, t), Strip(e, trail));
    Associate(lead, Strip(Code, t), Strip(e, trail));
  }

  lemma {:induction false} TidyBeforeStripping(ps: seq<string>)
    ensures
      match StripAll(ps)
      case Err(e) => StripAll(Tidy(ps)) == Err(e)
      case Ok(xs) => StripAll(Tidy(ps)).Ok? && Tidy(StripAll(Tidy(ps)).value) == Tidy(xs)
  {
    if ps != [] {
      var p, rest := ps[0], ps[1..];
      TidyBeforeStripping(rest);
      StripTrimmed(p);
      assert "" + Strip(Code, p) == Strip(Code, p);
      assert "" + Strip(Code, Trim(p)) == Strip(Code, Trim(p));
      if StripComments(p).Ok? && StripAll(rest).Ok? {
        assert ([Strip(Code, p)] + StripAll(rest).value)[1..] == StripAll(rest).value;
      }
      if Trim(p) != "" {
        assert Tidy(ps)[1..] == Tidy(rest);
        if StripComments(p).Ok? && StripAll(rest).Ok? {
          var ys := StripAll(Tidy(rest)).value;
          assert ([Strip(Code, Trim(p))] + ys)[1..] == ys;
        }
      } else {
        assert Tidy(ps) == Tidy(rest);
        assert Strip(Code, "") == "" && Trim("") == "";
      }
    }
  }

  // In step, splitting a script and stripping its statements gives the same
  // statements as stripping the script and splitting the result.
  lemma SplittingCommutesWithStripping(s: string)
    requires StripComments(s).Ok? && InStep(Code, s)
    ensures Executables(s) == Ok(Split(StripComments(s).value))
  {
    var out := Strip(Code, s);
    assert "" + out == out;
    SplitCommutes(Code, s);
    StrippedIsStripAll(RawSplit(Code, s), RawSplit(Code, out));
    TidyBeforeStripping(RawSplit(Code, s));
  }

  // In step, every cut is at top level.
  lemma InStepCutsAtTopLevel(s: string)
    requires StripComments(s).Ok? && InStep(Code, s)
    ensures CutsAtTopLevel(s)
  {
    var ps, out := RawSplit(Code, s), Strip(Code, s);
    SplitCommutes(Code, s);
    StrippedIsStripAll(ps, RawSplit(Code, out));
    SplitIsLossless(Code, out);
    PiecewiseStripping(s);
  }

  // Without a backslash and without two adjacent single quotes a text is in step.
  lemma {:induction false} PlainTextIsInStep(st: State, s: string)
    requires '\\' !in s
    requires forall i | 0 <= i < |s| :: !Pair(s[i..], '\'', '\'')
    ensures InStep(st, s)
    decreases |s|
  {
    if s != "" {
      var m := StripMove(st, s);
      var rest := s[m.width..];
      assert s[0..] == s;
      forall i | 0 <= i < |rest|
        ensures !Pair(rest[i..], '\'', '\'')
      {
        assert rest[i..] == s[i + m.width..];
      }
      PlainTextIsInStep(m.next, rest);
    }
  }

  // So every cut of such a text is at top level.
  lemma PlainTextCutsAtTopLevel(s: string)
    requires StripComments(s).Ok? && '\\' !in s
    requires forall i | 0 <= i < |s| :: !Pair(s[i..], '\'', '\'')
    ensures CutsAtTopLevel(s)
  {
    PlainTextIsInStep(Code, s);
    InStepCutsAtTopLevel(s);
  }

  // A cut made while the stripper, so far at top level at every cut, is inside a
  // literal or a block comment makes the script fail, whatever comes after it.
  lemma BadCutFails(a: string, b: string)
    requires SplitEnd(Code, a) == Code && CutsAtTopLevel(a) && !Closed(StripEnd(Code, a))
    ensures Executables(a + ";" + b).Err?
  {
    var ps, qs := RawSplit(Code, a), RawSplit(Code, b);
    CutsAreCompositional(a, b);
    SplitIsLossless(Code, a);
    TopLevelCuts(ps);
    EndOfLastPiece(ps);
    StripAllPrefix(ps, qs);
    TidyBeforeStripping(ps + qs);
  }

  lemma {:induction false} EndOfLastPiece(ps: seq<string>)
    requires ps != [] && EndInCode(ps) && !Closed(StripEnd(Code, Join(ps)))
    ensures StripAll(ps).Err?
  {
    if |ps| > 1 {
      StripOverCodeCut(ps[0], Join(ps[1..]));
      EndOfLastPiece(ps[1..]);
    }
  }

  lemma {:induction false} StripAllPrefix(ps: seq<string>, qs: seq<string>)
    requires StripAll(ps).Err?
    ensures StripAll(ps + qs).Err?
  {
    assert (ps + qs)[0] == ps[0] && (ps + qs)[1..] == ps[1..] + qs;
    if StripComments(ps[0]).Ok? {
      StripAllPrefix(ps[1..], qs);
    }
  }

  lemma Disagrees(a: string, b: string)
    requires SplitEnd(Code, a) == Code && NoCut(Code, a)
    requires !Closed(StripEnd(Code, a)) && Closed(StripEnd(StripEnd(Code, a), ";" + b))
    ensures StripComments(a + ";" + b).Ok? && Executables(a + ";" + b).Err?
  {
    BadCutFails(a, b);
    StripOverCut(a, b);
  }

  // Out of step the two orders disagree. Each of these scripts can be stripped,
  // yet it is cut inside a literal or a comment, and its first statement cannot
  // be stripped: a literal that escapes a quote,
  lemma EscapedQuoteDisagrees(x: string)
    requires PlainRun(x)
    ensures var s := "'" + x + "\\'" + ";" + "'"; StripComments(s).Ok? && Executables(s).Err?
  {
    var t := "\\'";
    assert t[1..] == "'" && t[2..] == "" && "'"[1..] == "" && ";'"[1..] == "'";
    assert SplitEnd(Single, "'") == Code && NoCut(Single, "'");
    assert StripEnd(Single, "'") == Code;
    AfterOpening(x, t);
    Disagrees("'" + x + t, "'");
  }

  // an empty literal,
  lemma EmptyLiteralDisagrees()
    ensures var s := "''/*'" + ";" + "*/"; StripComments(s).Ok? && Executables(s).Err?
  {
    EmptyLiteralTail();
    Disagrees("''/*'", "*/");
  }

  lemma EmptyLiteralTail()
    ensures SplitEnd(Code, "''/*'") == Code && NoCut(Code, "''/*'")
    ensures StripEnd(Code, "''/*'") == Block && StripEnd(Single, "'/*'") == Block
    ensures StripEnd(Block, ";" + "*/") == Code
  {
    QuoteInComment();
    assert "'/*'"[1..] == "/*'";
    assert StripEnd(Single, "'/*'") == Block;
    assert "''/*'"[1..] == "'/*'" && "''/*'"[2..] == "/*'";
  }

  // and a literal that ends in a doubled quote.
  lemma DoubledQuoteDisagrees(x: string)
    requires PlainRun(x) && x != ""
    ensures var s := "'" + x + "'''/*'" + ";" + "*/"; StripComments(s).Ok? && Executables(s).Err?
  {
    var t := DoubledQuoteText();
    QuoteInComment();
    OpenedDisagrees(x, t, "*/");
  }

  lemma DoubledQuoteText() returns (t: string)
    ensures t == "'''/*'" && SplitEnd(Single, t) == Code && NoCut(Single, t) && StripEnd(Single, t) == Block
  {
    EmptyLiteralTail();
    var y, z := QuoteTexts();
    DoubledQuoteTail(y, z);
    t := "'" + y;
  }

  lemma QuoteTexts() returns (y: string, z: string)
    ensures y == "''/*'" && z == "'/*'" && y == "'" + z && "'" + y == "'''/*'"
  {
    y, z := "''/*'", "'/*'";
  }

  lemma OpenedDisagrees(x: string, t: string, b: string)
    requires PlainRun(x) && x != "" && SplitEnd(Single, t) == Code && NoCut(Single, t)
    requires StripEnd(Single, t) == Block && StripEnd(Block, ";" + b) == Code
    ensures StripComments("'" + x + t + ";" + b).Ok? && Executables("'" + x + t + ";" + b).Err?
  {
    AfterOpening(x, t);
    Disagrees("'" + x + t, b);
  }

  lemma DoubledQuoteTail(y: string, z: string)
    requires SplitEnd(Code, y) == Code && NoCut(Code, y) && StripEnd(Single, z) == Block && y == "'" + z
    ensures SplitEnd(Single, "'" + y) == Code && NoCut(Single, "'" + y)
    ensures StripEnd(Single, "'" + y) == Block
  {
    QuoteCloses(y);
    PairGoesOn(z);
    QuotesJoin(z);
  }

  lemma QuotesJoin(z: string)
    ensures "'" + ("'" + z) == "''" + z
  {
    Associate("'", "'", z);
    assert "'" + "'" == "''";
  }

  lemma QuoteCloses(y: string)
    ensures SplitEnd(Single, "'" + y) == SplitEnd(Code, y)
    ensures NoCut(Single, "'" + y) <==> NoCut(Code, y)
  {
    SplitStep(Single, "'", y);
  }

  lemma PairGoesOn(y: string)
    ensures StripEnd(Single, "''" + y) == StripEnd(Single, y)
  {
    assert ("''" + y)[0] == '\'' && ("''" + y)[1] == '\'';
    StripStep(Single, "''", y);
  }

  predicate PlainRun(x: string) {
    '\'' !in x && '\\' !in x
  }

  lemma {:induction false} InsideLiteral(x: string, t: string)
    requires PlainRun(x)
    ensures StripEnd(Single, x + t) == StripEnd(Single, t)
    ensures SplitEnd(Single, x + t) == SplitEnd(Single, t)
    ensures NoCut(Single, x + t) <==> NoCut(Single, t)
  {
    if x == "" {
      assert x + t == t;
    } else {
      assert (x + t)[1..] == x[1..] + t;
      InsideLiteral(x[1..], t);
    }
  }

  lemma AfterOpening(x: string, t: string)
    requires PlainRun(x) && x + t != "" && (x + t)[0] != '\''
    ensures
      var a := "'" + x + t;
      && StripEnd(Code, a) == StripEnd(Single, t)
      && SplitEnd(Code, a) == SplitEnd(Single, t)
      && (NoCut(Code, a) <==> NoCut(Single, t))
  {
    assert ("'" + x + t)[1..] == x + t;
    InsideLiteral(x, t);
  }

  lemma QuoteInComment()
    ensures SplitEnd(Single, "/*'") == Code && NoCut(Single, "/*'")
    ensures StripEnd(Code, "/*'") == Block
    ensures StripEnd(Block, ";" + "*/") == Code
  {
    assert "/*'"[1..] == "*'" && "/*'"[2..] == "'" && "*'"[1..] == "'" && "'"[1..] == "";
    assert SplitEnd(Single, "'") == Code && NoCut(Single, "'");
    assert SplitEnd(Single, "*'") == Code && NoCut(Single, "*'");
    assert StripEnd(Block, "'") == Block;
    assert ";*/"[1..] == "*/" && "*/"[2..] == "";
    assert StripEnd(Block, "*/") == Code;
  }
}
