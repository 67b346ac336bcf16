/** What stripping does to a text: it erases comments in place, and nothing else. */
module StripLaws {
  import opened Outcomes
  import opened Text
  import opened Scan

  // out is s with some runes other than newlines turned into spaces.
  ghost predicate ErasedInPlace(s: string, out: string) {
    && |out| == |s|
    && forall i | 0 <= i < |s| :: out[i] == s[i] || (s[i] != '\n' && out[i] == ' ')
  }

  lemma {:induction false} StripErasesInPlace(st: State, s: string)
    ensures ErasedInPlace(s, Strip(st, s))
    decreases |s|
  {
    if s != "" {
      var m := StripMove(st, s);
      StripErasesInPlace(m.next, s[m.width..]);
      assert s == s[..m.width] + s[m.width..];
    }
  }

  // The state in which the erased text is read where the original is read in st.
  function Outside(st: State): State {
    if st.Comment() then Code else st
  }

  // A move outside comments looks only one rune ahead, and a space in place of
  // that rune would not change it.
  lemma SameMove(st: State, s: string, t: string)
    requires s != "" && |t| == |s|
    requires
      var m := StripMove(st, s);
      && !st.Comment() && !m.next.Comment()
      && t[..m.width] == s[..m.width]
      && (m.width < |s| ==> t[m.width] == s[m.width] || t[m.width] == ' ')
    ensures StripMove(st, t) == StripMove(st, s)
  {
    var m := StripMove(st, s);
    assert t[0] == t[..m.width][0] == s[0];
    assert m.width == 2 ==> t[1] == t[..m.width][1] == s[1];
  }

  // One move: the runes x it consumes, and the rest y.
  lemma StripStep(st: State, x: string, y: string)
    requires x != "" && StripMove(st, x + y).width == |x|
    ensures
      var m := StripMove(st, x + y);
      && Strip(st, x + y) == (if st.Comment() || m.next.Comment() then Blanked(x) else x) + Strip(m.next, y)
      && StripEnd(st, x + y) == StripEnd(m.next, y)
  {
    assert (x + y)[..|x|] == x && (x + y)[|x|..] == y;
  }

  lemma SameMoveAfter(st: State, s: string)
    requires s != "" && !st.Comment() && !StripMove(st, s).next.Comment()
    ensures
      var m := StripMove(st, s);
      StripMove(st, s[..m.width] + Strip(m.next, s[m.width..])) == m
  {
    var m := StripMove(st, s);
    StripErasesInPlace(m.next, s[m.width..]);
    SameMove(st, s, s[..m.width] + Strip(m.next, s[m.width..]));
  }

  // One move over the erased text, where the original made a move from st.
  lemma AgainMove(st: State, s: string)
    requires s != ""
    ensures
      var m := StripMove(st, s);
      var rest := Strip(m.next, s[m.width..]);
      && Strip(Outside(st), Strip(st, s)) == Emit(st, m, s) + Strip(Outside(m.next), rest)
      && StripEnd(Outside(st), Strip(st, s)) == StripEnd(Outside(m.next), rest)
  {
    var m := StripMove(st, s);
    var rest := Strip(m.next, s[m.width..]);
    if st.Comment() || m.next.Comment() {
      StripOverSpaces(Emit(st, m, s), rest);
    } else {
      SameMoveAfter(st, s);
      StripStep(st, s[..m.width], rest);
    }
  }

  // Reading the erased text again goes through the same states, comments apart.
  lemma {:induction false} StripAgain(st: State, s: string)
    ensures Strip(Outside(st), Strip(st, s)) == Strip(st, s)
    ensures StripEnd(Outside(st), Strip(st, s)) == Outside(StripEnd(st, s))
    decreases |s|
  {
    if s != "" {
      AgainMove(st, s);
      var m := StripMove(st, s);
      StripAgain(m.next, s[m.width..]);
    }
  }

  lemma StripSpace(x: string, y: string)
    requires |x| == 1 && IsSpace(x[0])
    ensures Strip(Code, x + y) == x + Strip(Code, y)
    ensures StripEnd(Code, x + y) == StripEnd(Code, y)
  {
    assert (x + y)[0] == x[0];
    StripStep(Code, x, y);
  }

  lemma {:induction false} StripOverSpaces(blank: string, s: string)
    requires Blank(blank)
    ensures Strip(Code, blank + s) == blank + Strip(Code, s)
    ensures StripEnd(Code, blank + s) == StripEnd(Code, s)
  {
    if blank == "" {
      assert blank + s == s;
    } else {
      CutAppend(blank, 1, s);
      CutAppend(blank, 1, Strip(Code, s));
      StripOverSpaces(blank[1..], s);
      StripSpace(blank[..1], blank[1..] + s);
    }
  }

  // The rune at i belongs to a comment, its marks included, where s is read
  // from st.
  predicate InComment(st: State, s: string, i: nat)
    requires i < |s|
    decreases |s|
  {
    var m := StripMove(st, s);
    if i < m.width then st.Comment() || m.next.Comment() else InComment(m.next, s[m.width..], i - m.width)
  }

  lemma {:induction false} StripErasesComments(st: State, s: string, i: nat)
    requires i < |s|
    ensures |Strip(st, s)| == |s| && Strip(st, s)[i] == Erase(InComment(st, s, i), s[i])
    decreases |s|
  {
    var m := StripMove(st, s);
    StripErasesInPlace(st, s);
    StripErasesInPlace(m.next, s[m.width..]);
    if i >= m.width {
      StripErasesComments(m.next, s[m.width..], i - m.width);
    }
  }

  // Stripping keeps every position and every newline; it turns the other runes
  // of comments into spaces and changes nothing else; a second stripping
  // succeeds and changes nothing.
  lemma StrippingIsErasure(s: string)
    requires StripComments(s).Ok?
    ensures ErasedInPlace(s, StripComments(s).value)
    ensures forall i | 0 <= i < |s| :: StripComments(s).value[i] == Erase(InComment(Code, s, i), s[i])
    ensures StripComments(StripComments(s).value) == StripComments(s)
  {
    forall i | 0 <= i < |s|
      ensures |Strip(Code, s)| == |s| && Strip(Code, s)[i] == Erase(InComment(Code, s, i), s[i])
    {
      StripErasesComments(Code, s, i);
    }
    var out := Strip(Code, s);
    assert "" + out == out;
    StripErasesInPlace(Code, s);
    StripAgain(Code, s);
    assert "" + Strip(Code, out) == out;
  }

  // A rune that no scanner joins to the one before it.
  predicate Neutral(c: char) {
    c != '-' && c != '/' && c != '*' && c != '\'' && c != '"' && c != '\\'
  }

  predicate CleanStart(s: string) {
    s == "" || Neutral(s[0])
  }

  lemma MoveConcat(st: State, a: string, b: string)
    requires a != "" && CleanStart(b)
    ensures
      || StripMove(st, a + b) == StripMove(st, a)
      // a string literal that ends in a backslash before b
      || (st == Single && a == "\\" && StripMove(st, a) == Move(Single, 1) && StripMove(st, a + b) == Move(Single, 2))
  {
    var ab := a + b;
    assert ab[0] == a[0];
    if |a| > 1 {
      assert ab[1] == a[1];
    } else {
      assert a == [a[0]];
      assert b != "" ==> ab[1] == b[0];
    }
  }

  lemma EscapedConcat(b: string)
    requires b != "" && Neutral(b[0])
    ensures Strip(Single, "\\" + b) == "\\" + Strip(Single, b)
    ensures StripEnd(Single, "\\" + b) == StripEnd(Single, b)
  {
    var x, y := b[..1], b[1..];
    CutAppend(b, 1, "");
    assert b + "" == b && y + "" == y;
    PlainStep(x, y);
    EscapeStep("\\" + x, y);
    Associate("\\", x, y);
    Associate("\\", x, Strip(Single, y));
  }

  lemma PlainStep(x: string, y: string)
    requires |x| == 1 && Neutral(x[0])
    ensures Strip(Single, x + y) == x + Strip(Single, y)
    ensures StripEnd(Single, x + y) == StripEnd(Single, y)
  {
    assert (x + y)[0] == x[0];
    StripStep(Single, x, y);
  }

  lemma EscapeStep(x: string, y: string)
    requires |x| == 2 && x[0] == '\\'
    ensures Strip(Single, x + y) == x + Strip(Single, y)
    ensures StripEnd(Single, x + y) == StripEnd(Single, y)
  {
    assert (x + y)[0] == x[0];
    StripStep(Single, x, y);
  }

  // A scan can be cut in two before a neutral rune.
  lemma {:induction false} StripConcatStep(st: State, a: string, b: string)
    requires a != "" && StripMove(st, a + b) == StripMove(st, a)
    requires
      var m := StripMove(st, a);
      var rest := a[m.width..];
      && Strip(m.next, rest + b) == Strip(m.next, rest) + Strip(StripEnd(m.next, rest), b)
      && StripEnd(m.next, rest + b) == StripEnd(StripEnd(m.next, rest), b)
    ensures Strip(st, a + b) == Strip(st, a) + Strip(StripEnd(st, a), b)
    ensures StripEnd(st, a + b) == StripEnd(StripEnd(st, a), b)
  {
    var m := StripMove(st, a);
    var x, rest := a[..m.width], a[m.width..];
    CutAppend(a, m.width, b);
    StripStep(st, x, rest + b);
    Associate(Emit(st, m, a), Strip(m.next, rest), Strip(StripEnd(st, a), b));
  }

  lemma {:induction false} StripConcat(st: State, a: string, b: string)
    requires CleanStart(b)
    ensures Strip(st, a + b) == Strip(st, a) + Strip(StripEnd(st, a), b)
    ensures StripEnd(st, a + b) == StripEnd(StripEnd(st, a), b)
    decreases |a|
  {
    if a == "" {
      assert a + b == b;
    } else {
      MoveConcat(st, a, b);
      var m := StripMove(st, a);
      var x, rest := a[..m.width], a[m.width..];
      if StripMove(st, a + b) == m {
        StripConcat(m.next, rest, b);
        StripConcatStep(st, a, b);
      } else {
        EscapedConcat(b);
        StripStep(Single, a, "");
        assert a + "" == a;
      }
    }
  }
}
