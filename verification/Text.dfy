/** Runes, blank text and trimming, as the scanners use them. A text is the
    sequence of its runes; case folding is the ASCII one. */
module Text {

  // The code points above ASCII that are white space, letters or digits. They
  // are left unspecified: every result holds whatever these tables contain.
  const OtherSpaces: set<char>
  const OtherLetters: set<char>
  const OtherDigits: set<char>

  predicate IsSpace(c: char) {
    '\t' <= c <= '\r' || c == ' ' || (c as int >= 128 && c in OtherSpaces)
  }

  predicate IsLetter(c: char) {
    'a' <= c <= 'z' || 'A' <= c <= 'Z' || (c as int >= 128 && c in OtherLetters && !IsSpace(c))
  }

  predicate IsDigit(c: char) {
    '0' <= c <= '9' || (c as int >= 128 && c in OtherDigits && !IsSpace(c) && !IsLetter(c))
  }

  function Lower(c: char): char {
    if 'A' <= c <= 'Z' then (c as int + 32) as char else c
  }

  function ToLower(s: string): (r: string)
    ensures |r| == |s| && forall i :: 0 <= i < |s| ==> r[i] == Lower(s[i])
  {
    seq(|s|, i requires 0 <= i < |s| => Lower(s[i]))
  }

  predicate EqualFold(a: string, b: string) {
    ToLower(a) == ToLower(b)
  }

  predicate Contains(s: string, part: string) {
    exists i | 0 <= i <= |s| :: part <= s[i..]
  }

  // Sequences, for every module.
  predicate NoRepeats<T(==)>(xs: seq<T>) {
    forall i, j | 0 <= i < j < |xs| :: xs[i] != xs[j]
  }

  lemma Associate<T>(a: seq<T>, b: seq<T>, c: seq<T>)
    ensures a + (b + c) == a + b + c
  {
  }

  lemma CutAppend<T>(a: seq<T>, n: nat, b: seq<T>)
    requires n <= |a|
    ensures a + b == a[..n] + (a[n..] + b)
    ensures (a + b)[n..] == a[n..] + b
  {
  }

  // Nothing but white space.
  predicate Blank(s: string) {
    forall i | 0 <= i < |s| :: IsSpace(s[i])
  }

  function TrimLeft(s: string): string {
    if s != "" && IsSpace(s[0]) then TrimLeft(s[1..]) else s
  }

  function TrimRight(s: string): string {
    if s != "" && IsSpace(s[|s| - 1]) then TrimRight(s[..|s| - 1]) else s
  }

  function Trim(s: string): string {
    TrimRight(TrimLeft(s))
  }

  // No white space at either end.
  predicate Trimmed(s: string) {
    s == "" || (!IsSpace(s[0]) && !IsSpace(s[|s| - 1]))
  }

  lemma {:induction false} TrimLeftPart(s: string) returns (lead: string)
    ensures s == lead + TrimLeft(s) && Blank(lead)
    ensures TrimLeft(s) == "" || !IsSpace(TrimLeft(s)[0])
  {
    lead := "";
    if s != "" && IsSpace(s[0]) {
      lead := TrimLeftPart(s[1..]);
      lead := [s[0]] + lead;
    }
  }

  lemma {:induction false} TrimRightPart(s: string) returns (trail: string)
    ensures s == TrimRight(s) + trail && Blank(trail)
    ensures TrimRight(s) == "" || !IsSpace(TrimRight(s)[|TrimRight(s)| - 1])
  {
    trail := "";
    if s != "" && IsSpace(s[|s| - 1]) {
      trail := TrimRightPart(s[..|s| - 1]);
      trail := trail + [s[|s| - 1]];
    }
  }

  // What trimming takes off is blank, and nothing blank is left at the ends.
  lemma TrimParts(s: string) returns (lead: string, trail: string)
    ensures s == lead + Trim(s) + trail
    ensures Blank(lead) && Blank(trail) && Trimmed(Trim(s))
  {
    lead := TrimLeftPart(s);
    trail := TrimRightPart(TrimLeft(s));
    assert Trim(s) != "" ==> Trim(s)[0] == TrimLeft(s)[0];
  }

  lemma {:induction false} TrimLeftIgnores(lead: string, s: string)
    requires Blank(lead)
    ensures TrimLeft(lead + s) == TrimLeft(s)
  {
    if lead == "" {
      assert lead + s == s;
    } else {
      assert (lead + s)[1..] == lead[1..] + s;
      TrimLeftIgnores(lead[1..], s);
    }
  }

  lemma {:induction false} TrimRightIgnores(s: string, trail: string)
    requires Blank(trail)
    ensures TrimRight(s + trail) == TrimRight(s)
  {
    if trail == "" {
      assert s + trail == s;
    } else {
      assert (s + trail)[..|s + trail| - 1] == s + trail[..|trail| - 1];
      TrimRightIgnores(s, trail[..|trail| - 1]);
    }
  }

  // Trimming is characterised by that decomposition.
  lemma TrimUnique(lead: string, core: string, trail: string)
    requires Blank(lead) && Blank(trail) && Trimmed(core)
    ensures Trim(lead + core + trail) == core
  {
    assert lead + core + trail == lead + (core + trail);
    TrimLeftIgnores(lead, core + trail);
    if core == "" {
      assert core + trail == trail + "";
      TrimLeftIgnores(trail, "");
    } else {
      TrimRightIgnores(core, trail);
    }
  }

  // Blanks around a text are invisible to trimming.
  lemma TrimIgnoresBlanks(lead: string, s: string, trail: string)
    requires Blank(lead) && Blank(trail)
    ensures Trim(lead + s + trail) == Trim(s)
  {
    var l, t := TrimParts(s);
    var core := Trim(s);
    TrimUnique(lead + l, core, t + trail);
    assert lead + s + trail == (lead + l) + core + (t + trail);
  }

  lemma TrimIsIdentityWhenTrimmed(s: string)
    requires Trimmed(s)
    ensures Trim(s) == s
  {
    TrimUnique("", s, "");
    assert "" + s + "" == s;
  }

  lemma BlankIsTrimmed(x: string)
    ensures Trim(x) == "" <==> Blank(x)
  {
    var lead, trail := TrimParts(x);
    if Blank(x) {
      TrimUnique(x, "", "");
      assert x + "" + "" == x;
    }
  }
}
