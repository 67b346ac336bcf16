/** Scope lists as OAuth requests and tokens write them. */
module Scopes {
  import opened Text

  predicate IsSeparator(c: char) {
    c == ' ' || c == ',' || c == '\n' || c == '\r' || c == '\t'
  }

  function FieldLength(s: string): (n: nat)
    ensures n <= |s| && (forall i | 0 <= i < n :: !IsSeparator(s[i])) && (n < |s| ==> IsSeparator(s[n]))
  {
    if s == "" || IsSeparator(s[0]) then 0 else 1 + FieldLength(s[1..])
  }

  // The runs between separators.
  function Fields(s: string): seq<string>
    decreases |s|
  {
    if s == "" then []
    else if IsSeparator(s[0]) then Fields(s[1..])
    else [s[..FieldLength(s)]] + Fields(s[FieldLength(s)..])
  }

  // In lower case and trimmed, blank ones and repetitions dropped.
  function NormalizeFrom(result: seq<string>, values: seq<string>): seq<string>
    decreases |values|
  {
    if values == [] then result
    else
      var value := ToLower(Trim(values[0]));
      NormalizeFrom(if value == "" || value in result then result else result + [value], values[1..])
  }

  function Normalized(values: seq<string>): seq<string> {
    NormalizeFrom([], values)
  }

  method Normalize(values: seq<string>) returns (result: seq<string>)
    ensures result == Normalized(values)
  {
    result := [];
    var seen: map<string, bool> := map[];
    var i := 0;
    assert values[0..] == values;
    while i < |values|
      invariant i <= |values|
      invariant forall v :: v in seen <==> v in result
      invariant NormalizeFrom(result, values[i..]) == Normalized(values)
    {
      assert values[i..][1..] == values[i + 1..];
      var value := ToLower(Trim(values[i]));
      i := i + 1;
      if value == "" || value in seen {
        continue;
      }
      seen := seen[value := true];
      result := result + [value];
    }
  }

  function ParseScopes(value: string): seq<string> {
    Normalized(Fields(value))
  }

  function JoinScopes(scopes: seq<string>): string {
    if scopes == [] then ""
    else if |scopes| == 1 then scopes[0]
    else scopes[0] + (" " + JoinScopes(scopes[1..]))
  }

  // A scope that parsing leaves as it is.
  predicate NormalScope(x: string) {
    x != "" && (forall i | 0 <= i < |x| :: !IsSeparator(x[i])) && ToLower(Trim(x)) == x
  }

  predicate Normal(xs: seq<string>) {
    && (forall i | 0 <= i < |xs| :: NormalScope(xs[i]))
    && NoRepeats(xs)
  }

  lemma {:induction false} FieldLengthOf(x: string, y: string)
    requires forall i | 0 <= i < |x| :: !IsSeparator(x[i])
    requires y == "" || IsSeparator(y[0])
    ensures FieldLength(x + y) == |x|
  {
    if x == "" {
      assert x + y == y;
    } else {
      assert (x + y)[1..] == x[1..] + y;
      FieldLengthOf(x[1..], y);
    }
  }

  lemma {:induction false} FieldsOfJoin(xs: seq<string>)
    requires forall i | 0 <= i < |xs| :: NormalScope(xs[i])
    ensures Fields(JoinScopes(xs)) == xs
  {
    if xs != [] {
      var x, s := xs[0], JoinScopes(xs);
      var rest := if |xs| == 1 then "" else " " + JoinScopes(xs[1..]);
      assert s == x + rest;
      FieldLengthOf(x, rest);
      assert s[..|x|] == x && s[|x|..] == rest && s[0] == x[0];
      if |xs| > 1 {
        FieldsOfJoin(xs[1..]);
        assert rest[1..] == JoinScopes(xs[1..]);
        assert Fields(rest) == xs[1..];
      }
      assert xs == [x] + xs[1..];
    }
  }

  lemma {:induction false} NormalizeKeeps(result: seq<string>, xs: seq<string>)
    requires Normal(result + xs)
    ensures NormalizeFrom(result, xs) == result + xs
    decreases |xs|
  {
    if xs != [] {
      assert (result + xs)[|result|] == xs[0];
      assert forall i | 0 <= i < |result| :: (result + xs)[i] == result[i];
      assert result + [xs[0]] + xs[1..] == result + xs;
      NormalizeKeeps(result + [xs[0]], xs[1..]);
    } else {
      assert result + xs == result;
    }
  }

  lemma LowerKeepsEnds(t: string)
    requires Trimmed(t)
    ensures ToLower(Trim(ToLower(t))) == ToLower(t)
  {
    var l := ToLower(t);
    assert forall i | 0 <= i < |t| :: l[i] == Lower(t[i]) && Lower(l[i]) == l[i];
    TrimIsIdentityWhenTrimmed(l);
    assert ToLower(l) == l;
  }

  lemma {:induction false} NormalizeIsNormal(result: seq<string>, values: seq<string>)
    requires Normal(result)
    requires forall v | v in values :: forall i | 0 <= i < |v| :: !IsSeparator(v[i])
    ensures Normal(NormalizeFrom(result, values))
    decreases |values|
  {
    if values != [] {
      var value := ToLower(Trim(values[0]));
      if value == "" || value in result {
        NormalizeIsNormal(result, values[1..]);
      } else {
        TrimmedLowerIsNormal(values[0]);
        NormalIsExtended(result, value);
        NormalizeIsNormal(result + [value], values[1..]);
      }
    }
  }

  lemma TrimmedLowerIsNormal(v: string)
    requires ToLower(Trim(v)) != "" && forall i | 0 <= i < |v| :: !IsSeparator(v[i])
    ensures NormalScope(ToLower(Trim(v)))
  {
    var lead, trail := TrimParts(v);
    var t := Trim(v);
    assert forall i | 0 <= i < |t| :: t[i] == v[|lead| + i];
    LowerKeepsEnds(t);
  }

  lemma NormalIsExtended(xs: seq<string>, x: string)
    requires Normal(xs) && NormalScope(x) && x !in xs
    ensures Normal(xs + [x])
  {
  }

  lemma {:induction false} FieldsHaveNoSeparator(s: string)
    ensures forall v | v in Fields(s) :: forall i | 0 <= i < |v| :: !IsSeparator(v[i])
    decreases |s|
  {
    if s != "" {
      if IsSeparator(s[0]) {
        FieldsHaveNoSeparator(s[1..]);
      } else {
        FieldsHaveNoSeparator(s[FieldLength(s)..]);
      }
    }
  }

  lemma {:induction false} NormalizedHasNoRepeats(result: seq<string>, values: seq<string>)
    requires NoRepeats(result)
    ensures NoRepeats(NormalizeFrom(result, values))
    decreases |values|
  {
    if values != [] {
      var value := ToLower(Trim(values[0]));
      NormalizedHasNoRepeats(if value == "" || value in result then result else result + [value], values[1..]);
    }
  }

  lemma LowerWordIsNormal(x: string)
    requires x != "" && forall i | 0 <= i < |x| :: 'a' <= x[i] <= 'z'
    ensures NormalScope(x)
  {
    TrimIsIdentityWhenTrimmed(x);
    assert ToLower(x) == x;
  }

  // What parsing returns is normal.
  lemma ParsedScopesAreNormal(value: string)
    ensures Normal(ParseScopes(value))
  {
    FieldsHaveNoSeparator(value);
    NormalizeIsNormal([], Fields(value));
  }

  // Joining scopes by spaces and parsing the result is the identity exactly on
  // normal lists.
  lemma JoinThenParse(xs: seq<string>)
    ensures ParseScopes(JoinScopes(xs)) == xs <==> Normal(xs)
  {
    ParsedScopesAreNormal(JoinScopes(xs));
    if Normal(xs) {
      FieldsOfJoin(xs);
      NormalizeKeeps([], xs);
      assert [] + xs == xs;
    }
  }
}
