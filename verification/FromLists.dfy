/** Lists of tables in a FROM clause: which of their commas the guard sees. */
module FromLists {
  import opened Outcomes
  import opened Text
  import opened Lexer
  import opened Config
  import opened Guard
  import opened GuardLaws
  import opened LimitLaws
  import opened Examples

  predicate SignAt(ts: seq<Token>, i: nat, text: string) {
    i < |ts| && ts[i].kind == Symbol && ts[i].text == text
  }

  // The words after which a FROM clause is over.
  const END_WORDS: set<string> := {
    "where", "group", "order", "having", "limit", "offset", "fetch", "for",
    "union", "intersect", "except", "returning", "window", "set", "values"}

  predicate EndsClause(ts: seq<Token>, i: nat)
    requires i < |ts|
  {
    SignAt(ts, i, ";") || (ts[i].kind == Identifier && !ts[i].quoted && ToLower(ts[i].text) in END_WORDS)
  }

  // From token i on, inside so many parentheses, c is a comma between two items
  // of the clause.
  predicate Separates(ts: seq<Token>, i: nat, depth: nat, c: nat)
    decreases |ts| - i
  {
    i < |ts| && (
      if SignAt(ts, i, "(") then Separates(ts, i + 1, depth + 1, c)
      else if SignAt(ts, i, ")") then depth > 0 && Separates(ts, i + 1, depth - 1, c)
      else if depth == 0 && EndsClause(ts, i) then false
      else (depth == 0 && i == c && SignAt(ts, i, ",")) || Separates(ts, i + 1, depth, c))
  }

  // Looking for a list stops here: at a parenthesis or a word of CLAUSE_WORDS,
  // among which are those of joins.
  predicate StopsAt(ts: seq<Token>, j: nat)
    requires j < |ts|
  {
    || ts[j].text == "("
    || (ts[j].kind == Identifier && !ts[j].quoted && ToLower(ts[j].text) in CLAUSE_WORDS)
  }

  predicate StopsBefore(ts: seq<Token>, i: nat, c: nat)
    requires c <= |ts|
  {
    exists j | i <= j < c :: StopsAt(ts, j)
  }

  // A list is seen exactly when it has a comma with no stop before it.
  lemma {:induction false} ListIsSeen(ts: seq<Token>, i: nat)
    ensures ListFollows(ts, i) <==> exists c | i <= c < |ts| :: ts[c].text == "," && !StopsBefore(ts, i, c)
    decreases |ts| - i
  {
    if i < |ts| && ts[i].text != "," {
      ListIsSeen(ts, i + 1);
      forall c | i < c < |ts|
        ensures StopsBefore(ts, i, c) <==> StopsAt(ts, i) || StopsBefore(ts, i + 1, c)
      {
      }
    }
    if i < |ts| && ts[i].text == "," {
      assert !StopsBefore(ts, i, i);
    }
  }

  lemma {:induction false} SeparatorsAreCommas(ts: seq<Token>, i: nat, depth: nat, c: nat)
    requires Separates(ts, i, depth, c)
    ensures i <= c < |ts| && SignAt(ts, c, ",")
    decreases |ts| - i
  {
    if SignAt(ts, i, "(") {
      SeparatorsAreCommas(ts, i + 1, depth + 1, c);
    } else if SignAt(ts, i, ")") {
      SeparatorsAreCommas(ts, i + 1, depth - 1, c);
    } else if !(depth == 0 && i == c && SignAt(ts, i, ",")) {
      SeparatorsAreCommas(ts, i + 1, depth, c);
    }
  }

  // The clause goes on with no second item.
  predicate NoMoreItems(ts: seq<Token>, i: nat) {
    forall c | i <= c < |ts| :: !Separates(ts, i, 0, c)
  }

  // In an accepted statement the relation after a FROM that is read is the only
  // item of its clause, apart from what is joined to it by JOINs, which are read
  // too, exactly when no comma of the clause has a stop before it.
  lemma FromHasOneItem(sql: string, cfg: ConnectionConfig, mode: Mode, k: nat)
    requires Validate(sql, cfg, mode).valid
    requires
      var ts := TokensOf(sql);
      ReadsRelation(ts, Operation(ts), k) && !ConsumedAsName(ts, Operation(ts), k)
    ensures
      var ts := TokensOf(sql);
      && ReadRelation(ts, k).Ok?
      && var i := ReadRelation(ts, k).value.next;
         NoMoreItems(ts, i) <==> forall c | i <= c < |ts| && Separates(ts, i, 0, c) :: !StopsBefore(ts, i, c)
  {
    AcceptedRelations(sql, cfg, mode, k);
    var ts := TokensOf(sql);
    var i := ReadRelation(ts, k).value.next;
    ListIsSeen(ts, i);
    forall c | i <= c < |ts| && Separates(ts, i, 0, c)
      ensures StopsBefore(ts, i, c)
    {
      SeparatorsAreCommas(ts, i, 0, c);
    }
  }

  lemma {:induction false} SeparatorsComeFirst(ts: seq<Token>, i: nat, e: nat, c: nat)
    requires i <= e <= |ts| && (e == |ts| || EndsClause(ts, e) || SignAt(ts, e, ")"))
    requires !StopsBefore(ts, i, e) && Separates(ts, i, 0, c)
    ensures c < e
    decreases e - i
  {
    if i < e {
      assert !StopsAt(ts, i);
      if !(i == c && SignAt(ts, i, ",")) {
        SeparatorsComeFirst(ts, i + 1, e, c);
      }
    }
  }

  // So it is with every clause that ends at e without parentheses and words of
  // joins before.
  lemma JoinlessHasOneItem(sql: string, cfg: ConnectionConfig, mode: Mode, k: nat, e: nat)
    requires Validate(sql, cfg, mode).valid
    requires
      var ts := TokensOf(sql);
      ReadsRelation(ts, Operation(ts), k) && !ConsumedAsName(ts, Operation(ts), k)
    requires
      var ts := TokensOf(sql);
      e <= |ts| && (e == |ts| || EndsClause(ts, e) || SignAt(ts, e, ")"))
    requires
      var ts := TokensOf(sql);
      ReadRelation(ts, k).Ok? ==>
        ReadRelation(ts, k).value.next <= e && !StopsBefore(ts, ReadRelation(ts, k).value.next, e)
    ensures
      var ts := TokensOf(sql);
      ReadRelation(ts, k).Ok? && NoMoreItems(ts, ReadRelation(ts, k).value.next)
  {
    FromHasOneItem(sql, cfg, mode, k);
    var ts := TokensOf(sql);
    var i := ReadRelation(ts, k).value.next;
    forall c | i <= c < |ts| && Separates(ts, i, 0, c)
      ensures !StopsBefore(ts, i, c)
    {
      SeparatorsComeFirst(ts, i, e, c);
    }
  }

  // --------------------------------------------------------- a list not seen

  lemma {:induction false} ItemTokensAre(items: seq<string>)
    ensures |ItemTokens(items)| == |items|
    ensures forall i | 0 <= i < |items| :: ItemTokens(items)[i] == ItemToken(items[i])
  {
    if items != [] {
      ItemTokensAre(items[1..]);
      forall i | 0 < i < |items|
        ensures ItemTokens(items)[i] == ItemToken(items[i])
      {
        assert ItemTokens(items)[i] == ItemTokens(items[1..])[i - 1];
      }
    }
  }

  lemma WordsAreKeywords(items: seq<string>, i: int, v: string)
    requires forall w | w in items :: IsItem(w)
    ensures KeywordAt(ItemTokens(items), i, v) <==> 0 <= i < |items| && IsWord(items[i]) && items[i] == v
  {
    ItemTokensAre(items);
    if 0 <= i < |items| {
      assert IsItem(items[i]);
      if IsWord(items[i]) {
        LowerWord(items[i]);
        WordToken(items[i]);
      }
    }
  }

  // A word that is nothing to the guard.
  predicate Ordinary(w: string) {
    && IsWord(w) && Harmless(w)
    && w != "from" && w != "join" && w != "references" && w != "using" && w != "update" && w != "into"
    && w != "inherits" && w != "only" && w != "table" && w != "if" && w != "exists" && w != "for" && w != "limit"
    && w !in END_WORDS
  }

  predicate IsComma(w: string) { w == "," }
  predicate IsDot(w: string) { w == "." }
  predicate IsStar(w: string) { w == "*" }
  predicate IsMark(w: string) { IsComma(w) || IsDot(w) || IsStar(w) }

  // What the guard is to know of the items.
  predicate Seen(items: seq<string>) {
    && |items| == 12 && items[2] == "from" && items[4] == "join"
    && IsMark(items[1]) && IsMark(items[8]) && IsMark(items[10])
    && forall k | 0 <= k < 12 && k != 1 && k != 2 && k != 4 && k != 8 && k != 10 :: Ordinary(items[k])
  }

  // select * from t join u on c , s . x, for any ordinary words.
  predicate Listed(items: seq<string>) {
    && Seen(items)
    && items[0] == "select" && IsStar(items[1]) && items[6] == "on" && IsComma(items[8]) && IsDot(items[10])
  }

  lemma SeenAreItems(items: seq<string>)
    requires Seen(items)
    ensures forall w | w in items :: IsItem(w) && w != "("
  {
    JoinIsHarmless();
    forall k | 0 <= k < 12
      ensures IsItem(items[k]) && items[k] != "("
    {
      assert items[k][0] != '(';
    }
  }

  lemma SeenWords(items: seq<string>, i: int, v: string)
    requires Seen(items) && forall w | w in items :: IsItem(w)
    requires !Ordinary(v)
    ensures KeywordAt(ItemTokens(items), i, v) <==> (i == 2 && v == "from") || (i == 4 && v == "join")
  {
    WordsAreKeywords(items, i, v);
  }

  lemma SignIsHarmless(w: string)
    requires IsSign(w)
    ensures HarmlessToken(ItemToken(w))
  {
    assert ToLower(w)[0] == w[0];
    assert forall v | v in DANGEROUS_NAMES || v in FORBIDDEN_STATEMENTS :: |v| > 1;
  }

  lemma WordIsHarmless(w: string)
    requires IsWord(w) && Harmless(w)
    ensures HarmlessToken(ItemToken(w))
  {
    LowerWord(w);
    WordToken(w);
  }

  lemma JoinIsHarmless()
    ensures Harmless("join") && Harmless("from")
  {
    TheseAreHarmless();
    assert "join"[0] == 'j';
  }

  lemma SeenIsHarmless(items: seq<string>)
    requires Seen(items) && forall w | w in items :: IsItem(w)
    ensures BadToken(ItemTokens(items), 0).None?
  {
    ItemTokensAre(items);
    JoinIsHarmless();
    forall i | 0 <= i < |items|
      ensures HarmlessToken(ItemTokens(items)[i])
    {
      if IsMark(items[i]) {
        SignIsHarmless(items[i]);
      } else {
        WordIsHarmless(items[i]);
      }
    }
    NoBadToken(ItemTokens(items), 0);
  }

  lemma SeenCallsNothing(items: seq<string>, cfg: ConnectionConfig)
    requires forall w | w in items :: w != "("
    ensures FunctionSchemasAllowed(ItemTokens(items), cfg)
  {
    var ts := ItemTokens(items);
    ItemTokensAre(items);
    assert forall i | 0 <= i < |ts| :: ts[i].text == items[i] && items[i] in items;
    assert forall i | 0 <= i < |ts| :: !QualifiedCallAt(ts, i);
  }

  lemma SeenIsChecked(items: seq<string>)
    requires Seen(items) && forall w | w in items :: IsItem(w)
    requires items[0] == "select"
    ensures
      var ts := ItemTokens(items);
      CheckTokens(ts).None? && Operation(ts) == "select" && !ContainsKeyword(ts, "limit")
  {
    var ts := ItemTokens(items);
    SeenIsHarmless(items);
    WordsAreKeywords(items, 0, "select");
    forall i: int
      ensures !KeywordAt(ts, i, "for") && !KeywordAt(ts, i, "into") && !KeywordAt(ts, i, "limit")
    {
      SeenWords(items, i, "for");
      SeenWords(items, i, "into");
      SeenWords(items, i, "limit");
    }
    NothingLocked(ts);
  }

  lemma SeenReads(items: seq<string>, i: nat)
    requires Seen(items) && forall w | w in items :: IsItem(w)
    ensures ReadsRelation(ItemTokens(items), "select", i) <==> i == 2 || i == 4
  {
    SeenWords(items, i, "from");
    SeenWords(items, i, "join");
    SeenWords(items, i, "references");
    SeenWords(items, i, "using");
    SeenWords(items, i, "update");
    SeenWords(items, i, "into");
  }

  lemma SeenReadsTwo(items: seq<string>)
    requires Seen(items) && forall w | w in items :: IsItem(w)
    ensures forall i: nat :: ReadsRelation(ItemTokens(items), "select", i) <==> i == 2 || i == 4
  {
    forall i: nat
      ensures ReadsRelation(ItemTokens(items), "select", i) <==> i == 2 || i == 4
    {
      SeenReads(items, i);
    }
  }

  // A word at i + 1 is a reference where the search for a list stops at once.
  lemma ReadBeforeStop(ts: seq<Token>, i: nat, n: string)
    requires i + 2 < |ts| && ts[i + 1] == Word(n) && IsWord(n)
    requires !KeywordAt(ts, i, "inherits") && !ParenthesesAllowed(ts, i)
    requires !KeywordAt(ts, i + 1, "only") && !KeywordAt(ts, i + 1, "table")
    requires !KeywordAt(ts, i + 1, "if") && !KeywordAt(ts, i + 1, "exists")
    requires StopsAt(ts, i + 2) && IsWord(ts[i + 2].text)
    ensures ReadRelation(ts, i) == Ok(Relation(None, n, i + 2))
  {
    LowerWord(n);
    assert RelationStart(ts, i) == i + 1;
    assert RelationAt(ts, i + 1, false) == Ok(Relation(None, n, i + 2));
  }

  lemma SeenReference(items: seq<string>, i: nat)
    requires Seen(items) && forall w | w in items :: IsItem(w)
    requires (i == 2 || i == 4) && IsWord(items[i + 1]) && IsWord(items[i + 2]) && items[i + 2] in CLAUSE_WORDS
    ensures ReadRelation(ItemTokens(items), i) == Ok(Relation(None, items[i + 1], i + 2))
  {
    var ts := ItemTokens(items);
    ItemTokensAre(items);
    SeenWords(items, i, "inherits");
    SeenWords(items, i, "into");
    SeenWords(items, i, "references");
    SeenWords(items, i + 1, "only");
    SeenWords(items, i + 1, "table");
    SeenWords(items, i + 1, "if");
    SeenWords(items, i + 1, "exists");
    WordToken(items[i + 1]);
    WordToken(items[i + 2]);
    LowerWord(items[i + 2]);
    ReadBeforeStop(ts, i, items[i + 1]);
  }

  lemma {:induction false} NothingRead(ts: seq<Token>, op: string, i: nat)
    requires forall k | i <= k < |ts| :: !ReadsRelation(ts, op, k)
    ensures References(ts, op, i) == Ok([])
    decreases |ts| - i
  {
    if i < |ts| {
      NothingRead(ts, op, i + 1);
    }
  }

  lemma TwoRead(ts: seq<Token>, op: string, r: Relation, s: Relation)
    requires |ts| > 4 && forall i: nat :: ReadsRelation(ts, op, i) <==> i == 2 || i == 4
    requires ReadRelation(ts, 2) == Ok(r) && r.next == 4 && ReadRelation(ts, 4) == Ok(s)
    ensures References(ts, op, 0) == Ok([Reference(2, r), Reference(4, s)])
  {
    var t, u := Reference(2, r), Reference(4, s);
    NothingRead(ts, op, s.next);
    assert [u] + [] == [u] && [t] + [u] == [t, u];
    assert References(ts, op, 4) == Ok([u]);
    assert References(ts, op, 2) == Ok([t, u]);
    assert References(ts, op, 1) == References(ts, op, 2);
  }

  lemma TwoTables(r: Reference, s: Reference, a: string, b: string)
    requires r.relation.Table() == a && s.relation.Table() == b && a != b && a != "" && b != ""
    ensures AppendUnique([], Tables([r, s])) == [a, b]
  {
    assert [r, s][1..] == [s] && [s][1..] == [];
    assert Tables([s]) == [b];
    assert Tables([r, s]) == [a] + [b] == [a, b];
    assert [a, b][1..] == [b] && [b][1..] == [] && [] + [a] == [a] && [a] + [b] == [a, b];
    assert AppendNew([a], b) == [a, b];
    assert AppendUnique([a], [b]) == AppendUnique([a, b], []) == [a, b];
  }

  lemma PublicName(n: string)
    requires IsWord(n)
    ensures NormalizeTable(n) == "public." + n && SplitTable("public." + n) == ("public", n)
  {
    TrimIsIdentityWhenTrimmed(n);
    BareNameRecovered(n);
  }

  lemma SeenTables(items: seq<string>)
    requires Seen(items) && forall w | w in items :: IsItem(w)
    requires IsWord(items[3]) && IsWord(items[5]) && IsWord(items[6])
    requires items[4] in CLAUSE_WORDS && items[6] in CLAUSE_WORDS
    requires items[3] != items[5]
    ensures TableRefs(ItemTokens(items), "select") == Ok(["public." + items[3], "public." + items[5]])
  {
    SeenReferences(items);
    TwoPublicTables(Reference(2, Relation(None, items[3], 4)), Reference(4, Relation(None, items[5], 6)));
  }

  lemma SeenBoth(items: seq<string>)
    requires Seen(items) && forall w | w in items :: IsItem(w)
    requires forall k | 3 <= k <= 6 :: IsWord(items[k])
    requires items[4] in CLAUSE_WORDS && items[6] in CLAUSE_WORDS
    ensures ReadRelation(ItemTokens(items), 2) == Ok(Relation(None, items[3], 4))
    ensures ReadRelation(ItemTokens(items), 4) == Ok(Relation(None, items[5], 6))
  {
    SeenReference(items, 2);
    SeenReference(items, 4);
  }

  lemma SeenReferences(items: seq<string>)
    requires Seen(items) && forall w | w in items :: IsItem(w)
    requires IsWord(items[3]) && IsWord(items[5]) && IsWord(items[6])
    requires items[4] in CLAUSE_WORDS && items[6] in CLAUSE_WORDS
    ensures References(ItemTokens(items), "select", 0)
      == Ok([Reference(2, Relation(None, items[3], 4)), Reference(4, Relation(None, items[5], 6))])
  {
    JoinGoesOn();
    SeenReadsTwo(items);
    SeenBoth(items);
    assert |ItemTokens(items)| == 12 by {
      ItemTokensAre(items);
    }
    TwoRead(ItemTokens(items), "select", Relation(None, items[3], 4), Relation(None, items[5], 6));
  }

  lemma TwoPublicTables(r: Reference, s: Reference)
    requires r.relation.schema.None? && s.relation.schema.None? && r.relation.name != s.relation.name
    requires IsWord(r.relation.name) && IsWord(s.relation.name)
    ensures AppendUnique([], Tables([r, s])) == ["public." + r.relation.name, "public." + s.relation.name]
  {
    var t, u := r.relation.name, s.relation.name;
    PublicName(t);
    PublicName(u);
    assert ("public." + t)[7..] == t && ("public." + u)[7..] == u;
    TwoTables(r, s, "public." + t, "public." + u);
  }

  lemma SelectTwo(ts: seq<Token>, t: string, u: string, cfg: ConnectionConfig)
    requires CheckTokens(ts).None? && FunctionSchemasAllowed(ts, cfg) && ts != []
    requires Operation(ts) == "select" && TableRefs(ts, "select") == Ok(["public." + t, "public." + u])
    requires cfg.SchemaAllowed("public") && IsWord(t) && IsWord(u) && !ContainsKeyword(ts, "limit")
    ensures Judge(ts, cfg, Read)
      == Verdict(true, true, "select", ["public." + t, "public." + u], [NoLimit], None)
  {
    PublicName(t);
    PublicName(u);
    RefusedTableNone(cfg, ["public." + t, "public." + u], []);
  }

  lemma ListedIsJudged(items: seq<string>, cfg: ConnectionConfig)
    requires Listed(items) && items[3] != items[5] && cfg.SchemaAllowed("public")
    ensures Judge(ItemTokens(items), cfg, Read)
      == Verdict(true, true, "select", ["public." + items[3], "public." + items[5]], [NoLimit], None)
  {
    SeenAreItems(items);
    ItemTokensAre(items);
    SeenIsChecked(items);
    SeenCallsNothing(items, cfg);
    JoinStops();
    SeenTables(items);
    SelectTwo(ItemTokens(items), items[3], items[5], cfg);
  }

  lemma KeepsGoing(ts: seq<Token>, i: nat)
    requires i < |ts| && IsWord(ts[i].text) && ts[i].text !in END_WORDS && Separates(ts, i + 1, 0, 8)
    ensures Separates(ts, i, 0, 8)
  {
    var w := ts[i].text;
    assert w[0] == '_' || 'a' <= w[0] <= 'z';
    LowerWord(w);
  }

  // The comma at c is in the clause that goes on at i, after a stop.
  predicate HidesComma(ts: seq<Token>, i: nat, c: nat) {
    c < |ts| && Separates(ts, i, 0, c) && StopsBefore(ts, i, c)
  }

  lemma ListedSeparator(items: seq<string>)
    requires Seen(items) && IsComma(items[8]) && forall k | 3 <= k < 8 :: IsWord(items[k])
    ensures HidesComma(ItemTokens(items), 4, 8)
  {
    var ts := ItemTokens(items);
    ItemTokensAre(items);
    JoinGoesOn();
    JoinStops();
    LowerWord(items[4]);
    WordToken(items[4]);
    assert StopsAt(ts, 4);
    assert Separates(ts, 8, 0, 8);
    KeepsGoing(ts, 7);
    KeepsGoing(ts, 6);
    KeepsGoing(ts, 5);
    KeepsGoing(ts, 4);
  }

  lemma JoinGoesOn()
    ensures "join" !in END_WORDS && IsWord("join")
  {
    assert "join"[0] == 'j';
  }

  lemma JoinStops()
    ensures "join" in CLAUSE_WORDS && "on" in CLAUSE_WORDS && IsWord("on")
  {
  }

  lemma SpacedIsJudged(items: seq<string>, cfg: ConnectionConfig)
    requires items != [] && forall w | w in items :: IsItem(w)
    ensures TokensOf(Spaced(items)) == ItemTokens(items)
    ensures Validate(Spaced(items), cfg, Read) == Judge(ItemTokens(items), cfg, Read)
  {
    SpacedIsPlain(items);
    PlainStatement(Spaced(items));
    LexSpaced(items);
  }

  // The list after ON is not seen: wherever public is allowed, such a query is
  // accepted with the tables t and u of public, whatever the policy says of s,
  // though a comma of its FROM clause has s.x after it.
  lemma ListAfterOnIsMissed(items: seq<string>, cfg: ConnectionConfig)
    requires Listed(items) && items[3] != items[5] && cfg.SchemaAllowed("public")
    ensures
      var ts := TokensOf(Spaced(items));
      && Validate(Spaced(items), cfg, Read)
         == Verdict(true, true, "select", ["public." + items[3], "public." + items[5]], [NoLimit], None)
      && HidesComma(ts, 4, 8) && ts[9..] == [Word(items[9]), Sign("."), Word(items[11])]
  {
    SeenAreItems(items);
    SpacedIsJudged(items, cfg);
    ListedIsJudged(items, cfg);
    ListedEnd(items);
  }

  lemma ListedEnd(items: seq<string>)
    requires Listed(items)
    ensures HidesComma(ItemTokens(items), 4, 8)
    ensures ItemTokens(items)[9..] == [Word(items[9]), Sign("."), Word(items[11])]
  {
    SeenAreItems(items);
    ListedAreWords(items);
    ListedSeparator(items);
    LastThree(items);
  }

  lemma LastThree(items: seq<string>)
    requires |items| == 12 && IsWord(items[9]) && IsDot(items[10]) && IsWord(items[11])
    ensures |ItemTokens(items)| == 12
    ensures ItemTokens(items)[9..] == [Word(items[9]), Sign("."), Word(items[11])]
  {
    ItemTokensAre(items);
    WordToken(items[9]);
    WordToken(items[11]);
  }

  lemma ListedAreWords(items: seq<string>)
    requires Seen(items)
    ensures forall k | 3 <= k < 8 :: IsWord(items[k])
  {
    JoinGoesOn();
    assert Ordinary(items[3]) && Ordinary(items[5]) && Ordinary(items[6]) && Ordinary(items[7]);
  }

  lemma LettersAreOrdinary(w: string)
    requires IsWord(w) && |w| == 1
    ensures Ordinary(w)
  {
    assert forall v | v in DANGEROUS_NAMES || v in FORBIDDEN_STATEMENTS || v in END_WORDS :: |v| > 1;
  }

  lemma FixedAreOrdinary()
    ensures Ordinary("on") && Ordinary("true")
  {
    assert "on"[0] == 'o' && "true"[1] == 'r';
  }

  lemma SelectIsOrdinary()
    ensures Ordinary("select")
  {
    TheseAreHarmless();
  }

  // There are such queries, with any letters for the names: select * from t join
  // u on true , s . x
  lemma ListedExists(items: seq<string>)
    requires |items| == 12 && items[0] == "select" && IsStar(items[1]) && items[2] == "from" && items[4] == "join"
    requires items[6] == "on" && items[7] == "true" && IsComma(items[8]) && IsDot(items[10])
    requires forall k | k in {3, 5, 9, 11} :: IsWord(items[k]) && |items[k]| == 1
    ensures Listed(items)
  {
    FixedAreOrdinary();
    SelectIsOrdinary();
    LettersAreOrdinary(items[3]);
    LettersAreOrdinary(items[5]);
    LettersAreOrdinary(items[9]);
    LettersAreOrdinary(items[11]);
  }
}
