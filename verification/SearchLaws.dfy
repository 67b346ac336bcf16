/** What a search finds, and in which order. */
module SearchLaws {
  import opened Outcomes
  import opened Text
  import opened Authn
  import opened Search

  // -------------------------------------------------- what can be found

  // Everything that matches, in scan order, whatever fails.
  function Hits(ms: seq<Meeting>): seq<ObjectRef> {
    if ms == [] then []
    else (if ms[0].Hit? then [ms[0].ref] else []) + Hits(ms[1..])
  }

  lemma {:induction false} NothingBroken(ms: seq<Meeting>)
    requires Broken !in ms
    ensures UntilBroken(ms) == (Hits(ms), false)
  {
    if ms != [] {
      NothingBroken(ms[1..]);
    }
  }

  // The query occurs in the name, in any case.
  predicate OccursIn(query: string, name: string) {
    exists i | 0 <= i <= |name| :: OccursAt(query, name, i)
  }

  predicate OccursAt(query: string, name: string, i: nat) {
    i + |query| <= |name| && forall k | 0 <= k < |query| :: Lower(name[i + k]) == query[k]
  }

  // The schemas that a connection has or, where it has a wildcard, all of them.
  function ListedSchemas(b: Backend, c: string): seq<string> {
    if b.schemas(c).None? then []
    else if "*" !in b.schemas(c).value then b.schemas(c).value
    else match b.listSchemas(c) case None => [] case Some(schemas) => schemas
  }

  function ListedTables(b: Backend, c: string, s: string): seq<string> {
    match b.listTables(c, s) case None => [] case Some(tables) => tables
  }

  function ListedColumns(b: Backend, c: string, s: string, t: string): seq<string> {
    match b.columns(c, s, t) case None => [] case Some(columns) => columns
  }

  // The table or column r of schema s has the query in it.
  ghost predicate IsHit(b: Backend, query: string, c: string, s: string, r: ObjectRef) {
    || (r.column == "" && (OccursIn(query, r.table) || OccursIn(query, s)))
    || (r.column in ListedColumns(b, c, s, r.table) && OccursIn(query, r.column))
  }

  // A table of a schema, where its name or that of the schema has the query in it,
  // or a column whose name has.
  ghost predicate InSchema(b: Backend, query: string, c: string, s: string, r: ObjectRef) {
    r.connection == c && r.schema == s && r.table in ListedTables(b, c, s) && IsHit(b, query, c, s, r)
  }

  // Those of the schemas of a connection, where it may be used.
  ghost predicate InConnection(b: Backend, p: Principal, query: string, c: string, r: ObjectRef) {
    && p.CanUseConnection(c) && exists s | s in ListedSchemas(b, c) :: InSchema(b, query, c, s, r)
  }

  lemma MatchingIsOccurring(name: string, query: string)
    ensures Matches(name, query) <==> OccursIn(query, name)
  {
    forall i | 0 <= i <= |name|
      ensures query <= ToLower(name)[i..] <==> OccursAt(query, name, i)
    {
      MatchingAt(name, query, i);
    }
  }

  lemma MatchingAt(name: string, query: string, i: nat)
    requires i <= |name|
    ensures query <= ToLower(name)[i..] <==> OccursAt(query, name, i)
  {
    var low := ToLower(name);
    assert forall k | 0 <= k < |low| - i :: low[i..][k] == low[i + k] == Lower(name[i + k]);
  }

  // The calls that a scan without a bound makes succeed: for the listed tables
  // of a schema, for the listed schemas of a connection, and for the permitted
  // ones among the connections.
  predicate TablesSucceed(b: Backend, c: string, s: string, tables: seq<string>) {
    forall t | t in tables :: b.columns(c, s, t).Some?
  }

  predicate SchemasSucceed(b: Backend, c: string, schemas: seq<string>) {
    forall s | s in schemas :: b.listTables(c, s).Some? && TablesSucceed(b, c, s, ListedTables(b, c, s))
  }

  predicate CallsSucceed(b: Backend, p: Principal, connections: seq<string>) {
    forall c | c in connections && p.CanUseConnection(c) ::
      && b.schemas(c).Some? && ("*" in b.schemas(c).value ==> b.listSchemas(c).Some?)
      && SchemasSucceed(b, c, ListedSchemas(b, c))
  }

  lemma {:induction false} HitsConcat(ms: seq<Meeting>, ns: seq<Meeting>)
    ensures Hits(ms + ns) == Hits(ms) + Hits(ns)
  {
    if ms == [] {
      assert ms + ns == ns;
    } else {
      CutAppend(ms, 1, ns);
      HitsConcat(ms[1..], ns);
      Associate(if ms[0].Hit? then [ms[0].ref] else [], Hits(ms[1..]), Hits(ns));
    }
  }

  lemma {:induction false} ColumnHits(b: Backend, query: string, c: string, s: string, t: string, columns: seq<string>,
                                      r: ObjectRef)
    ensures Broken !in ColumnMeetings(b, query, c, s, t, columns)
    ensures r in Hits(ColumnMeetings(b, query, c, s, t, columns))
      <==> r.connection == c && r.schema == s && r.table == t && r.column in columns && OccursIn(query, r.column)
  {
    if columns != [] {
      ColumnHits(b, query, c, s, t, columns[1..], r);
      MatchingIsOccurring(columns[0], query);
      assert columns == [columns[0]] + columns[1..];
      var head := ObjectRef(c, s, t, columns[0]);
      HitsConcat(if Matches(columns[0], query) then [Hit(head)] else [],
                 ColumnMeetings(b, query, c, s, t, columns[1..]));
      assert Hits([Hit(head)]) == [head];
    }
  }

  lemma OneTableHits(b: Backend, query: string, c: string, s: string, t: string, r: ObjectRef)
    requires b.columns(c, s, t).Some?
    ensures Broken !in OneTable(b, query, c, s, t)
    ensures r in Hits(OneTable(b, query, c, s, t))
      <==> r.connection == c && r.schema == s && r.table == t && IsHit(b, query, c, s, r)
  {
    ColumnHits(b, query, c, s, t, b.columns(c, s, t).value, r);
    MatchingIsOccurring(t, query);
    MatchingIsOccurring(s, query);
    HitsConcat(TableHit(query, c, s, t), DescribedMeetings(b, query, c, s, t));
    assert Hits([Hit(ObjectRef(c, s, t, ""))]) == [ObjectRef(c, s, t, "")];
  }

  lemma {:induction false} TableHits(b: Backend, query: string, c: string, s: string, tables: seq<string>, r: ObjectRef)
    requires TablesSucceed(b, c, s, tables)
    ensures Broken !in TableMeetings(b, query, c, s, tables)
    ensures r in Hits(TableMeetings(b, query, c, s, tables))
      <==> r.connection == c && r.schema == s && r.table in tables && IsHit(b, query, c, s, r)
  {
    if tables != [] {
      TableHits(b, query, c, s, tables[1..], r);
      assert tables == [tables[0]] + tables[1..];
      OneTableHits(b, query, c, s, tables[0], r);
      HitsConcat(OneTable(b, query, c, s, tables[0]), TableMeetings(b, query, c, s, tables[1..]));
    }
  }

  lemma {:induction false} SchemaHits(b: Backend, query: string, c: string, schemas: seq<string>, r: ObjectRef)
    requires SchemasSucceed(b, c, schemas)
    ensures Broken !in SchemaMeetings(b, query, c, schemas)
    ensures r in Hits(SchemaMeetings(b, query, c, schemas)) <==> exists s | s in schemas :: InSchema(b, query, c, s, r)
  {
    if schemas != [] {
      var s := schemas[0];
      SchemaHits(b, query, c, schemas[1..], r);
      assert schemas == [s] + schemas[1..];
      TableHits(b, query, c, s, ListedTables(b, c, s), r);
      HitsConcat(OneSchema(b, query, c, s), SchemaMeetings(b, query, c, schemas[1..]));
      assert r in Hits(OneSchema(b, query, c, s)) <==> InSchema(b, query, c, s, r);
    }
  }

  lemma {:induction false} AllHits(b: Backend, p: Principal, query: string, connections: seq<string>, r: ObjectRef)
    requires CallsSucceed(b, p, connections)
    ensures Broken !in AllMeetings(b, p, query, connections) && SchemasKnown(b, p, connections)
    ensures r in Hits(AllMeetings(b, p, query, connections))
      <==> exists c | c in connections :: InConnection(b, p, query, c, r)
    decreases |connections|
  {
    if connections != [] {
      var c, rest := connections[0], connections[1..];
      AllHits(b, p, query, rest, r);
      assert connections == [c] + rest;
      if p.CanUseConnection(c) {
        SchemaHits(b, query, c, ListedSchemas(b, c), r);
        HitsConcat(SchemaMeetings(b, query, c, ListedSchemas(b, c)), AllMeetings(b, p, query, rest));
      } else {
        assert [] + AllMeetings(b, p, query, rest) == AllMeetings(b, p, query, rest);
      }
    }
  }

  // ------------------------------------------------------------------ the order

  function First<T(==)>(xs: seq<T>, x: T): nat {
    if xs == [] || xs[0] == x then 0 else 1 + First(xs[1..], x)
  }

  lemma {:induction false} FirstConcat<T>(xs: seq<T>, ys: seq<T>, x: T)
    ensures First(xs + ys, x) == if x in xs then First(xs, x) else |xs| + First(ys, x)
    ensures x in xs <==> First(xs, x) < |xs|
  {
    if xs == [] {
      assert xs + ys == ys;
    } else {
      CutAppend(xs, 1, ys);
      assert (xs + ys)[0] == xs[0] && xs == [xs[0]] + xs[1..];
      FirstConcat(xs[1..], ys, x);
    }
  }

  // The place of an object in its table: the table itself, and then its columns.
  function Rank(columns: seq<string>, r: ObjectRef): nat {
    if r.column == "" then 0 else 1 + First(columns, r.column)
  }

  // (m, u) comes before (n, v), where a tie is broken by the rest.
  predicate Lexicographic(m: nat, n: nat, rest: bool) {
    m < n || (m == n && rest)
  }

  predicate InTableBefore(b: Backend, u: ObjectRef, v: ObjectRef) {
    Rank(ListedColumns(b, u.connection, u.schema, u.table), u)
    < Rank(ListedColumns(b, v.connection, v.schema, v.table), v)
  }

  predicate InSchemaBefore(b: Backend, tables: seq<string>, u: ObjectRef, v: ObjectRef) {
    Lexicographic(First(tables, u.table), First(tables, v.table), InTableBefore(b, u, v))
  }

  predicate InConnectionBefore(b: Backend, schemas: seq<string>, u: ObjectRef, v: ObjectRef) {
    Lexicographic(First(schemas, u.schema), First(schemas, v.schema),
                  InSchemaBefore(b, ListedTables(b, u.connection, u.schema), u, v))
  }

  // u comes before v: by connection, schema and table as they are listed, a table
  // before its columns, and these as they are listed.
  predicate Precedes(b: Backend, connections: seq<string>, u: ObjectRef, v: ObjectRef) {
    Lexicographic(First(connections, u.connection), First(connections, v.connection),
                  InConnectionBefore(b, ListedSchemas(b, u.connection), u, v))
  }

  // The order in xs + ys, where xs has what belongs to k and ys the rest.
  lemma OrderStep(xs: seq<ObjectRef>, ys: seq<ObjectRef>, u: ObjectRef, v: ObjectRef,
                  ks: seq<string>, ku: string, kv: string, tie: bool)
    requires ks != [] && u in xs + ys && v in xs + ys
    requires (u in xs <==> ku == ks[0]) && (v in xs <==> kv == ks[0])
    requires ku == kv == ks[0] ==> (First(xs, u) < First(xs, v) <==> tie)
    requires ku != ks[0] && kv != ks[0] ==>
      (First(ys, u) < First(ys, v) <==> Lexicographic(First(ks[1..], ku), First(ks[1..], kv), tie))
    ensures First(xs + ys, u) < First(xs + ys, v) <==> Lexicographic(First(ks, ku), First(ks, kv), tie)
  {
    FirstConcat(xs, ys, u);
    FirstConcat(xs, ys, v);
  }

  lemma {:induction false} ColumnOrder(b: Backend, query: string, c: string, s: string, t: string, columns: seq<string>,
                                       u: ObjectRef, v: ObjectRef)
    requires u in Hits(ColumnMeetings(b, query, c, s, t, columns))
    requires v in Hits(ColumnMeetings(b, query, c, s, t, columns))
    ensures
      var xs := Hits(ColumnMeetings(b, query, c, s, t, columns));
      First(xs, u) < First(xs, v) <==> First(columns, u.column) < First(columns, v.column)
  {
    if columns != [] {
      var head := if Matches(columns[0], query) then [Hit(ObjectRef(c, s, t, columns[0]))] else [];
      var rest := ColumnMeetings(b, query, c, s, t, columns[1..]);
      HitsConcat(head, rest);
      ColumnHits(b, query, c, s, t, columns, u);
      ColumnHits(b, query, c, s, t, columns, v);
      MatchingIsOccurring(columns[0], query);
      if u.column != columns[0] && v.column != columns[0] {
        ColumnOrder(b, query, c, s, t, columns[1..], u, v);
      }
      OrderStep(Hits(head), Hits(rest), u, v, columns, u.column, v.column, false);
    }
  }

  lemma OneTableOrder(b: Backend, query: string, c: string, s: string, t: string, u: ObjectRef, v: ObjectRef)
    requires query != "" && b.columns(c, s, t).Some?
    requires u in Hits(OneTable(b, query, c, s, t)) && v in Hits(OneTable(b, query, c, s, t))
    ensures
      var xs := Hits(OneTable(b, query, c, s, t));
      First(xs, u) < First(xs, v) <==> InTableBefore(b, u, v)
  {
    var head, rest := TableHit(query, c, s, t), DescribedMeetings(b, query, c, s, t);
    var columns := ListedColumns(b, c, s, t);
    HitsConcat(head, rest);
    assert Hits([Hit(ObjectRef(c, s, t, ""))]) == [ObjectRef(c, s, t, "")];
    ColumnHits(b, query, c, s, t, columns, u);
    ColumnHits(b, query, c, s, t, columns, v);
    FirstConcat(Hits(head), Hits(rest), u);
    FirstConcat(Hits(head), Hits(rest), v);
    assert !OccursIn(query, "");
    if u in Hits(rest) && v in Hits(rest) {
      ColumnOrder(b, query, c, s, t, columns, u, v);
    }
  }

  lemma {:induction false} TableOrder(b: Backend, query: string, c: string, s: string, tables: seq<string>,
                                      u: ObjectRef, v: ObjectRef)
    requires query != "" && TablesSucceed(b, c, s, tables)
    requires u in Hits(TableMeetings(b, query, c, s, tables)) && v in Hits(TableMeetings(b, query, c, s, tables))
    ensures
      var xs := Hits(TableMeetings(b, query, c, s, tables));
      First(xs, u) < First(xs, v) <==> InSchemaBefore(b, tables, u, v)
  {
    TableHits(b, query, c, s, tables, u);
    TableHits(b, query, c, s, tables, v);
    var t, later := tables[0], tables[1..];
    var head, rest := OneTable(b, query, c, s, t), TableMeetings(b, query, c, s, later);
    HitsConcat(head, rest);
    OneTableHits(b, query, c, s, t, u);
    OneTableHits(b, query, c, s, t, v);
    if u.table == v.table == t {
      OneTableOrder(b, query, c, s, t, u, v);
    } else if u.table != t && v.table != t {
      TableOrder(b, query, c, s, later, u, v);
    }
    OrderStep(Hits(head), Hits(rest), u, v, tables, u.table, v.table, InTableBefore(b, u, v));
  }

  lemma OneSchemaHits(b: Backend, query: string, c: string, s: string, r: ObjectRef)
    requires b.listTables(c, s).Some? && TablesSucceed(b, c, s, ListedTables(b, c, s))
    ensures r in Hits(OneSchema(b, query, c, s)) <==> InSchema(b, query, c, s, r)
  {
    TableHits(b, query, c, s, ListedTables(b, c, s), r);
  }

  lemma {:induction false} SchemaOrder(b: Backend, query: string, c: string, schemas: seq<string>,
                                       u: ObjectRef, v: ObjectRef)
    requires query != "" && SchemasSucceed(b, c, schemas)
    requires u in Hits(SchemaMeetings(b, query, c, schemas)) && v in Hits(SchemaMeetings(b, query, c, schemas))
    ensures
      var xs := Hits(SchemaMeetings(b, query, c, schemas));
      First(xs, u) < First(xs, v) <==> InConnectionBefore(b, schemas, u, v)
  {
    SchemaHits(b, query, c, schemas, u);
    SchemaHits(b, query, c, schemas, v);
    var s, later := schemas[0], schemas[1..];
    var head, rest := OneSchema(b, query, c, s), SchemaMeetings(b, query, c, later);
    HitsConcat(head, rest);
    OneSchemaHits(b, query, c, s, u);
    OneSchemaHits(b, query, c, s, v);
    if u.schema == v.schema == s {
      TableOrder(b, query, c, s, ListedTables(b, c, s), u, v);
    } else if u.schema != s && v.schema != s {
      SchemaOrder(b, query, c, later, u, v);
    }
    OrderStep(Hits(head), Hits(rest), u, v, schemas, u.schema, v.schema,
              InSchemaBefore(b, ListedTables(b, u.connection, u.schema), u, v));
  }

  // What is met in one connection.
  function OneConnection(b: Backend, p: Principal, query: string, c: string): seq<Meeting> {
    if p.CanUseConnection(c) && SchemasOf(b, c).Some? then SchemaMeetings(b, query, c, SchemasOf(b, c).value) else []
  }

  lemma OneConnectionHits(b: Backend, p: Principal, query: string, c: string, r: ObjectRef)
    requires CallsSucceed(b, p, [c])
    ensures r in Hits(OneConnection(b, p, query, c)) <==> InConnection(b, p, query, c, r)
  {
    if p.CanUseConnection(c) {
      assert c in [c];
      SchemaHits(b, query, c, ListedSchemas(b, c), r);
    }
  }

  lemma {:induction false} ConnectionOrder(b: Backend, p: Principal, query: string, connections: seq<string>,
                                           u: ObjectRef, v: ObjectRef)
    requires query != "" && CallsSucceed(b, p, connections)
    requires u in Hits(AllMeetings(b, p, query, connections)) && v in Hits(AllMeetings(b, p, query, connections))
    ensures
      var xs := Hits(AllMeetings(b, p, query, connections));
      First(xs, u) < First(xs, v) <==> Precedes(b, connections, u, v)
    decreases |connections|
  {
    var c, later := connections[0], connections[1..];
    AllHits(b, p, query, connections, u);
    AllHits(b, p, query, connections, v);
    var head, rest := OneConnection(b, p, query, c), AllMeetings(b, p, query, later);
    HitsConcat(head, rest);
    OneConnectionHits(b, p, query, c, u);
    OneConnectionHits(b, p, query, c, v);
    if u.connection == v.connection == c {
      SchemaOrder(b, query, c, ListedSchemas(b, c), u, v);
    } else if u.connection != c && v.connection != c {
      ConnectionOrder(b, p, query, later, u, v);
    }
    OrderStep(Hits(head), Hits(rest), u, v, connections, u.connection, v.connection,
              InConnectionBefore(b, ListedSchemas(b, u.connection), u, v));
  }

  lemma {:induction false} DeduplicatedInOrder(found: seq<ObjectRef>, refs: seq<ObjectRef>)
    ensures
      var r := Deduplicated(found, refs);
      forall i, j | |found| <= i < j < |r| :: First(refs, r[i]) < First(refs, r[j])
    decreases |refs|
  {
    if refs != [] {
      var next := if refs[0] in found then found else found + [refs[0]];
      var r := Deduplicated(next, refs[1..]);
      DeduplicatedInOrder(next, refs[1..]);
      DeduplicatedAdds(next, refs[1..]);
      assert forall i | |next| <= i < |r| :: r[i] != refs[0] && First(refs, r[i]) == 1 + First(refs[1..], r[i]);
    }
  }

  lemma {:induction false} DeduplicatedAdds(found: seq<ObjectRef>, refs: seq<ObjectRef>)
    ensures
      var r := Deduplicated(found, refs);
      found <= r && forall i | |found| <= i < |r| :: r[i] !in found
    decreases |refs|
  {
    if refs != [] {
      DeduplicatedAdds(if refs[0] in found then found else found + [refs[0]], refs[1..]);
    }
  }

  // --------------------------------------------------------------- the answer

  // The list of everything that can be found: exactly the tables and columns that
  // have the query in their name, or in that of their schema, each once, ordered by
  // connection, schema and table as they are listed, a table before its columns.
  ghost predicate Everything(b: Backend, p: Principal, query: string, all: seq<ObjectRef>) {
    && NoRepeats(all)
    && (forall r :: r in all <==> exists c | c in b.connections :: InConnection(b, p, query, c, r))
    && forall i, j | 0 <= i < |all| && 0 <= j < |all| :: i < j <==> Precedes(b, b.connections, all[i], all[j])
  }

  // When the calls for the permitted connections succeed, the answer is that list,
  // cut to the limit.
  lemma SearchFindsFirst(b: Backend, p: Principal, input: string, max: nat) returns (all: seq<ObjectRef>)
    requires CallsSucceed(b, p, b.connections) && p.HasScope("read") && ToLower(Trim(input)) != ""
    ensures SearchAnswer(b, p, input, max) == Ok(if |all| >= max then all[..max] else all)
    ensures Everything(b, p, ToLower(Trim(input)), all)
  {
    var query := ToLower(Trim(input));
    var hits := Hits(AllMeetings(b, p, query, b.connections));
    all := Deduplicated([], hits);
    AllHits(b, p, query, b.connections, ObjectRef("", "", "", ""));
    NothingBroken(AllMeetings(b, p, query, b.connections));
    DeduplicatedExtends([], hits);
    forall r
      ensures r in all <==> exists c | c in b.connections :: InConnection(b, p, query, c, r)
    {
      AllHits(b, p, query, b.connections, r);
    }
    AllInOrder(b, p, query, all);
  }

  lemma AllInOrder(b: Backend, p: Principal, query: string, all: seq<ObjectRef>)
    requires query != "" && CallsSucceed(b, p, b.connections)
    requires all == Deduplicated([], Hits(AllMeetings(b, p, query, b.connections)))
    ensures forall i, j | 0 <= i < |all| && 0 <= j < |all| :: i < j <==> Precedes(b, b.connections, all[i], all[j])
  {
    var hits := Hits(AllMeetings(b, p, query, b.connections));
    DeduplicatedInOrder([], hits);
    DeduplicatedExtends([], hits);
    forall i, j | 0 <= i < |all| && 0 <= j < |all|
      ensures i < j <==> Precedes(b, b.connections, all[i], all[j])
    {
      ConnectionOrder(b, p, query, b.connections, all[i], all[j]);
    }
  }

  // ------------------------------------------------------------------ failures

  lemma {:induction false} UnbrokenHasNone(ms: seq<Meeting>)
    requires !UntilBroken(ms).1
    ensures Broken !in ms
  {
    if ms != [] {
      UnbrokenHasNone(ms[1..]);
      assert ms == [ms[0]] + ms[1..];
    }
  }

  lemma {:induction false} UnbrokenTables(b: Backend, query: string, c: string, s: string, tables: seq<string>)
    requires Broken !in TableMeetings(b, query, c, s, tables)
    ensures TablesSucceed(b, c, s, tables)
  {
    if tables != [] {
      var t := tables[0];
      assert Broken !in OneTable(b, query, c, s, t);
      UnbrokenTables(b, query, c, s, tables[1..]);
      assert tables == [tables[0]] + tables[1..];
    }
  }

  lemma {:induction false} UnbrokenSchemas(b: Backend, query: string, c: string, schemas: seq<string>)
    requires Broken !in SchemaMeetings(b, query, c, schemas)
    ensures SchemasSucceed(b, c, schemas)
  {
    if schemas != [] {
      UnbrokenSchemas(b, query, c, schemas[1..]);
      var s := schemas[0];
      assert Broken !in OneSchema(b, query, c, s);
      UnbrokenTables(b, query, c, schemas[0], ListedTables(b, c, schemas[0]));
      assert schemas == [schemas[0]] + schemas[1..];
    }
  }

  lemma {:induction false} UnbrokenCalls(b: Backend, p: Principal, query: string, connections: seq<string>)
    requires SchemasKnown(b, p, connections) && Broken !in AllMeetings(b, p, query, connections)
    ensures CallsSucceed(b, p, connections)
    decreases |connections|
  {
    if connections != [] {
      assert connections == [connections[0]] + connections[1..];
      UnbrokenCalls(b, p, query, connections[1..]);
      if p.CanUseConnection(connections[0]) {
        UnbrokenSchemas(b, query, connections[0], ListedSchemas(b, connections[0]));
      }
    }
  }

  // An answer with fewer results than the limit hides no failure: all the calls
  // succeed, and it is the list of everything.
  lemma ShortAnswerIsComplete(b: Backend, p: Principal, input: string, max: nat)
    requires SearchAnswer(b, p, input, max).Ok? && |SearchAnswer(b, p, input, max).value| < max
    requires ToLower(Trim(input)) != ""
    ensures CallsSucceed(b, p, b.connections)
    ensures Everything(b, p, ToLower(Trim(input)), SearchAnswer(b, p, input, max).value)
  {
    var query := ToLower(Trim(input));
    UnbrokenHasNone(AllMeetings(b, p, query, b.connections));
    UnbrokenCalls(b, p, query, b.connections);
    var all := SearchFindsFirst(b, p, input, max);
  }

  // Without the read scope a search is refused; a blank one finds nothing.
  lemma SearchIsRefused(b: Backend, p: Principal, input: string, max: nat)
    ensures SearchAnswer(b, p, input, max) == Err(ReadScopeRequired) <==> !p.HasScope("read")
    ensures p.HasScope("read") && Blank(input) ==> SearchAnswer(b, p, input, max) == Ok([])
  {
    BlankIsTrimmed(input);
  }
}
