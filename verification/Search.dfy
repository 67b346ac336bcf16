/** The search tool: a bounded scan over connections, schemas, tables and
    columns that stops as soon as it has enough. */
module Search {
  import opened Outcomes
  import opened Text
  import opened Authn

  // A table, or a column of one; its identifier is an injective encoding of it.
  datatype ObjectRef = ObjectRef(connection: string, schema: string, table: string, column: string)

  // The store as the search sees it: every call may fail.
  datatype Backend = Backend(
    connections: seq<string>,
    schemas: string -> Option<seq<string>>,
    listSchemas: string -> Option<seq<string>>,
    listTables: (string, string) -> Option<seq<string>>,
    columns: (string, string, string) -> Option<seq<string>>)

  datatype SearchError = ReadScopeRequired | StoreFailed

  type Found = Result<seq<ObjectRef>, SearchError>

  predicate Matches(name: string, query: string) {
    Contains(ToLower(name), query)
  }

  // ------------------------------------------------- the unbounded scan

  // What a scan without a bound meets, in order: an object that matches, or a
  // call that fails.
  datatype Meeting = Hit(ref: ObjectRef) | Broken

  function ColumnMeetings(b: Backend, query: string, connection: string, schema: string, table: string,
                          columns: seq<string>): seq<Meeting>
  {
    if columns == [] then []
    else
      (if Matches(columns[0], query) then [Hit(ObjectRef(connection, schema, table, columns[0]))] else [])
      + ColumnMeetings(b, query, connection, schema, table, columns[1..])
  }

  function TableHit(query: string, connection: string, schema: string, table: string): seq<Meeting> {
    if Matches(table, query) || Matches(schema, query) then [Hit(ObjectRef(connection, schema, table, ""))] else []
  }

  function DescribedMeetings(b: Backend, query: string, connection: string, schema: string, table: string)
    : seq<Meeting>
  {
    match b.columns(connection, schema, table)
    case None => [Broken]
    case Some(columns) => ColumnMeetings(b, query, connection, schema, table, columns)
  }

  function OneTable(b: Backend, query: string, connection: string, schema: string, table: string): seq<Meeting> {
    TableHit(query, connection, schema, table) + DescribedMeetings(b, query, connection, schema, table)
  }

  function TableMeetings(b: Backend, query: string, connection: string, schema: string, tables: seq<string>)
    : seq<Meeting>
  {
    if tables == [] then []
    else
      OneTable(b, query, connection, schema, tables[0])
      + TableMeetings(b, query, connection, schema, tables[1..])
  }

  function OneSchema(b: Backend, query: string, connection: string, schema: string): seq<Meeting> {
    match b.listTables(connection, schema)
    case None => [Broken]
    case Some(tables) => TableMeetings(b, query, connection, schema, tables)
  }

  function SchemaMeetings(b: Backend, query: string, connection: string, schemas: seq<string>): seq<Meeting> {
    if schemas == [] then []
    else OneSchema(b, query, connection, schemas[0]) + SchemaMeetings(b, query, connection, schemas[1..])
  }

  // The schemas that are searched in a connection, if they can be told.
  function SchemasOf(b: Backend, connection: string): Option<seq<string>> {
    match b.schemas(connection)
    case None => None
    case Some(schemas) => if "*" in schemas then b.listSchemas(connection) else Some(schemas)
  }

  // Every permitted connection tells its schemas.
  predicate SchemasKnown(b: Backend, p: Principal, connections: seq<string>) {
    forall c | c in connections && p.CanUseConnection(c) :: SchemasOf(b, c).Some?
  }

  function AllMeetings(b: Backend, p: Principal, query: string, connections: seq<string>): seq<Meeting> {
    if connections == [] then []
    else
      var c := connections[0];
      (if p.CanUseConnection(c) && SchemasOf(b, c).Some? then SchemaMeetings(b, query, c, SchemasOf(b, c).value)
       else [])
      + AllMeetings(b, p, query, connections[1..])
  }

  // The objects met before the first failure, and whether there is one.
  function UntilBroken(ms: seq<Meeting>): (seq<ObjectRef>, bool) {
    if ms == [] then ([], false)
    else if ms[0].Broken? then ([], true)
    else
      var (objects, broken) := UntilBroken(ms[1..]);
      ([ms[0].ref] + objects, broken)
  }

  // Each object where it is first met.
  function Deduplicated(found: seq<ObjectRef>, objects: seq<ObjectRef>): seq<ObjectRef>
    decreases |objects|
  {
    if objects == [] then found
    else Deduplicated(if objects[0] in found then found else found + [objects[0]], objects[1..])
  }

  // The first max distinct objects of the scan; a failure matters only if it
  // comes before them.
  function FirstFound(ms: seq<Meeting>, max: nat): Found {
    var (objects, broken) := UntilBroken(ms);
    var found := Deduplicated([], objects);
    if |found| >= max then Ok(found[..max])
    else if broken then Err(StoreFailed)
    else Ok(found)
  }

  function SearchAnswer(b: Backend, p: Principal, input: string, max: nat): Found {
    var query := ToLower(Trim(input));
    if !p.HasScope("read") then Err(ReadScopeRequired)
    else if query == "" then Ok([])
    else if !SchemasKnown(b, p, b.connections) then Err(StoreFailed)
    else FirstFound(AllMeetings(b, p, query, b.connections), max)
  }

  // --------------------------------------------------------- the bounded scan

  // The results so far after scanning ms, and whether a failure stopped it.
  function Gather(found: seq<ObjectRef>, ms: seq<Meeting>, max: nat): (seq<ObjectRef>, bool)
    decreases |ms|
  {
    if ms == [] || |found| >= max then (found, false)
    else if ms[0].Broken? then (found, true)
    else Gather(if ms[0].ref in found then found else found + [ms[0].ref], ms[1..], max)
  }

  class Results {
    var found: seq<ObjectRef>
    var seen: map<ObjectRef, bool>

    ghost predicate Valid()
      reads this
    {
      forall r :: r in seen <==> r in found
    }

    constructor ()
      ensures Valid() && found == []
    {
      found := [];
      seen := map[];
    }

    method Add(ref: ObjectRef)
      requires Valid()
      modifies this
      ensures Valid() && found == if ref in old(found) then old(found) else old(found) + [ref]
    {
      if ref !in seen {
        seen := seen[ref := true];
        found := found + [ref];
      }
    }

    // The columns of one table, which is the inner loop.
    method SearchInColumns(b: Backend, query: string, connection: string, schema: string, table: string,
                           columns: seq<string>, max: nat)
      requires Valid()
      modifies this
      ensures Valid()
      ensures (found, false) == Gather(old(found), ColumnMeetings(b, query, connection, schema, table, columns), max)
    {
      ghost var answer := Gather(found, ColumnMeetings(b, query, connection, schema, table, columns), max);
      var j := 0;
      assert columns[0..] == columns;
      while j < |columns|
        invariant j <= |columns| && Valid()
        invariant Gather(found, ColumnMeetings(b, query, connection, schema, table, columns[j..]), max) == answer
      {
        if |found| >= max {
          return;
        }
        ghost var rest := ColumnMeetings(b, query, connection, schema, table, columns[j + 1..]);
        assert columns[j..][1..] == columns[j + 1..];
        var ref := ObjectRef(connection, schema, table, columns[j]);
        if Matches(columns[j], query) {
          GatherFirst(found, Hit(ref), rest, max);
          Add(ref);
        } else {
          assert [] + rest == rest;
        }
        j := j + 1;
      }
    }

    // One table and its columns; false when a call of the store fails.
    method SearchInTable(b: Backend, query: string, connection: string, schema: string, table: string, max: nat)
      returns (ok: bool)
      requires Valid() && |found| < max
      modifies this
      ensures Valid()
      ensures (found, !ok) == Gather(old(found), OneTable(b, query, connection, schema, table), max)
    {
      ghost var hit := TableHit(query, connection, schema, table);
      GatherTwice(found, hit, DescribedMeetings(b, query, connection, schema, table), max);
      GatherHit(found, hit, max);
      if Matches(table, query) || Matches(schema, query) {
        Add(ObjectRef(connection, schema, table, ""));
      }
      if |found| >= max {
        return true;
      }
      var columns := b.columns(connection, schema, table);
      if columns.None? {
        return false;
      }
      SearchInColumns(b, query, connection, schema, table, columns.value, max);
      return true;
    }

    // One schema; false when a call of the store fails.
    method SearchInSchema(b: Backend, query: string, connection: string, schema: string, max: nat) returns (ok: bool)
      requires Valid() && |found| < max
      modifies this
      ensures Valid()
      ensures (found, !ok) == Gather(old(found), OneSchema(b, query, connection, schema), max)
    {
      var tables := b.listTables(connection, schema);
      if tables.None? {
        return false;
      }
      ghost var answer := Gather(found, TableMeetings(b, query, connection, schema, tables.value), max);
      var i := 0;
      assert tables.value[0..] == tables.value;
      while i < |tables.value|
        invariant i <= |tables.value| && Valid()
        invariant Gather(found, TableMeetings(b, query, connection, schema, tables.value[i..]), max) == answer
      {
        if |found| >= max {
          return true;
        }
        assert tables.value[i..][1..] == tables.value[i + 1..];
        GatherTwice(found, OneTable(b, query, connection, schema, tables.value[i]),
                    TableMeetings(b, query, connection, schema, tables.value[i + 1..]), max);
        ok := SearchInTable(b, query, connection, schema, tables.value[i], max);
        if !ok {
          return;
        }
        i := i + 1;
      }
      ok := true;
    }

    // The schemas of one connection, until there is enough.
    method SearchInConnection(b: Backend, query: string, connection: string, schemas: seq<string>, max: nat)
      returns (ok: bool)
      requires Valid()
      modifies this
      ensures Valid()
      ensures (found, !ok) == Gather(old(found), SchemaMeetings(b, query, connection, schemas), max)
    {
      ghost var answer := Gather(found, SchemaMeetings(b, query, connection, schemas), max);
      var j := 0;
      assert schemas[0..] == schemas;
      while j < |schemas|
        invariant j <= |schemas| && Valid()
        invariant Gather(found, SchemaMeetings(b, query, connection, schemas[j..]), max) == answer
      {
        if |found| >= max {
          break;
        }
        assert schemas[j..][1..] == schemas[j + 1..];
        GatherTwice(found, OneSchema(b, query, connection, schemas[j]),
                    SchemaMeetings(b, query, connection, schemas[j + 1..]), max);
        ok := SearchInSchema(b, query, connection, schemas[j], max);
        if !ok {
          return;
        }
        j := j + 1;
      }
      ok := true;
    }
  }

  lemma GatherFirst(found: seq<ObjectRef>, m: Meeting, rest: seq<Meeting>, max: nat)
    requires m.Hit? && |found| < max
    ensures Gather(found, [m] + rest, max) == Gather(if m.ref in found then found else found + [m.ref], rest, max)
  {
    assert ([m] + rest)[1..] == rest;
  }

  lemma GatherHit(found: seq<ObjectRef>, ms: seq<Meeting>, max: nat)
    requires |ms| <= 1 && (ms != [] ==> ms[0].Hit?) && |found| < max
    ensures Gather(found, ms, max) ==
      (if ms == [] || ms[0].ref in found then found else found + [ms[0].ref], false)
  {
  }

  // A scan can be cut in two.
  lemma {:induction false} GatherTwice(found: seq<ObjectRef>, ms: seq<Meeting>, ns: seq<Meeting>, max: nat)
    ensures
      var (r, broken) := Gather(found, ms, max);
      Gather(found, ms + ns, max) == if broken then (r, true) else Gather(r, ns, max)
    decreases |ms|
  {
    if ms == [] {
      assert ms + ns == ns;
    } else if |found| < max && ms[0].Hit? {
      assert (ms + ns)[1..] == ms[1..] + ns;
      GatherTwice(if ms[0].ref in found then found else found + [ms[0].ref], ms[1..], ns, max);
    }
  }

  // ---------------------------------------- the bounded scan is the cut list

  lemma {:induction false} DeduplicatedExtends(found: seq<ObjectRef>, refs: seq<ObjectRef>)
    ensures found <= Deduplicated(found, refs)
    ensures NoRepeats(found) ==> NoRepeats(Deduplicated(found, refs))
    ensures forall r :: r in Deduplicated(found, refs) <==> r in found || r in refs
    decreases |refs|
  {
    if refs != [] {
      DeduplicatedExtends(if refs[0] in found then found else found + [refs[0]], refs[1..]);
      assert refs == [refs[0]] + refs[1..];
    }
  }

  lemma {:induction false} GatherIsCut(found: seq<ObjectRef>, ms: seq<Meeting>, max: nat)
    requires |found| <= max
    ensures
      var (refs, broken) := UntilBroken(ms);
      var all := Deduplicated(found, refs);
      Gather(found, ms, max) == if |all| >= max then (all[..max], false) else (all, broken)
    decreases |ms|
  {
    var refs := UntilBroken(ms).0;
    DeduplicatedExtends(found, refs);
    if |found| == max {
      assert Deduplicated(found, refs)[..max] == found;
    } else if ms != [] && ms[0].Hit? {
      GatherIsCut(if ms[0].ref in found then found else found + [ms[0].ref], ms[1..], max);
      assert refs[0] == ms[0].ref && refs[1..] == UntilBroken(ms[1..]).0;
    }
  }

  // The scan of the remaining connections, and whether it is stopped: by a call
  // that fails before there is enough, or by schemas that cannot be told.
  function GatherAll(b: Backend, p: Principal, query: string, connections: seq<string>, found: seq<ObjectRef>, max: nat)
    : (seq<ObjectRef>, bool)
    decreases |connections|
  {
    if connections == [] then (found, false)
    else if !p.CanUseConnection(connections[0]) then GatherAll(b, p, query, connections[1..], found, max)
    else
      match SchemasOf(b, connections[0])
      case None => (found, true)
      case Some(schemas) =>
        var (found1, broken) := Gather(found, SchemaMeetings(b, query, connections[0], schemas), max);
        if broken then (found1, true) else GatherAll(b, p, query, connections[1..], found1, max)
  }

  lemma {:induction false} GatherAllIsGather(b: Backend, p: Principal, query: string, connections: seq<string>,
                                             found: seq<ObjectRef>, max: nat)
    ensures
      var (r, broken) := Gather(found, AllMeetings(b, p, query, connections), max);
      var (s, stopped) := GatherAll(b, p, query, connections, found, max);
      && (stopped <==> broken || !SchemasKnown(b, p, connections))
      && (!stopped ==> r == s)
    decreases |connections|
  {
    if connections != [] {
      var c, rest := connections[0], connections[1..];
      assert connections == [c] + rest;
      var later := AllMeetings(b, p, query, rest);
      if p.CanUseConnection(c) && SchemasOf(b, c).Some? {
        var ms := SchemaMeetings(b, query, c, SchemasOf(b, c).value);
        GatherTwice(found, ms, later, max);
        GatherAllIsGather(b, p, query, rest, Gather(found, ms, max).0, max);
      } else if !p.CanUseConnection(c) {
        assert [] + later == later;
        GatherAllIsGather(b, p, query, rest, found, max);
      }
    }
  }

  // Stopped or not, the scan over all connections is the answer.
  lemma GatherAllAnswers(b: Backend, p: Principal, input: string, max: nat)
    requires p.HasScope("read") && ToLower(Trim(input)) != ""
    ensures
      var (s, stopped) := GatherAll(b, p, ToLower(Trim(input)), b.connections, [], max);
      SearchAnswer(b, p, input, max) == if stopped then Err(StoreFailed) else Ok(s)
  {
    var query := ToLower(Trim(input));
    GatherAllIsGather(b, p, query, b.connections, [], max);
    GatherIsCut([], AllMeetings(b, p, query, b.connections), max);
  }

  method SchemasToSearch(b: Backend, connection: string) returns (r: Option<seq<string>>)
    ensures r == SchemasOf(b, connection)
  {
    r := b.schemas(connection);
    if r.Some? && "*" in r.value {
      r := b.listSchemas(connection);
    }
  }

  // Every object found first in a bounded scan, or the failure that stops it.
  method SearchObjects(b: Backend, p: Principal, input: string, max: nat) returns (r: Found)
    ensures r == SearchAnswer(b, p, input, max)
  {
    if !p.HasScope("read") {
      return Err(ReadScopeRequired);
    }
    var query := ToLower(Trim(input));
    if query == "" {
      return Ok([]);
    }
    var results := new Results();
    ghost var whole := GatherAll(b, p, query, b.connections, [], max);
    GatherAllAnswers(b, p, input, max);
    var i := 0;
    assert b.connections[0..] == b.connections;
    while i < |b.connections|
      invariant i <= |b.connections| && fresh(results) && results.Valid()
      invariant GatherAll(b, p, query, b.connections[i..], results.found, max) == whole
    {
      var connection := b.connections[i];
      assert b.connections[i..][1..] == b.connections[i + 1..];
      i := i + 1;
      if !p.CanUseConnection(connection) {
        continue;
      }
      var schemas := SchemasToSearch(b, connection);
      if schemas.None? {
        return Err(StoreFailed);
      }
      var ok := results.SearchInConnection(b, query, connection, schemas.value, max);
      if !ok {
        return Err(StoreFailed);
      }
    }
    return Ok(results.found);
  }
}
