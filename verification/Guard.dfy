/** The token-level policy checker: what one SQL statement may say. */
module Guard {
  import opened Outcomes
  import opened Text
  import opened Scan
  import opened Lexer
  import opened Config

  datatype Mode = Read | DML | Explain | DDL

  datatype Reason =
    | SqlRequired
    | NotOneStatement
    | Unlexable(error: LexError)
    | ForbiddenWord
    | RowLocking
    | SelectInto
    | FunctionSchema
    | NotDDL
    | DDLDisabled
    | UnsafeCascade
    | UnsupportedObject
    | NotSimpleReference
    | RelationList
    | NoObject
    | OnlySelect
    | OnlyDML
    | NoTarget
    | SchemaRefused(schema: string)
    | DMLRefused(schema: string, table: string, operation: string)

  datatype Warning = NoLimit | ConsequentialDDL

  datatype Verdict = Verdict(
    valid: bool,
    readOnly: bool,
    operation: string,
    tables: seq<string>,
    warnings: seq<Warning>,
    reason: Option<Reason>)

  function Invalid(reason: Reason): Verdict {
    Verdict(false, false, "", [], [], Some(reason))
  }

  function InvalidFor(op: string, readOnly: bool, reason: Reason): Verdict {
    Verdict(false, readOnly, op, [], [], Some(reason))
  }

  // ------------------------------------------------------------------ words

  // value is in lower case wherever this is used.
  predicate IsKeyword(t: Token, value: string) {
    t.kind == Identifier && !t.quoted && ToLower(t.text) == value
  }

  predicate KeywordAt(ts: seq<Token>, i: int, value: string) {
    0 <= i < |ts| && IsKeyword(ts[i], value)
  }

  // The guard compares texts of punctuation without looking at the kind.
  predicate TextAt(ts: seq<Token>, i: int, text: string) {
    0 <= i < |ts| && ts[i].text == text
  }

  predicate NameAt(ts: seq<Token>, i: int) {
    0 <= i < |ts| && ts[i].kind == Identifier
  }

  function IdentifierValue(t: Token): string {
    if t.quoted then t.text else ToLower(t.text)
  }

  function Operation(ts: seq<Token>): string {
    if ts == [] || ts[0].kind != Identifier || ts[0].quoted then "" else ToLower(ts[0].text)
  }

  predicate SequenceAt(ts: seq<Token>, i: nat, values: seq<string>) {
    forall j | 0 <= j < |values| :: KeywordAt(ts, i + j, values[j])
  }

  predicate ContainsSequence(ts: seq<Token>, values: seq<string>) {
    values != [] && exists i | 0 <= i <= |ts| :: SequenceAt(ts, i, values)
  }

  predicate ContainsKeyword(ts: seq<Token>, value: string) {
    exists i | 0 <= i < |ts| :: KeywordAt(ts, i, value)
  }

  const DANGEROUS_NAMES: set<string> := {
    "pg_sleep", "pg_terminate_backend", "pg_cancel_backend",
    "pg_notify", "pg_read_file", "pg_read_binary_file", "pg_ls_dir",
    "pg_ls_waldir", "pg_ls_logdir", "pg_ls_archive_statusdir", "pg_ls_tmpdir",
    "pg_stat_file", "pg_reload_conf", "pg_rotate_logfile",
    "pg_create_physical_replication_slot", "pg_drop_replication_slot",
    "pg_create_logical_replication_slot",
    "pg_logical_slot_get_changes", "pg_logical_slot_peek_changes",
    "dblink", "dblink_connect", "dblink_exec", "lo_import",
    "lo_export", "lo_open", "lo_put", "lo_unlink", "lo_create",
    "lo_truncate", "set_config", "current_setting", "nextval", "setval",
    "pg_advisory_lock", "pg_advisory_xact_lock",
    "pg_advisory_unlock", "pg_advisory_unlock_all"}

  const FORBIDDEN_STATEMENTS: set<string> := {
    "begin", "commit", "rollback", "savepoint", "release",
    "copy", "listen", "notify", "vacuum", "analyze",
    "reset", "call", "prepare", "execute", "deallocate",
    "grant", "revoke"}

  predicate ForbiddenAt(ts: seq<Token>, i: nat)
    requires i < |ts|
  {
    && ts[i].kind == Identifier
    && var word := ToLower(ts[i].text);
       || word in DANGEROUS_NAMES
       || (!ts[i].quoted && word in FORBIDDEN_STATEMENTS)
       || (!ts[i].quoted && word == "do" && !ContainsSequence(ts[..i], ["on", "conflict"]))
  }

  predicate SecondStatementAt(ts: seq<Token>, i: nat)
    requires i < |ts|
  {
    ts[i].kind == Symbol && ts[i].text == ";" && i != |ts| - 1
  }

  // The first token, from i on, that no statement may have where it stands.
  function BadToken(ts: seq<Token>, i: nat): Option<Reason>
    requires i <= |ts|
    decreases |ts| - i
  {
    if i == |ts| then None
    else if SecondStatementAt(ts, i) then Some(NotOneStatement)
    else if ForbiddenAt(ts, i) then Some(ForbiddenWord)
    else BadToken(ts, i + 1)
  }

  predicate LocksRows(ts: seq<Token>) {
    || ContainsSequence(ts, ["for", "update"])
    || ContainsSequence(ts, ["for", "no", "key", "update"])
    || ContainsSequence(ts, ["for", "share"])
    || ContainsSequence(ts, ["for", "key", "share"])
  }

  function CheckTokens(ts: seq<Token>): Option<Reason> {
    var bad := BadToken(ts, 0);
    if bad.Some? then bad
    else if LocksRows(ts) then Some(RowLocking)
    else if Operation(ts) == "select" && ContainsKeyword(ts, "into") then Some(SelectInto)
    else None
  }

  // schema . function (
  predicate QualifiedCallAt(ts: seq<Token>, i: nat) {
    NameAt(ts, i) && TextAt(ts, i + 1, ".") && NameAt(ts, i + 2) && TextAt(ts, i + 3, "(")
  }

  predicate FunctionSchemasAllowed(ts: seq<Token>, cfg: ConnectionConfig) {
    forall i | 0 <= i < |ts| && QualifiedCallAt(ts, i) ::
      var schema := IdentifierValue(ts[i]);
      EqualFold(schema, "pg_catalog") || cfg.SchemaAllowed(schema)
  }

  // -------------------------------------------------------- table references

  function TrimQuotesLeft(s: string): string {
    if s != "" && s[0] == '"' then TrimQuotesLeft(s[1..]) else s
  }

  function TrimQuotesRight(s: string): string {
    if s != "" && s[|s| - 1] == '"' then TrimQuotesRight(s[..|s| - 1]) else s
  }

  function TrimQuotes(s: string): string {
    TrimQuotesRight(TrimQuotesLeft(s))
  }

  function UntilDot(s: string): (r: string)
    ensures |r| <= |s|
  {
    if s == "" || s[0] == '.' then "" else [s[0]] + UntilDot(s[1..])
  }

  // The schema and the name in the text of a table reference.
  function SplitTable(table: string): (string, string) {
    var s := Trim(table);
    var head := UntilDot(s);
    if |head| == |s| then ("public", TrimQuotes(s))
    else (TrimQuotes(head), TrimQuotes(UntilDot(s[|head| + 1..])))
  }

  function NormalizeTable(table: string): string {
    var s := Trim(table);
    if s == "" then "" else if '.' !in s then "public." + s else s
  }

  // A reference as the tokens spell it, and the index of the token after it.
  datatype Relation = Relation(schema: Option<string>, name: string, next: nat) {
    function Table(): string {
      NormalizeTable(match schema case None => name case Some(s) => s + "." + name)
    }
  }

  function RelationAt(ts: seq<Token>, start: nat, parentheses: bool): (r: Result<Relation, Reason>)
    ensures r.Ok? ==> start < r.value.next <= |ts|
  {
    if !NameAt(ts, start) then Err(NotSimpleReference)
    else if KeywordAt(ts, start, "only") || KeywordAt(ts, start, "table")
         || KeywordAt(ts, start, "if") || KeywordAt(ts, start, "exists") then
      Err(NotSimpleReference)
    else
      var first := IdentifierValue(ts[start]);
      if TextAt(ts, start + 1, ".") then
        if !NameAt(ts, start + 2) || TextAt(ts, start + 3, ".") then Err(NotSimpleReference)
        else RelationEnd(ts, Relation(Some(first), IdentifierValue(ts[start + 2]), start + 3), parentheses)
      else RelationEnd(ts, Relation(None, first, start + 1), parentheses)
  }

  function RelationEnd(ts: seq<Token>, r: Relation, parentheses: bool): Result<Relation, Reason> {
    if TextAt(ts, r.next, "*") || (TextAt(ts, r.next, "(") && !parentheses) then Err(NotSimpleReference)
    else Ok(r)
  }

  const CLAUSE_WORDS: set<string> := {
    "where", "group", "order", "having", "limit", "offset",
    "union", "intersect", "except", "returning", "window",
    "join", "left", "right", "full", "inner", "cross", "on",
    "set", "values"}

  // A comma after a relation, before a parenthesis or the next clause.
  predicate ListFollows(ts: seq<Token>, i: nat)
    decreases |ts| - i
  {
    i < |ts| && (
      if ts[i].text == "," then true
      else if ts[i].text == "(" then false
      else if ts[i].kind == Identifier && !ts[i].quoted && ToLower(ts[i].text) in CLAUSE_WORDS then false
      else ListFollows(ts, i + 1))
  }

  predicate IsRelationKeyword(ts: seq<Token>, op: string, i: nat) {
    || KeywordAt(ts, i, "from") || KeywordAt(ts, i, "join") || KeywordAt(ts, i, "references")
    || KeywordAt(ts, i, "using") || KeywordAt(ts, i, "update") || KeywordAt(ts, i, "into")
    || (op == "create" && (
          || KeywordAt(ts, i, "like") || KeywordAt(ts, i, "inherits")
          || (KeywordAt(ts, i - 1, "partition") && KeywordAt(ts, i, "of"))
          || (KeywordAt(ts, i - 1, "as") && KeywordAt(ts, i, "table"))))
  }

  // A relation keyword that is read, not passed over.
  predicate ReadsRelation(ts: seq<Token>, op: string, i: nat) {
    && IsRelationKeyword(ts, op, i)
    && !(KeywordAt(ts, i, "update") && !(op == "update" && i == 0))
    && !(KeywordAt(ts, i, "into") && op != "insert" && op != "select")
    && !(KeywordAt(ts, i, "using") && op != "delete")
    && !(KeywordAt(ts, i, "using") && TextAt(ts, i + 1, "("))
  }

  function RelationStart(ts: seq<Token>, i: nat): nat {
    if KeywordAt(ts, i, "inherits") && TextAt(ts, i + 1, "(") then i + 2 else i + 1
  }

  predicate ParenthesesAllowed(ts: seq<Token>, i: nat) {
    KeywordAt(ts, i, "into") || KeywordAt(ts, i, "references")
  }

  // A keyword that was read and the relation after it.
  datatype Reference = Reference(keyword: nat, relation: Relation)

  function ReadRelation(ts: seq<Token>, i: nat): (r: Result<Relation, Reason>)
    ensures r.Ok? ==> i < r.value.next <= |ts|
  {
    match RelationAt(ts, RelationStart(ts, i), ParenthesesAllowed(ts, i))
    case Err(e) => Err(e)
    case Ok(relation) => if ListFollows(ts, relation.next) then Err(RelationList) else Ok(relation)
  }

  // The references from token i on, in order; reading goes on after each.
  function References(ts: seq<Token>, op: string, i: nat): Result<seq<Reference>, Reason>
    decreases |ts| - i
  {
    if i >= |ts| then Ok([])
    else if !ReadsRelation(ts, op, i) then References(ts, op, i + 1)
    else
      match ReadRelation(ts, i)
      case Err(e) => Err(e)
      case Ok(relation) =>
        match References(ts, op, relation.next)
        case Err(e) => Err(e)
        case Ok(rest) => Ok([Reference(i, relation)] + rest)
  }

  function AppendNew(tables: seq<string>, table: string): seq<string> {
    if table == "" || table in tables then tables else tables + [table]
  }

  function AppendUnique(tables: seq<string>, values: seq<string>): seq<string>
    decreases |values|
  {
    if values == [] then tables else AppendUnique(AppendNew(tables, values[0]), values[1..])
  }

  method AppendUniqueTables(tables: seq<string>, values: seq<string>) returns (r: seq<string>)
    ensures r == AppendUnique(tables, values)
  {
    r := tables;
    var seen: map<string, bool> := map[];
    var i := 0;
    while i < |tables|
      invariant i <= |tables|
      invariant forall t :: t in seen <==> t in tables[..i]
    {
      seen := seen[tables[i] := true];
      i := i + 1;
    }
    assert tables[..i] == tables;
    i := 0;
    while i < |values|
      invariant i <= |values|
      invariant forall t :: t in seen <==> t in r
      invariant AppendUnique(r, values[i..]) == AppendUnique(tables, values)
    {
      assert values[i..][1..] == values[i + 1..];
      if values[i] != "" && values[i] !in seen {
        seen := seen[values[i] := true];
        r := r + [values[i]];
      }
      i := i + 1;
    }
  }

  function Tables(refs: seq<Reference>): seq<string> {
    if refs == [] then [] else [refs[0].relation.Table()] + Tables(refs[1..])
  }

  // The first DELETE FROM, from token i on.
  function DeleteTarget(ts: seq<Token>, i: nat): Option<nat>
    decreases |ts| - i
  {
    if i + 1 >= |ts| then None
    else if KeywordAt(ts, i, "delete") && KeywordAt(ts, i + 1, "from") then Some(i)
    else DeleteTarget(ts, i + 1)
  }

  function WithDeleteTarget(ts: seq<Token>, op: string, tables: seq<string>): Result<seq<string>, Reason> {
    if op == "delete" && DeleteTarget(ts, 0).Some? then
      match RelationAt(ts, DeleteTarget(ts, 0).value + 2, false)
      case Err(e) => Err(e)
      case Ok(relation) => Ok(AppendNew(tables, relation.Table()))
    else Ok(tables)
  }

  function TableRefs(ts: seq<Token>, op: string): Result<seq<string>, Reason> {
    match References(ts, op, 0)
    case Err(e) => Err(e)
    case Ok(refs) => WithDeleteTarget(ts, op, AppendUnique([], Tables(refs)))
  }

  // The answer of the loop when it has the tables found so far and is at i.
  function TableRefsFrom(tables: seq<string>, ts: seq<Token>, op: string, i: nat): Result<seq<string>, Reason> {
    match References(ts, op, i)
    case Err(e) => Err(e)
    case Ok(refs) => WithDeleteTarget(ts, op, AppendUnique(tables, Tables(refs)))
  }

  method DetectTableRefs(tokens: seq<Token>, op: string) returns (r: Result<seq<string>, Reason>)
    ensures r == TableRefs(tokens, op)
  {
    var tables: seq<string> := [];
    var i := 0;
    while i < |tokens|
      invariant i <= |tokens|
      invariant TableRefsFrom(tables, tokens, op, i) == TableRefs(tokens, op)
    {
      if !ReadsRelation(tokens, op, i) {
        i := i + 1;
        continue;
      }
      var relation := RelationAt(tokens, RelationStart(tokens, i), ParenthesesAllowed(tokens, i));
      if relation.Err? {
        return Err(relation.error);
      }
      if ListFollows(tokens, relation.value.next) {
        return Err(RelationList);
      }
      TableRefsStep(tables, tokens, op, i);
      tables := AppendUniqueTables(tables, [relation.value.Table()]);
      i := relation.value.next;
    }
    if op == "delete" {
      i := 0;
      while i + 1 < |tokens|
        invariant DeleteTarget(tokens, i) == DeleteTarget(tokens, 0)
      {
        if KeywordAt(tokens, i, "delete") && KeywordAt(tokens, i + 1, "from") {
          var target := RelationAt(tokens, i + 2, false);
          if target.Err? {
            return Err(target.error);
          }
          tables := AppendUniqueTables(tables, [target.value.Table()]);
          break;
        }
        i := i + 1;
      }
    }
    return Ok(tables);
  }

  lemma TableRefsStep(tables: seq<string>, ts: seq<Token>, op: string, i: nat)
    requires i < |ts| && ReadsRelation(ts, op, i) && ReadRelation(ts, i).Ok?
    ensures
      var relation := ReadRelation(ts, i).value;
      TableRefsFrom(tables, ts, op, i)
      == TableRefsFrom(AppendUnique(tables, [relation.Table()]), ts, op, relation.next)
  {
    var relation := ReadRelation(ts, i).value;
    var rest := References(ts, op, relation.next);
    assert [relation.Table()][1..] == [];
    if rest.Ok? {
      var refs := [Reference(i, relation)] + rest.value;
      assert refs[1..] == rest.value;
      assert Tables(refs)[1..] == Tables(rest.value);
    }
  }

  // ---------------------------------------------------------------- DDL

  function SkipIfNotExists(ts: seq<Token>, i: nat): nat {
    if KeywordAt(ts, i, "if") && KeywordAt(ts, i + 1, "not") && KeywordAt(ts, i + 2, "exists") then i + 3 else i
  }

  function SkipIfExists(ts: seq<Token>, i: nat): nat {
    if KeywordAt(ts, i, "if") && KeywordAt(ts, i + 1, "exists") then i + 2 else i
  }

  function FindKeyword(ts: seq<Token>, i: nat, value: string): nat
    decreases |ts| - i
  {
    if i < |ts| && !KeywordAt(ts, i, value) then FindKeyword(ts, i + 1, value) else i
  }

  function OneTable(r: Result<Relation, Reason>): Result<seq<string>, Reason> {
    match r
    case Err(e) => Err(e)
    case Ok(relation) => Ok([relation.Table()])
  }

  function ParseCreate(ts: seq<Token>): Result<seq<string>, Reason> {
    if KeywordAt(ts, 1, "temporary") || KeywordAt(ts, 1, "temp") || KeywordAt(ts, 1, "unlogged") then
      Err(UnsupportedObject)
    else if KeywordAt(ts, 1, "table") then
      OneTable(RelationAt(ts, SkipIfNotExists(ts, 2), true))
    else
      var i := if KeywordAt(ts, 1, "unique") then 2 else 1;
      if !KeywordAt(ts, i, "index") || KeywordAt(ts, i + 1, "concurrently") then Err(UnsupportedObject)
      else ParseIndex(ts, SkipIfNotExists(ts, i + 1))
  }

  // CREATE INDEX after its optional words: an optional name, then ON and the table.
  function ParseIndex(ts: seq<Token>, i: nat): Result<seq<string>, Reason> {
    if KeywordAt(ts, i, "on") then IndexTarget(ts, i, "")
    else
      match RelationAt(ts, i, false)
      case Err(e) => Err(e)
      case Ok(index) => IndexTarget(ts, FindKeyword(ts, index.next, "on"), index.Table())
  }

  function IndexTarget(ts: seq<Token>, on: nat, index: string): Result<seq<string>, Reason> {
    if on >= |ts| then Err(UnsupportedObject)
    else
      match RelationAt(ts, if KeywordAt(ts, on + 1, "only") then on + 2 else on + 1, true)
      case Err(e) => Err(e)
      case Ok(target) => Ok(AppendUnique([], [index, target.Table()]))
  }

  predicate ReferentialAction(ts: seq<Token>, i: nat) {
    && KeywordAt(ts, i - 2, "on")
    && (KeywordAt(ts, i - 1, "delete") || KeywordAt(ts, i - 1, "update"))
    && ((KeywordAt(ts, i, "set") && (KeywordAt(ts, i + 1, "null") || KeywordAt(ts, i + 1, "default")))
        || (KeywordAt(ts, i, "no") && KeywordAt(ts, i + 1, "action")))
  }

  predicate ForbiddenInAlter(ts: seq<Token>, i: nat) {
    || KeywordAt(ts, i, "rename") || KeywordAt(ts, i, "owner") || KeywordAt(ts, i, "attach")
    || KeywordAt(ts, i, "detach") || KeywordAt(ts, i, "inherit") || KeywordAt(ts, i, "replica")
    || ((KeywordAt(ts, i, "set") || KeywordAt(ts, i, "no")) && !ReferentialAction(ts, i))
  }

  function ParseAlter(ts: seq<Token>): Result<seq<string>, Reason> {
    if !KeywordAt(ts, 1, "table") then Err(UnsupportedObject)
    else
      var i := SkipIfExists(ts, 2);
      match RelationAt(ts, if KeywordAt(ts, i, "only") then i + 1 else i, false)
      case Err(e) => Err(e)
      case Ok(relation) =>
        if exists k | relation.next <= k < |ts| :: ForbiddenInAlter(ts, k) then Err(UnsupportedObject)
        else Ok([relation.Table()])
  }

  function OneTableOnly(ts: seq<Token>, r: Result<Relation, Reason>): Result<seq<string>, Reason> {
    match r
    case Err(e) => Err(e)
    case Ok(relation) => if TextAt(ts, relation.next, ",") then Err(RelationList) else Ok([relation.Table()])
  }

  function ParseDrop(ts: seq<Token>): Result<seq<string>, Reason> {
    if !KeywordAt(ts, 1, "table") && !KeywordAt(ts, 1, "index") then Err(UnsupportedObject)
    else if KeywordAt(ts, 1, "index") && KeywordAt(ts, 2, "concurrently") then Err(UnsupportedObject)
    else OneTableOnly(ts, RelationAt(ts, SkipIfExists(ts, 2), false))
  }

  function ParseTruncate(ts: seq<Token>): Result<seq<string>, Reason> {
    var i := if KeywordAt(ts, 1, "table") then 2 else 1;
    if KeywordAt(ts, i, "only") then Err(UnsupportedObject)
    else OneTableOnly(ts, RelationAt(ts, i, false))
  }

  predicate CascadesUnsafely(ts: seq<Token>, op: string) {
    exists i | 0 <= i < |ts| ::
      && KeywordAt(ts, i, "cascade")
      && !((op == "create" || op == "alter") && KeywordAt(ts, i - 2, "on")
           && (KeywordAt(ts, i - 1, "delete") || KeywordAt(ts, i - 1, "update")))
  }

  predicate IsDDLOperation(op: string) {
    op == "create" || op == "alter" || op == "drop" || op == "truncate"
  }

  predicate IsDMLOperation(op: string) {
    op == "insert" || op == "update" || op == "delete"
  }

  function DDLObjects(ts: seq<Token>): Result<seq<string>, Reason> {
    var op := Operation(ts);
    if CascadesUnsafely(ts, op) then Err(UnsafeCascade)
    else if op == "create" then ParseCreate(ts)
    else if op == "alter" then ParseAlter(ts)
    else if op == "drop" then ParseDrop(ts)
    else if op == "truncate" then ParseTruncate(ts)
    else Err(NotDDL)
  }

  // ------------------------------------------------------------- verdicts

  // What DML a statement does to each of its tables.
  function RequiredOperations(ts: seq<Token>, op: string): seq<string> {
    if op == "insert" && ContainsSequence(ts, ["do", "update"]) then [op, "update"] else [op]
  }

  // The first operation that the policy refuses on a table.
  function RefusedOperation(cfg: ConnectionConfig, schema: string, name: string, ops: seq<string>): Option<string> {
    if ops == [] then None
    else if !cfg.DMLAllowed(schema, name, ops[0]) then Some(ops[0])
    else RefusedOperation(cfg, schema, name, ops[1..])
  }

  // The first table that the policy refuses; ops are the DML operations on it.
  function RefusedTable(cfg: ConnectionConfig, tables: seq<string>, ops: seq<string>): Option<Reason> {
    if tables == [] then None
    else
      var (schema, name) := SplitTable(tables[0]);
      if !cfg.SchemaAllowed(schema) then Some(SchemaRefused(schema))
      else
        match RefusedOperation(cfg, schema, name, ops)
        case Some(op) => Some(DMLRefused(schema, name, op))
        case None => RefusedTable(cfg, tables[1..], ops)
  }

  function JudgeDDL(ts: seq<Token>, cfg: ConnectionConfig): Verdict {
    var op := Operation(ts);
    if !IsDDLOperation(op) then Invalid(NotDDL)
    else if !cfg.DDLAllowed() then Invalid(DDLDisabled)
    else
      match DDLObjects(ts)
      case Err(e) => Invalid(e)
      case Ok(objects) =>
        match TableRefs(ts, op)
        case Err(e) => Invalid(e)
        case Ok(refs) =>
          var tables := AppendUnique(objects, refs);
          if tables == [] then Invalid(NoObject)
          else
            match RefusedTable(cfg, tables, [])
            case Some(reason) => Verdict(false, false, op, tables, [], Some(reason))
            case None => Verdict(true, false, op, tables, [ConsequentialDDL], None)
  }

  function JudgeQuery(ts: seq<Token>, cfg: ConnectionConfig, mode: Mode): Verdict {
    var op := Operation(ts);
    var readOnly := op == "select";
    if mode != DML && op != "select" then InvalidFor(op, readOnly, OnlySelect)
    else if mode == DML && !IsDMLOperation(op) then InvalidFor(op, readOnly, OnlyDML)
    else
      match TableRefs(ts, op)
      case Err(e) => InvalidFor(op, readOnly, e)
      case Ok(tables) =>
        if mode == DML && tables == [] then InvalidFor(op, readOnly, NoTarget)
        else
          match RefusedTable(cfg, tables, if mode == DML then RequiredOperations(ts, op) else [])
          case Some(reason) => Verdict(false, readOnly, op, tables, [], Some(reason))
          case None =>
            Verdict(true, readOnly, op, tables,
                    if op == "select" && !ContainsKeyword(ts, "limit") then [NoLimit] else [], None)
  }

  // The verdict on the tokens of one statement.
  function Judge(ts: seq<Token>, cfg: ConnectionConfig, mode: Mode): Verdict {
    if ts == [] then Invalid(SqlRequired)
    else if CheckTokens(ts).Some? then Invalid(CheckTokens(ts).value)
    else if !FunctionSchemasAllowed(ts, cfg) then Invalid(FunctionSchema)
    else if mode == DDL then JudgeDDL(ts, cfg)
    else JudgeQuery(ts, cfg, mode)
  }

  function Validate(sql: string, cfg: ConnectionConfig, mode: Mode): Verdict {
    var s := Trim(sql);
    if s == "" then Invalid(SqlRequired)
    else if |Split(s)| != 1 then Invalid(NotOneStatement)
    else
      match Lex(s)
      case Err(e) => Invalid(Unlexable(e))
      case Ok(ts) => Judge(ts, cfg, mode)
  }

  function ApplySelectLimit(sql: string, maxRows: int): string {
    "select * from (" + TrimSemicolons(Trim(sql)) + LimitClause(if maxRows <= 0 then 1 else maxRows)
  }

  function LimitClause(n: nat): string {
    ") as " + "mcp_limited_rows" + " limit " + Itoa(n)
  }

  function TrimSemicolons(s: string): string {
    if s != "" && s[|s| - 1] == ';' then TrimSemicolons(s[..|s| - 1]) else s
  }

  // Decimal digits.
  function Itoa(n: nat): string {
    if n < 10 then [('0' as int + n) as char] else Itoa(n / 10) + [('0' as int + n % 10) as char]
  }
}
