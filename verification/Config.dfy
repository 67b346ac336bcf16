/** The policy of one connection. */
module Config {
  import opened Outcomes
  import opened Text

  datatype DMLPolicy = DMLPolicy(schema: string, table: string, operations: seq<string>)

  datatype ConnectionConfig = ConnectionConfig(
    schemas: seq<string>,
    ddlEnabled: Option<bool>,
    dmlPolicies: seq<DMLPolicy>,
    maxScriptStatements: int,
    maxScriptBytes: int,
    maxScriptAffectedRows: int,
    maxAffectedRows: int,
    maxRows: int)
  {
    predicate SchemaAllowed(schema: string) {
      exists i | 0 <= i < |schemas| :: schemas[i] == "*" || EqualFold(schemas[i], schema)
    }

    predicate DDLAllowed() {
      ddlEnabled.None? || ddlEnabled.value
    }

    predicate DMLAllowed(schema: string, table: string, operation: string) {
      exists i | 0 <= i < |dmlPolicies| :: Permits(dmlPolicies[i], schema, table, operation)
    }
  }

  predicate MatchesName(pattern: string, value: string) {
    pattern == "*" || EqualFold(pattern, value)
  }

  predicate Permits(policy: DMLPolicy, schema: string, table: string, operation: string) {
    && MatchesName(policy.schema, schema)
    && MatchesName(policy.table, table)
    && exists i | 0 <= i < |policy.operations| :: MatchesName(policy.operations[i], operation)
  }
}
