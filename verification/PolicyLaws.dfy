/** What a policy allows, entry by entry, and what a principal may do. */
module PolicyLaws {
  import opened Outcomes
  import opened Text
  import opened Config
  import opened Authn

  // No entry allows nothing; two lists allow what one of them does.
  lemma SchemasAddUp(c: ConnectionConfig, d: ConnectionConfig, schema: string)
    ensures c.(schemas := c.schemas + d.schemas).SchemaAllowed(schema)
      <==> c.SchemaAllowed(schema) || d.SchemaAllowed(schema)
    ensures !c.(schemas := []).SchemaAllowed(schema)
  {
    var both := c.(schemas := c.schemas + d.schemas);
    assert forall i | 0 <= i < |c.schemas| :: both.schemas[i] == c.schemas[i];
    assert forall i | 0 <= i < |d.schemas| :: both.schemas[|c.schemas| + i] == d.schemas[i];
  }

  lemma PoliciesAddUp(c: ConnectionConfig, d: ConnectionConfig, schema: string, table: string, op: string)
    ensures c.(dmlPolicies := c.dmlPolicies + d.dmlPolicies).DMLAllowed(schema, table, op)
      <==> c.DMLAllowed(schema, table, op) || d.DMLAllowed(schema, table, op)
    ensures !c.(dmlPolicies := []).DMLAllowed(schema, table, op)
  {
    var both := c.(dmlPolicies := c.dmlPolicies + d.dmlPolicies);
    assert forall i | 0 <= i < |c.dmlPolicies| :: both.dmlPolicies[i] == c.dmlPolicies[i];
    assert forall i | 0 <= i < |d.dmlPolicies| :: both.dmlPolicies[|c.dmlPolicies| + i] == d.dmlPolicies[i];
  }

  // The entry is that name, in any case, or the wildcard.
  predicate Names(entry: string, name: string) {
    entry == "*" || (|entry| == |name| && forall i | 0 <= i < |name| :: Lower(entry[i]) == Lower(name[i]))
  }

  lemma NamingIsFolding(entry: string, name: string)
    ensures Names(entry, name) <==> MatchesName(entry, name)
  {
    if EqualFold(entry, name) {
      assert |ToLower(entry)| == |ToLower(name)|;
      forall i | 0 <= i < |name|
        ensures Lower(entry[i]) == Lower(name[i])
      {
        assert ToLower(entry)[i] == ToLower(name)[i];
      }
    }
  }

  // One schema allows those that it names.
  lemma OneSchemaAllows(c: ConnectionConfig, entry: string, schema: string)
    requires c.schemas == [entry]
    ensures c.SchemaAllowed(schema) <==> Names(entry, schema)
  {
    NamingIsFolding(entry, schema);
    assert c.schemas[0] == entry;
  }

  // One policy permits the operations that it names on the tables that it names.
  lemma OnePolicyAllows(c: ConnectionConfig, p: DMLPolicy, schema: string, table: string, op: string)
    requires c.dmlPolicies == [p]
    ensures c.DMLAllowed(schema, table, op) <==>
      Names(p.schema, schema) && Names(p.table, table) && exists o | o in p.operations :: Names(o, op)
  {
    NamingIsFolding(p.schema, schema);
    NamingIsFolding(p.table, table);
    forall o
      ensures Names(o, op) <==> MatchesName(o, op)
    {
      NamingIsFolding(o, op);
    }
    assert c.dmlPolicies[0] == p;
    assert forall i | 0 <= i < |p.operations| :: p.operations[i] in p.operations;
  }

  // DDL is allowed unless it is turned off.
  lemma DDLIsOnByDefault(c: ConnectionConfig)
    ensures !c.DDLAllowed() <==> c.ddlEnabled == Some(false)
  {
  }

  // A scope in any case is that scope, and admin is every scope and connection.
  lemma ScopesOfPrincipal(p: Principal, scope: string, connection: string)
    ensures p.HasScope(scope) <==> exists s | s in p.scopes :: s == "admin" || s == ToLower(scope)
    ensures p.CanUseConnection(connection)
      <==> "admin" in p.scopes || exists c | c in p.connections :: c == "*" || c == connection
  {
    assert ToLower("admin") == "admin";
  }
}
