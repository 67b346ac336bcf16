/** Principals: named service identities with scopes and connections. */
module Authn {
  import opened Outcomes
  import opened Text

  datatype Principal = Principal(name: string, scopes: set<string>, connections: set<string>) {
    predicate HasScope(scope: string) {
      "admin" in scopes || ToLower(scope) in scopes
    }

    predicate CanUseConnection(connection: string) {
      HasScope("admin") || "*" in connections || connection in connections
    }
  }

  // What anybody else may do, p may do.
  ghost predicate AtLeast(p: Principal, other: Principal) {
    && (forall scope :: other.HasScope(scope) ==> p.HasScope(scope))
    && (forall connection :: other.CanUseConnection(connection) ==> p.CanUseConnection(connection))
  }

  // The first configured principal of that name.
  function FindPrincipal(keys: seq<Principal>, name: string): (r: Option<Principal>)
    ensures r.Some? ==> r.value in keys && r.value.name == name
    ensures r.None? <==> forall p | p in keys :: p.name != name
  {
    if keys == [] then None
    else if keys[0].name == name then Some(keys[0])
    else FindPrincipal(keys[1..], name)
  }
}
