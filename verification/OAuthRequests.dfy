/** What a request must be like to be registered, approved or exchanged, and what it
    is then given, told by the fields of the request. */
module OAuthRequests {
  import opened Outcomes
  import opened Text
  import opened Scopes
  import opened Authn
  import opened OAuth
  import opened OAuthRuns

  // ------------------------------------------------------------------ scopes

  // The scopes that a request is for: those that it names, or else the base and
  // default ones.
  predicate IsFor(cfg: Config, scope: string, scopes: seq<string>) {
    if ParseScopes(scope) != [] then scopes == ParseScopes(scope)
    else scopes == Normalized(cfg.baseScopes + cfg.defaultScopes)
  }

  // Exactly the values that are not blank, in lower case and trimmed.
  lemma {:induction false} NormalizedHas(result: seq<string>, values: seq<string>, x: string)
    ensures result <= NormalizeFrom(result, values)
    ensures x in NormalizeFrom(result, values)
      <==> x in result || (x != "" && exists v | v in values :: ToLower(Trim(v)) == x)
    decreases |values|
  {
    if values != [] {
      var value := ToLower(Trim(values[0]));
      NormalizedHas(if value == "" || value in result then result else result + [value], values[1..], x);
      assert values == [values[0]] + values[1..];
    }
  }

  // They come in the order of the list: what is first in it comes first.
  lemma {:induction false} NormalizedConcat(result: seq<string>, values: seq<string>, more: seq<string>)
    ensures NormalizeFrom(result, values + more) == NormalizeFrom(NormalizeFrom(result, values), more)
    decreases |values|
  {
    if values == [] {
      assert values + more == more;
    } else {
      CutAppend(values, 1, more);
      assert (values + more)[0] == values[0];
      var value := ToLower(Trim(values[0]));
      NormalizedConcat(if value == "" || value in result then result else result + [value], values[1..], more);
    }
  }

  // Scopes are written with blanks, commas, tabs and line ends between them.
  predicate Separates(c: char) {
    c == ' ' || c == ',' || c == '\t' || c == '\n' || c == '\r'
  }

  // A separator parts what is before it from what is after it, and what has none in
  // it is one scope.
  lemma {:induction false} FieldsApart(x: string, c: char, y: string)
    requires Separates(c)
    ensures Fields(x + ([c] + y)) == Fields(x) + Fields(y)
    decreases |x|
  {
    var z := [c] + y;
    if x == "" {
      assert x + z == z && z[1..] == y && [] + Fields(y) == Fields(y);
    } else if IsSeparator(x[0]) {
      CutAppend(x, 1, z);
      assert (x + z)[0] == x[0];
      FieldsApart(x[1..], c, y);
    } else {
      var n := FieldLength(x);
      FieldEnds(x, z);
      CutAppend(x, n, z);
      assert (x + z)[0] == x[0] && (x + z)[..n] == x[..n];
      FieldsApart(x[n..], c, y);
      Associate([x[..n]], Fields(x[n..]), Fields(y));
    }
  }

  lemma {:induction false} FieldEnds(x: string, z: string)
    requires z != "" && IsSeparator(z[0])
    ensures FieldLength(x + z) == FieldLength(x) && (x != "" && !IsSeparator(x[0]) ==> FieldLength(x) > 0)
  {
    if x == "" {
      assert x + z == z;
    } else {
      CutAppend(x, 1, z);
      assert (x + z)[0] == x[0];
      FieldEnds(x[1..], z);
    }
  }

  lemma OneField(x: string)
    requires forall i | 0 <= i < |x| :: !Separates(x[i])
    ensures Fields(x) == if x == "" then [] else [x]
  {
    if x != "" {
      FieldLengthOf(x, "");
      assert x + "" == x && x[..|x|] == x && x[|x|..] == "";
    }
  }

  // --------------------------------------------------------------- registration

  // The list is of one of these values, or is empty and stands for them.
  function OrElse(values: seq<string>, otherwise: seq<string>): seq<string> {
    if Normalized(values) == [] then otherwise else Normalized(values)
  }

  // The registration is valid, and this is the client that it describes.
  predicate Registers(cfg: Config, input: Registration, id: string, now: int, client: Client) {
    && input.redirectURIs != [] && (forall uri | uri in input.redirectURIs :: cfg.acceptsURI(uri))
    && (Trim(input.authMethod) == "" || Trim(input.authMethod) == "none")
    && (forall g | g in client.grantTypes :: g == "authorization_code" || g == "refresh_token")
    && "authorization_code" in client.grantTypes
    && OrElse(input.responseTypes, ["code"]) == ["code"]
    && IsFor(cfg, input.scope, client.scopes) && client.scopes != []
    && FindPrincipal(cfg.principals, cfg.principal).Some?
    && (forall s | s in client.scopes :: Supported(s) && FindPrincipal(cfg.principals, cfg.principal).value.HasScope(s))
    && client.id == "mcp_" + id && client.name == Trim(input.name) && client.redirectURIs == input.redirectURIs
    && client.authMethod == "none" && client.responseTypes == ["code"] && client.issuedAt == Unix(now)
    && client.grantTypes == OrElse(input.grantTypes, ["authorization_code", "refresh_token"])
  }

  lemma NobodyHasScopes(scopes: seq<string>)
    ensures !ScopesValid(scopes, NOBODY)
  {
    assert scopes != [] ==> !NOBODY.HasScope(scopes[0]);
  }

  // A registration is taken exactly when it is valid, and makes that client: it has
  // the scopes that were asked for.
  lemma RegistrationIsExact(cfg: Config, input: Registration, id: string, now: int, client: Client)
    ensures NewClient(cfg, input, id, now) == Ok(client) <==> Registers(cfg, input, id, now, client)
  {
    if NewClient(cfg, input, id, now).Ok? {
      RegisteredIsValid(cfg, input, id, now);
    }
    if Registers(cfg, input, id, now, client) {
      ValidIsRegistered(cfg, input, id, now, client);
    }
  }

  lemma RegisteredIsValid(cfg: Config, input: Registration, id: string, now: int)
    requires NewClient(cfg, input, id, now).Ok?
    ensures Registers(cfg, input, id, now, NewClient(cfg, input, id, now).value)
  {
    NobodyHasScopes(RequestedScopes(cfg, input.scope));
  }

  lemma ValidIsRegistered(cfg: Config, input: Registration, id: string, now: int, client: Client)
    requires Registers(cfg, input, id, now, client)
    ensures NewClient(cfg, input, id, now) == Ok(client)
  {
    assert forall i | 0 <= i < |client.grantTypes| :: client.grantTypes[i] in client.grantTypes;
    assert forall i | 0 <= i < |input.redirectURIs| :: input.redirectURIs[i] in input.redirectURIs;
    assert forall i | 0 <= i < |client.scopes| :: client.scopes[i] in client.scopes;
    assert ScopesValid(client.scopes, FindPrincipal(cfg.principals, cfg.principal).value);
  }

  // -------------------------------------------------------------- authorization

  // The form asks for this request: of a known client, for a redirect URI that it
  // registered, with a code challenge, and for scopes that the principal has and
  // the client may have.
  predicate Asks(cfg: Config, clients: Clients, form: AuthorizationForm, request: AuthorizationRequest) {
    && request.clientID == Trim(form.clientID) && request.redirectURI == Trim(form.redirectURI)
    && request.challenge == Trim(form.challenge) && IsFor(cfg, form.scope, request.scopes)
    && request.clientID != "" && request.clientID in clients
    && request.redirectURI != "" && cfg.acceptsURI(request.redirectURI)
    && request.redirectURI in clients[request.clientID].redirectURIs
    && form.responseType == "code" && form.challengeMethod == "S256" && request.challenge != ""
    && (Trim(form.resource) == "" || Trim(form.resource) == cfg.resource)
    && FindPrincipal(cfg.principals, cfg.principal).Some? && request.scopes != []
    && (forall s | s in request.scopes ::
          && Supported(s) && FindPrincipal(cfg.principals, cfg.principal).value.HasScope(s)
          && (clients[request.clientID].scopes == [] || s in clients[request.clientID].scopes))
  }

  // Its user signs in and consents.
  predicate Consenting(cfg: Config, form: AuthorizationForm) {
    && form.username == cfg.username && form.password == cfg.password
    && SaysYes(ToLower(Trim(form.consent)))
  }

  predicate SaysYes(word: string) {
    word == "allow" || word == "approve" || word == "approved" || word == "yes" || word == "true" || word == "1"
  }

  // A request is approved exactly when its form asks for it and its user signs in
  // and consents.
  lemma ApprovalIsExact(cfg: Config, clients: Clients, form: AuthorizationForm, request: AuthorizationRequest)
    ensures Approve(cfg, clients, form) == Ok(request) <==> Asks(cfg, clients, form, request) && Consenting(cfg, form)
  {
    ValidationIsExact(cfg, clients, form, request);
    assert Consents(form.consent) == SaysYes(ToLower(Trim(form.consent)));
  }

  lemma ValidationIsExact(cfg: Config, clients: Clients, form: AuthorizationForm, request: AuthorizationRequest)
    ensures ValidateAuthorization(cfg, clients, form) == Ok(request) <==> Asks(cfg, clients, form, request)
  {
    assert forall i | 0 <= i < |request.scopes| :: request.scopes[i] in request.scopes;
  }

  // ------------------------------------------------------------- token requests

  // A token request is of a known public client, for this server.
  predicate OfClient(cfg: Config, clients: Clients, form: TokenForm, client: Client) {
    && !form.hasAuthorization && Trim(form.clientID) in clients && clients[Trim(form.clientID)] == client
    && client.authMethod == "none" && (Trim(form.resource) == "" || Trim(form.resource) == cfg.resource)
  }

  // It is gone on with exactly when it is that and for one of the two grants, with
  // a code for the first.
  lemma AskingIsExact(cfg: Config, gc: bool, w: World, rid: nat, form: TokenForm, client: Client)
    requires rid !in w.pending
    ensures
      var (w1, r) := Step(cfg, gc, w, AskToken(rid, form));
      && (w1 == AddPending(w, rid, ToTake(client, form)) <==>
            OfClient(cfg, w.clients, form, client) && form.grant == AuthorizationCodeGrant && Trim(form.code) != "")
      && (w1 == AddPending(w, rid, ToRefresh(client, form)) <==>
            OfClient(cfg, w.clients, form, client) && form.grant == RefreshTokenGrant)
      && (r.Refused? <==> w1 == w)
  {
    assert AddPending(w, rid, ToTake(client, form)).pending[rid] == ToTake(client, form);
    assert AddPending(w, rid, ToRefresh(client, form)).pending[rid] == ToRefresh(client, form);
  }

  // ---------------------------------------------------- what a step registers

  // A valid registration adds its client, and writes the file of all clients but
  // the configured one where there is a file; a failed write is an error that
  // leaves the client in memory. Nothing else changes.
  lemma RegisteringIsExact(cfg: Config, gc: bool, w: World, e: Event, client: Client)
    requires e.Register? && Possible(cfg, w, e)
    ensures
      var (w1, r) := Step(cfg, gc, w, e);
      if Registers(cfg, e.input, e.id, w.now, client) then
        && w1.clients == w.clients[client.id := client] && w1.registered == w.registered[client.id := client]
        && w1 == w.(clients := w1.clients, registered := w1.registered, file := w1.file)
        && (if cfg.hasStore && e.saves then w1.file == Some(Saved(w1.clients, e.order)) else w1.file == w.file)
        && (if cfg.hasStore && !e.saves then r == Refused(ServerError) else r == Created(client))
      else NewClient(cfg, e.input, e.id, w.now) != Ok(client)
  {
    RegistrationIsExact(cfg, e.input, e.id, w.now, client);
  }

  // An invalid one changes nothing and is refused.
  lemma InvalidIsRefused(cfg: Config, gc: bool, w: World, e: Event)
    requires e.Register? && Possible(cfg, w, e)
    requires forall client :: !Registers(cfg, e.input, e.id, w.now, client)
    ensures Step(cfg, gc, w, e).0 == w && Step(cfg, gc, w, e).1.Refused?
  {
    if NewClient(cfg, e.input, e.id, w.now).Ok? {
      RegistrationIsExact(cfg, e.input, e.id, w.now, NewClient(cfg, e.input, e.id, w.now).value);
    }
  }

  // --------------------------------------------------- which tokens are honoured

  // A genuine token of this kind that this server issued for itself and that has
  // not expired.
  predicate Live(cfg: Config, c: Claims, kind: TokenType, now: int) {
    c.kind == kind && c.issuer == cfg.issuer && c.audience == cfg.resource && Unix(now) < c.expiresAt
  }

  // A refresh needs a live refresh token of the client and of the principal, for
  // scopes that the principal has.
  lemma RefreshNeeds(cfg: Config, client: Client, form: TokenForm, now: int, ids: (string, string))
    ensures
      RedeemRefresh(cfg, client, form, now, ids).Ok? <==>
        && form.credential.Genuine?
        && var c := form.credential.claims;
           && Live(cfg, c, Refresh, now) && c.subject == cfg.principal != "" && c.clientID == client.id
           && FindPrincipal(cfg.principals, c.subject).Some?
           && ScopesValid(ParseScopes(c.scope), FindPrincipal(cfg.principals, c.subject).value)
  {
  }

  // A bearer token must be a live access token of a principal with its scopes.
  lemma BearerNeeds(cfg: Config, credential: Credential, now: int)
    ensures
      Authenticate(cfg, credential, now).Some? <==>
        && credential.Genuine?
        && var c := credential.claims;
           && Live(cfg, c, Access, now) && FindPrincipal(cfg.principals, c.subject).Some?
           && ScopesValid(ParseScopes(c.scope), FindPrincipal(cfg.principals, c.subject).value)
  {
  }

  // The answer to a request with a bearer token, which changes nothing.
  lemma BearerIsAnswered(cfg: Config, gc: bool, w: World, credential: Credential, p: Principal)
    requires Possible(cfg, w, Bearer(credential))
    ensures
      var (w1, r) := Step(cfg, gc, w, Bearer(credential));
      && w1 == w && (r == Authenticated(p) <==> Authenticate(cfg, credential, w.now) == Some(p))
      && (r == Unauthorized <==> Authenticate(cfg, credential, w.now).None?)
  {
  }
}
