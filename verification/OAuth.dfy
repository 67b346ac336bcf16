/** The decisions of the OAuth provider, as functions of one request and of the
    clients and codes it looks up. Signatures are ideal: a credential is genuine
    or it is not. */
module OAuth {
  import opened Outcomes
  import opened Text
  import opened Scopes
  import opened Authn

  const TICKS_PER_SECOND := 1_000_000_000

  datatype Config = Config(
    issuer: string,
    resource: string,
    principal: string,
    principals: seq<Principal>,
    username: string,
    password: string,
    clientID: string,
    redirectURIs: seq<string>,
    baseScopes: seq<string>,
    defaultScopes: seq<string>,
    hasStore: bool,
    accessTTL: nat,
    refreshTTL: nat,
    codeTTL: nat,
    acceptsURI: string -> bool)   // the syntactic check of redirect URIs

  datatype Client = Client(
    id: string,
    name: string,
    redirectURIs: seq<string>,
    authMethod: string,
    grantTypes: seq<string>,
    responseTypes: seq<string>,
    scopes: seq<string>,
    issuedAt: int)

  datatype Code = Code(
    clientID: string,
    redirectURI: string,
    challenge: string,
    scopes: seq<string>,
    principal: string,
    expiresAt: int)

  datatype TokenType = Access | Refresh

  datatype Claims = Claims(
    issuer: string,
    subject: string,
    clientID: string,
    audience: string,
    scope: string,
    connections: set<string>,
    issuedAt: int,
    expiresAt: int,
    kind: TokenType,
    id: string)

  datatype Credential = Genuine(claims: Claims) | Forged

  datatype Error =
    | InvalidRequest | InvalidClientMetadata | AccessDenied | LoginFailed
    | InvalidGrant | InvalidClient | InvalidTarget | UnsupportedGrant | ServerError

  type Clients = map<string, Client>
  type Codes = map<string, Code>

  function Unix(t: int): int {
    t / TICKS_PER_SECOND
  }

  // ------------------------------------------------------------------ scopes

  predicate Supported(scope: string) {
    scope == "read" || scope == "write" || scope == "ddl" || scope == "admin"
  }

  predicate ScopesValid(scopes: seq<string>, p: Principal) {
    scopes != [] && forall i | 0 <= i < |scopes| :: Supported(scopes[i]) && p.HasScope(scopes[i])
  }

  const NOBODY := Principal("", {}, {})

  function DefaultScopes(cfg: Config): seq<string> {
    Normalized(cfg.baseScopes + cfg.defaultScopes)
  }

  function RequestedScopes(cfg: Config, scope: string): seq<string> {
    if ParseScopes(scope) == [] then DefaultScopes(cfg) else ParseScopes(scope)
  }

  // ------------------------------------------------------------ registration

  datatype Registration = Registration(
    redirectURIs: seq<string>,
    name: string,
    authMethod: string,
    grantTypes: seq<string>,
    responseTypes: seq<string>,
    scope: string)

  // The client that a registration describes.
  function NewClient(cfg: Config, input: Registration, id: string, now: int): (r: Result<Client, Error>)
    ensures r.Ok? ==> r.value.id == "mcp_" + id && r.value.authMethod == "none"
    ensures r.Ok? ==>
      && r.value.redirectURIs == input.redirectURIs != []
      && (forall uri | uri in input.redirectURIs :: cfg.acceptsURI(uri))
      && "authorization_code" in r.value.grantTypes && r.value.responseTypes == ["code"]
      && (forall g | g in r.value.grantTypes :: g == "authorization_code" || g == "refresh_token")
      && FindPrincipal(cfg.principals, cfg.principal).Some?
      && ScopesValid(r.value.scopes, FindPrincipal(cfg.principals, cfg.principal).value)
  {
    var authMethod := if Trim(input.authMethod) == "" then "none" else Trim(input.authMethod);
    var grants :=
      if Normalized(input.grantTypes) == [] then ["authorization_code", "refresh_token"]
      else Normalized(input.grantTypes);
    var responses := if Normalized(input.responseTypes) == [] then ["code"] else Normalized(input.responseTypes);
    var scopes := RequestedScopes(cfg, input.scope);
    var principal :=
      match FindPrincipal(cfg.principals, cfg.principal) case Some(p) => p case None => NOBODY;
    if input.redirectURIs == []
       || (exists i | 0 <= i < |input.redirectURIs| :: !cfg.acceptsURI(input.redirectURIs[i])) then
      Err(InvalidClientMetadata)
    else if authMethod != "none" then Err(InvalidClientMetadata)
    else if exists i | 0 <= i < |grants| :: grants[i] != "authorization_code" && grants[i] != "refresh_token" then
      Err(InvalidClientMetadata)
    else if "authorization_code" !in grants || responses != ["code"] then Err(InvalidClientMetadata)
    else if !ScopesValid(scopes, principal) then Err(InvalidClientMetadata)
    else
      assert principal.HasScope(scopes[0]);
      Ok(Client("mcp_" + id, Trim(input.name), input.redirectURIs, authMethod, grants, responses, scopes, Unix(now)))
  }

  function ConfiguredClient(cfg: Config): Client {
    Client(cfg.clientID, "Configured ChatGPT client", cfg.redirectURIs, "none",
           ["authorization_code", "refresh_token"], ["code"], [], 0)
  }

  // ----------------------------------------------------------- authorization

  datatype AuthorizationForm = AuthorizationForm(
    clientID: string,
    redirectURI: string,
    responseType: string,
    challenge: string,
    challengeMethod: string,
    resource: string,
    scope: string,
    username: string,
    password: string,
    consent: string)

  datatype AuthorizationRequest = AuthorizationRequest(
    clientID: string, redirectURI: string, scopes: seq<string>, challenge: string)

  function ValidateAuthorization(cfg: Config, clients: Clients, form: AuthorizationForm)
    : Result<AuthorizationRequest, Error>
  {
    var id, uri := Trim(form.clientID), Trim(form.redirectURI);
    var challenge, resource := Trim(form.challenge), Trim(form.resource);
    var scopes := RequestedScopes(cfg, form.scope);
    if id == "" || id !in clients then Err(InvalidRequest)
    else if uri == "" || !cfg.acceptsURI(uri) || uri !in clients[id].redirectURIs then Err(InvalidRequest)
    else if form.responseType != "code" || challenge == "" || form.challengeMethod != "S256" then Err(InvalidRequest)
    else if resource != "" && resource != cfg.resource then Err(InvalidRequest)
    else
      match FindPrincipal(cfg.principals, cfg.principal)
      case None => Err(InvalidRequest)
      case Some(principal) =>
        if clients[id].scopes != [] && exists i | 0 <= i < |scopes| :: scopes[i] !in clients[id].scopes then
          Err(InvalidRequest)
        else if !ScopesValid(scopes, principal) then Err(InvalidRequest)
        else Ok(AuthorizationRequest(id, uri, scopes, challenge))
  }

  predicate Consents(consent: string) {
    ToLower(Trim(consent)) in {"allow", "approve", "approved", "yes", "true", "1"}
  }

  // A request that the user has signed in for and consented to.
  function Approve(cfg: Config, clients: Clients, form: AuthorizationForm): Result<AuthorizationRequest, Error> {
    match ValidateAuthorization(cfg, clients, form)
    case Err(e) => Err(e)
    case Ok(request) =>
      if form.username != cfg.username || form.password != cfg.password then Err(LoginFailed)
      else if !Consents(form.consent) then Err(AccessDenied)
      else Ok(request)
  }

  function CodeFor(cfg: Config, request: AuthorizationRequest, now: int): Code {
    Code(request.clientID, request.redirectURI, request.challenge, request.scopes, cfg.principal, now + cfg.codeTTL)
  }

  predicate Expired(code: Code, now: int) {
    code.expiresAt < now
  }

  function WithoutExpired(codes: Codes, now: int): Codes {
    map value | value in codes && !Expired(codes[value], now) :: codes[value]
  }

  // -------------------------------------------------------------- token grants

  datatype Grant = AuthorizationCodeGrant | RefreshTokenGrant | OtherGrant

  datatype TokenForm = TokenForm(
    hasAuthorization: bool,
    clientID: string,
    resource: string,
    grant: Grant,
    code: string,
    redirectURI: string,
    verifier: string,
    credential: Credential)

  // The client that a token request is for.
  function TokenClient(cfg: Config, clients: Clients, form: TokenForm): Result<Client, Error> {
    var id, resource := Trim(form.clientID), Trim(form.resource);
    if form.hasAuthorization || id !in clients || clients[id].authMethod != "none" then Err(InvalidClient)
    else if resource != "" && resource != cfg.resource then Err(InvalidTarget)
    else Ok(clients[id])
  }

  // S256 of RFC 7636, section 4.6, idealised: challenges are digests of
  // verifiers, and the digest is one-to-one.
  function Digest(verifier: string): (challenge: string)
    ensures challenge != ""
  {
    "S256:" + verifier
  }

  predicate VerifiesPKCE(verifier: string, challenge: string) {
    verifier != "" && challenge == Digest(verifier)
  }

  datatype Issue = Issue(access: Claims, refresh: Claims)

  function IssueTokens(cfg: Config, clientID: string, subject: string, scopes: seq<string>, now: int,
                       ids: (string, string)): Result<Issue, Error>
  {
    match FindPrincipal(cfg.principals, subject)
    case None => Err(InvalidGrant)
    case Some(p) =>
      if !ScopesValid(scopes, p) then Err(InvalidGrant)
      else
        var scope := JoinScopes(scopes);
        Ok(Issue(
             Claims(cfg.issuer, subject, clientID, cfg.resource, scope, p.connections,
                    Unix(now), Unix(now + cfg.accessTTL), Access, ids.0),
             Claims(cfg.issuer, subject, clientID, cfg.resource, scope, p.connections,
                    Unix(now), Unix(now + cfg.refreshTTL), Refresh, ids.1)))
  }

  // The answer to a code that was looked up and taken, if there was one.
  function RedeemCode(cfg: Config, client: Client, form: TokenForm, code: Option<Code>, now: int,
                      ids: (string, string)): Result<Issue, Error>
  {
    if code.None? || Expired(code.value, now) || code.value.clientID != client.id then Err(InvalidGrant)
    else if Trim(form.redirectURI) != "" && Trim(form.redirectURI) != code.value.redirectURI then Err(InvalidGrant)
    else if !VerifiesPKCE(Trim(form.verifier), code.value.challenge) then Err(InvalidGrant)
    else IssueTokens(cfg, client.id, code.value.principal, code.value.scopes, now, ids)
  }

  function VerifyToken(cfg: Config, credential: Credential, kind: TokenType, now: int): Option<Claims> {
    match credential
    case Forged => None
    case Genuine(claims) =>
      if claims.kind != kind || claims.issuer != cfg.issuer || claims.expiresAt <= Unix(now) then None
      else Some(claims)
  }

  function RedeemRefresh(cfg: Config, client: Client, form: TokenForm, now: int, ids: (string, string))
    : Result<Issue, Error>
  {
    match VerifyToken(cfg, form.credential, Refresh, now)
    case None => Err(InvalidGrant)
    case Some(claims) =>
      if claims.subject == "" || claims.audience != cfg.resource || claims.subject != cfg.principal
         || claims.clientID != client.id then Err(InvalidGrant)
      else IssueTokens(cfg, client.id, claims.subject, ParseScopes(claims.scope), now, ids)
  }

  // The principal that a bearer token stands for.
  function Authenticate(cfg: Config, credential: Credential, now: int): Option<Principal> {
    match VerifyToken(cfg, credential, Access, now)
    case None => None
    case Some(claims) =>
      if claims.audience != cfg.resource then None
      else
        match FindPrincipal(cfg.principals, claims.subject)
        case None => None
        case Some(base) =>
          var scopes := ParseScopes(claims.scope);
          if !ScopesValid(scopes, base) then None
          else
            var connections := set c | c in claims.connections && (c == "*" || base.CanUseConnection(c));
            Some(Principal(base.name, set s | s in scopes,
                           if connections == {} && "*" in base.connections then {"*"} else connections))
  }
}
