/** Every run of the OAuth provider: requests whose locked steps interleave in
    any order, with restarts and a clock that never goes back. */
module OAuthRuns {
  import opened Outcomes
  import opened Text
  import opened Scopes
  import opened Authn
  import opened OAuth

  // A request between two of its locked steps.
  datatype Pending =
    | ToMint(request: AuthorizationRequest)
    | ToTake(client: Client, form: TokenForm)
    | ToFinish(client: Client, form: TokenForm, code: Option<Code>)
    | ToRefresh(client: Client, form: TokenForm)

  // An authorization that the user approved, and the client it was for.
  datatype Approval = Approval(request: AuthorizationRequest, client: Client)

  // What the provider holds (clients, codes, the client file and the requests in
  // progress), the clock, and the history of the run.
  datatype World = World(
    clients: Clients,
    codes: Codes,
    file: Option<seq<Client>>,
    pending: map<nat, Pending>,
    now: int,
    registered: Clients,
    approvals: seq<Approval>,
    minted: set<string>,
    redeemed: seq<string>,
    issued: set<Claims>)

  datatype Event =
    | Wait(ticks: nat)
    | Register(input: Registration, id: string, order: seq<string>, saves: bool)
    | Authorize(rid: nat, aform: AuthorizationForm)
    | MintCode(rid: nat, code: string)
    | AskToken(rid: nat, tform: TokenForm)
    | TakeCode(rid: nat)
    | FinishCode(rid: nat, ids: (string, string))
    | FinishRefresh(rid: nat, ids: (string, string))
    | Bearer(credential: Credential)
    | Restart

  datatype Response =
    | Nothing
    | Created(client: Client)
    | CodeSent(code: string)
    | Tokens(issue: Issue)
    | Authenticated(principal: Principal)
    | Refused(error: Error)
    | Unauthorized

  // -------------------------------------------------------- the client file

  // order lists every key but the configured client's, once each.
  predicate Enumerates(order: seq<string>, keys: set<string>, configured: string) {
    && NoRepeats(order)
    && (forall k | k in order :: k in keys && k != configured)
    && (forall k | k in keys && k != configured :: k in order)
  }

  function Saved(clients: Clients, order: seq<string>): seq<Client>
    requires forall k | k in order :: k in clients
  {
    seq(|order|, i requires 0 <= i < |order| => clients[order[i]])
  }

  function Loaded(file: seq<Client>): Option<Clients> {
    if file == [] then Some(map[])
    else
      var last := file[|file| - 1];
      match Loaded(file[..|file| - 1])
      case None => None
      case Some(clients) =>
        if last.id == "" || last.authMethod != "none" then None else Some(clients[last.id := last])
  }

  // The clients of a provider that starts from the file.
  function Rebuilt(cfg: Config, file: Option<seq<Client>>): Option<Clients> {
    match (if cfg.hasStore && file.Some? then Loaded(file.value) else Some(map[]))
    case None => None
    case Some(clients) => Some(clients[cfg.clientID := ConfiguredClient(cfg)])
  }

  // ------------------------------------------------------------------- steps

  function AddPending(w: World, rid: nat, p: Pending): World {
    w.(pending := w.pending[rid := p])
  }

  function Ended(w: World, rid: nat): World {
    w.(pending := w.pending - {rid})
  }

  // Random values never repeat, and only issued tokens are genuine.
  predicate Possible(cfg: Config, w: World, e: Event) {
    match e
    case Register(_, id, order, _) =>
      "mcp_" + id !in w.registered && Enumerates(order, w.clients.Keys + {"mcp_" + id}, cfg.clientID)
    case Authorize(rid, _) => rid !in w.pending
    case MintCode(rid, code) => rid in w.pending && w.pending[rid].ToMint? && code !in w.minted
    case AskToken(rid, _) => rid !in w.pending
    case TakeCode(rid) => rid in w.pending && w.pending[rid].ToTake?
    case FinishCode(rid, _) => rid in w.pending && w.pending[rid].ToFinish?
    case FinishRefresh(rid, _) =>
      && rid in w.pending && w.pending[rid].ToRefresh?
      && (w.pending[rid].form.credential.Genuine? ==> w.pending[rid].form.credential.claims in w.issued)
    case Bearer(credential) => credential.Genuine? ==> credential.claims in w.issued
    case _ => true
  }

  function AfterRegister(cfg: Config, w: World, client: Client, order: seq<string>, saves: bool): (World, Response)
    requires forall k | k in order :: k in w.clients || k == client.id
  {
    var clients := w.clients[client.id := client];
    var w1 := w.(clients := clients, registered := w.registered[client.id := client]);
    if !cfg.hasStore then (w1, Created(client))
    else if saves then (w1.(file := Some(Saved(clients, order))), Created(client))
    else (w1, Refused(ServerError))
  }

  // The codes after one is minted; gc says whether expired ones are dropped.
  function Minted(cfg: Config, gc: bool, codes: Codes, request: AuthorizationRequest, code: string, now: int): Codes {
    (if gc then WithoutExpired(codes, now) else codes)[code := CodeFor(cfg, request, now)]
  }

  function Lookup(codes: Codes, value: string): Option<Code> {
    if value in codes then Some(codes[value]) else None
  }

  function Asked(cfg: Config, w: World, rid: nat, form: TokenForm): (World, Response) {
    match TokenClient(cfg, w.clients, form)
    case Err(error) => (w, Refused(error))
    case Ok(client) =>
      match form.grant
      case AuthorizationCodeGrant =>
        if Trim(form.code) == "" then (w, Refused(InvalidRequest))
        else (AddPending(w, rid, ToTake(client, form)), Nothing)
      case RefreshTokenGrant => (AddPending(w, rid, ToRefresh(client, form)), Nothing)
      case OtherGrant => (w, Refused(UnsupportedGrant))
  }

  // The world after a request ends with tokens or without; codes says which
  // code it redeemed, if any.
  function Answered(w: World, rid: nat, codes: seq<string>, r: Result<Issue, Error>): (World, Response) {
    match r
    case Err(error) => (Ended(w, rid), Refused(error))
    case Ok(issue) =>
      (Ended(w, rid).(redeemed := w.redeemed + codes, issued := w.issued + {issue.access, issue.refresh}),
       Tokens(issue))
  }

  function Step(cfg: Config, gc: bool, w: World, e: Event): (World, Response) {
    if !Possible(cfg, w, e) then (w, Nothing)
    else
      match e
      case Wait(ticks) => (w.(now := w.now + ticks), Nothing)
      case Register(input, id, order, saves) => (
        match NewClient(cfg, input, id, w.now)
        case Err(error) => (w, Refused(error))
        case Ok(client) =>
          AfterRegister(cfg, w, client, order, saves))
      case Authorize(rid, form) => (
        match Approve(cfg, w.clients, form)
        case Err(error) => (w, Refused(error))
        case Ok(request) =>
          (AddPending(w, rid, ToMint(request))
           .(approvals := w.approvals + [Approval(request, w.clients[request.clientID])]),
           Nothing))
      case MintCode(rid, code) =>
        (Ended(w, rid).(codes := Minted(cfg, gc, w.codes, w.pending[rid].request, code, w.now),
                        minted := w.minted + {code}),
         CodeSent(code))
      case AskToken(rid, form) => Asked(cfg, w, rid, form)
      case TakeCode(rid) =>
        var p := w.pending[rid];
        var value := Trim(p.form.code);
        (AddPending(w, rid, ToFinish(p.client, p.form, Lookup(w.codes, value))).(codes := w.codes - {value}), Nothing)
      case FinishCode(rid, ids) =>
        var p := w.pending[rid];
        Answered(w, rid, [Trim(p.form.code)], RedeemCode(cfg, p.client, p.form, p.code, w.now, ids))
      case FinishRefresh(rid, ids) =>
        var p := w.pending[rid];
        Answered(w, rid, [], RedeemRefresh(cfg, p.client, p.form, w.now, ids))
      case Bearer(credential) => (
        match Authenticate(cfg, credential, w.now)
        case None => (w, Unauthorized)
        case Some(principal) => (w, Authenticated(principal)))
      case Restart =>
        match Rebuilt(cfg, w.file)
        case None => (w, Refused(ServerError))
        case Some(clients) => (w.(clients := clients, codes := map[], pending := map[]), Nothing)
  }

  // A provider started on no file.
  function Start(cfg: Config, now: int): World {
    var clients := map[cfg.clientID := ConfiguredClient(cfg)];
    World(clients, map[], None, map[], now, clients, [], {}, [], {})
  }

  function Run(cfg: Config, gc: bool, w: World, es: seq<Event>): (World, seq<Response>)
    decreases |es|
  {
    if es == [] then (w, [])
    else
      var (w1, r) := Step(cfg, gc, w, es[0]);
      var (w2, rs) := Run(cfg, gc, w1, es[1..]);
      (w2, [r] + rs)
  }
}
