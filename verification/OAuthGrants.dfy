/** Exactly when grants and tokens are honoured. */
module OAuthGrants {
  import opened Outcomes
  import opened Text
  import opened Scopes
  import opened Authn
  import opened OAuth
  import opened OAuthRuns
  import opened OAuthLaws

  // The scopes of an approved request are granted again whenever they are asked for.
  lemma ApprovedIsIssued(cfg: Config, w: World, request: AuthorizationRequest, clientID: string, now: int,
                         ids: (string, string))
    requires Invariant(cfg, w) && Approved(cfg, w.approvals, request, cfg.principal)
    ensures
      var r := IssueTokens(cfg, clientID, cfg.principal, request.scopes, now, ids);
      && r.Ok?
      && r.value.access.scope == r.value.refresh.scope == JoinScopes(request.scopes)
      && ParseScopes(JoinScopes(request.scopes)) == request.scopes
  {
    var a :| a in w.approvals && a.request == request;
    assert ApprovalSound(cfg, w.registered, a);
    JoinThenParse(request.scopes);
  }

  // A taken code is answered with tokens exactly when it was there, has not
  // expired, and the request comes from its client, does not name another
  // redirect URI, and shows the verifier of the challenge that the user
  // approved; and then the tokens have the approved scopes.
  lemma CodeGrantIsExact(cfg: Config, gc: bool, w: World, rid: nat, ids: (string, string))
    requires Invariant(cfg, w) && Possible(cfg, w, FinishCode(rid, ids))
    ensures
      var p, r := w.pending[rid], Step(cfg, gc, w, FinishCode(rid, ids)).1;
      && (r.Tokens? <==>
            && p.code.Some? && w.now <= p.code.value.expiresAt && p.code.value.clientID == p.client.id
            && (Trim(p.form.redirectURI) == "" || Trim(p.form.redirectURI) == p.code.value.redirectURI)
            && Trim(p.form.verifier) != "" && Digest(Trim(p.form.verifier)) == p.code.value.challenge)
      && (r.Tokens? ==> Approved(cfg, w.approvals, RequestOf(p.code.value), cfg.principal)
                        && r.issue.access.scope == r.issue.refresh.scope == JoinScopes(p.code.value.scopes))
  {
    var p := w.pending[rid];
    assert PendingApproved(cfg, w.approvals, p);
    if p.code.Some? {
      ApprovedIsIssued(cfg, w, RequestOf(p.code.value), p.client.id, w.now, ids);
    }
  }

  // A refresh token that was issued is answered exactly when it is one, has not
  // expired and comes from its client; the new tokens have its scope.
  lemma RefreshIsExact(cfg: Config, w: World, client: Client, form: TokenForm, ids: (string, string))
    requires Invariant(cfg, w) && form.credential.Genuine? && form.credential.claims in w.issued
    ensures
      var c, r := form.credential.claims, RedeemRefresh(cfg, client, form, w.now, ids);
      && (r.Ok? <==> c.kind == Refresh && Unix(w.now) < c.expiresAt && c.clientID == client.id && cfg.principal != "")
      && (r.Ok? ==> r.value.access.scope == r.value.refresh.scope == c.scope)
  {
    var c := form.credential.claims;
    assert TokenApproved(cfg, w.approvals, c);
    var a :| a in w.approvals && a.request.clientID == c.clientID && JoinScopes(a.request.scopes) == c.scope;
    ApprovedIsIssued(cfg, w, a.request, client.id, w.now, ids);
  }

  // The grant types of the client are not looked at. So the rule that only clients
  // registered for it are refreshed holds of a request exactly when its client is
  // one of them or the request would be refused anyway.
  lemma RefreshIgnoresGrantTypes(cfg: Config, w: World, client: Client, form: TokenForm, ids: (string, string))
    requires Invariant(cfg, w) && form.credential.Genuine? && form.credential.claims in w.issued
    ensures
      var c := form.credential.claims;
      (RedeemRefresh(cfg, client, form, w.now, ids).Ok? ==> "refresh_token" in client.grantTypes)
      <==>
      || "refresh_token" in client.grantTypes
      || c.kind != Refresh || c.expiresAt <= Unix(w.now) || c.clientID != client.id || cfg.principal == ""
  {
    RefreshIsExact(cfg, w, client, form, ids);
  }

  // A client has the grant types that it registers for.
  lemma RegisteredGrants(cfg: Config, input: Registration, id: string, now: int)
    requires Normal(input.grantTypes) && input.grantTypes != [] && NewClient(cfg, input, id, now).Ok?
    ensures NewClient(cfg, input, id, now).value.grantTypes == input.grantTypes
  {
    NormalizeKeeps([], input.grantTypes);
    assert [] + input.grantTypes == input.grantTypes;
  }

  // In every reachable state a client that registered for the code grant alone is
  // refreshed like any other.
  lemma CodeOnlyClientIsRefreshed(cfg: Config, gc: bool, w: World, rid: nat, form: TokenForm, ids: (string, string))
    requires Invariant(cfg, w) && rid !in w.pending && cfg.principal != ""
    requires TokenClient(cfg, w.clients, form).Ok? && form.grant == RefreshTokenGrant
    requires "refresh_token" !in TokenClient(cfg, w.clients, form).value.grantTypes
    requires form.credential.Genuine? && form.credential.claims in w.issued
    requires
      var c := form.credential.claims;
      c.kind == Refresh && Unix(w.now) < c.expiresAt && c.clientID == TokenClient(cfg, w.clients, form).value.id
    ensures
      var w1 := Step(cfg, gc, w, AskToken(rid, form)).0;
      Step(cfg, gc, w1, FinishRefresh(rid, ids)).1.Tokens?
  {
    var client := TokenClient(cfg, w.clients, form).value;
    RefreshIsExact(cfg, w, client, form, ids);
    AskingForRefresh(cfg, gc, w, rid, form, client);
    FinishingRefresh(cfg, gc, w, rid, client, form, ids);
  }

  lemma AskingForRefresh(cfg: Config, gc: bool, w: World, rid: nat, form: TokenForm, client: Client)
    requires rid !in w.pending && TokenClient(cfg, w.clients, form) == Ok(client) && form.grant == RefreshTokenGrant
    ensures Step(cfg, gc, w, AskToken(rid, form)).0 == AddPending(w, rid, ToRefresh(client, form))
  {
  }

  lemma FinishingRefresh(cfg: Config, gc: bool, w: World, rid: nat, client: Client, form: TokenForm,
                         ids: (string, string))
    requires form.credential.Genuine? && form.credential.claims in w.issued
    requires RedeemRefresh(cfg, client, form, w.now, ids).Ok?
    ensures Step(cfg, gc, AddPending(w, rid, ToRefresh(client, form)), FinishRefresh(rid, ids)).1.Tokens?
  {
  }

  // A token that was issued authenticates exactly when it is an access token
  // that has not expired.
  lemma BearerIsExact(cfg: Config, w: World, c: Claims)
    requires Invariant(cfg, w) && c in w.issued
    ensures Authenticate(cfg, Genuine(c), w.now).Some? <==> c.kind == Access && Unix(w.now) < c.expiresAt
  {
    assert TokenApproved(cfg, w.approvals, c);
    var a :| a in w.approvals && a.request.clientID == c.clientID && JoinScopes(a.request.scopes) == c.scope;
    assert ApprovalSound(cfg, w.registered, a);
    JoinThenParse(a.request.scopes);
  }

  // Whatever happens after a grant, its access token authenticates until its
  // lifetime is over and not after it, and its refresh token never does.
  lemma TokensLastTheirLifetime(cfg: Config, gc: bool, w: World, e: Event, after: seq<Event>)
    requires Invariant(cfg, w) && (e.FinishCode? || e.FinishRefresh?) && Step(cfg, gc, w, e).1.Tokens?
    ensures
      var (w1, r) := Step(cfg, gc, w, e);
      var w2 := Run(cfg, gc, w1, after).0;
      && (Authenticate(cfg, Genuine(r.issue.access), w2.now).Some? <==> Unix(w2.now) < Unix(w.now + cfg.accessTTL))
      && Authenticate(cfg, Genuine(r.issue.refresh), w2.now).None?
  {
    var (w1, r) := Step(cfg, gc, w, e);
    var w2 := Run(cfg, gc, w1, after).0;
    StepKeepsInvariant(cfg, gc, w, e);
    RunKeepsInvariant(cfg, gc, w1, after);
    ResponsesAreLogged(cfg, gc, w1, after);
    GrantedAt(cfg, gc, w, e);
    BearerIsExact(cfg, w2, r.issue.access);
    BearerIsExact(cfg, w2, r.issue.refresh);
  }

  lemma GrantedAt(cfg: Config, gc: bool, w: World, e: Event)
    requires (e.FinishCode? || e.FinishRefresh?) && Step(cfg, gc, w, e).1.Tokens?
    ensures
      var (w1, r) := Step(cfg, gc, w, e);
      && r.issue.access in w1.issued && r.issue.refresh in w1.issued
      && r.issue.access.kind == Access && r.issue.access.expiresAt == Unix(w.now + cfg.accessTTL)
      && r.issue.refresh.kind == Refresh && r.issue.refresh.expiresAt == Unix(w.now + cfg.refreshTTL)
      && r.issue.access.issuedAt == r.issue.refresh.issuedAt == Unix(w.now)
      && (r.issue.access.id, r.issue.refresh.id) == e.ids
  {
  }

  // --------------------------------------------------------- the whole grant

  // A token request that answers an authorization request with its code.
  predicate Answers(cfg: Config, request: AuthorizationRequest, value: string, form: TokenForm) {
    && form.grant == AuthorizationCodeGrant && !form.hasAuthorization
    && Trim(form.clientID) == request.clientID && Trim(form.code) == value
    && (Trim(form.resource) == "" || Trim(form.resource) == cfg.resource)
    && (Trim(form.redirectURI) == "" || Trim(form.redirectURI) == request.redirectURI)
    && Trim(form.verifier) != "" && Digest(Trim(form.verifier)) == request.challenge
  }

  lemma SigningInIsPending(cfg: Config, gc: bool, w: World, rid: nat, form: AuthorizationForm)
    requires rid !in w.pending && Approve(cfg, w.clients, form).Ok?
    ensures
      var w1 := Step(cfg, gc, w, Authorize(rid, form)).0;
      && w1.pending == w.pending[rid := ToMint(Approve(cfg, w.clients, form).value)]
      && w1.clients == w.clients && w1.now == w.now && w1.minted == w.minted
  {
  }

  lemma PendingIsMinted(cfg: Config, gc: bool, w: World, rid: nat, request: AuthorizationRequest, value: string)
    requires rid in w.pending && w.pending[rid] == ToMint(request) && value !in w.minted
    ensures
      var (w1, r) := Step(cfg, gc, w, MintCode(rid, value));
      && r == CodeSent(value) && w1.pending == w.pending - {rid} && w1.clients == w.clients && w1.now == w.now
      && value in w1.codes && w1.codes[value] == CodeFor(cfg, request, w.now)
  {
  }

  lemma AskingIsPending(cfg: Config, gc: bool, w: World, rid: nat, request: AuthorizationRequest, value: string,
                        form: TokenForm)
    requires Invariant(cfg, w) && rid !in w.pending && value != ""
    requires request.clientID in w.clients && Answers(cfg, request, value, form)
    ensures
      var w1 := Step(cfg, gc, w, AskToken(rid, form)).0;
      w1 == AddPending(w, rid, ToTake(w.clients[request.clientID], form))
  {
    assert TokenClient(cfg, w.clients, form) == Ok(w.clients[request.clientID]);
  }

  lemma TakingFinds(cfg: Config, gc: bool, w: World, rid: nat, client: Client, form: TokenForm)
    requires rid in w.pending && w.pending[rid] == ToTake(client, form)
    ensures
      var w1 := Step(cfg, gc, w, TakeCode(rid)).0;
      && w1.now == w.now && rid in w1.pending
      && w1.pending[rid] == ToFinish(client, form, Lookup(w.codes, Trim(form.code)))
  {
  }

  // ------------------------------------------------ what others leave as it was

  // A step of request rid after its first.
  predicate Continues(e: Event, rid: nat) {
    (e.MintCode? || e.TakeCode? || e.FinishCode? || e.FinishRefresh?) && e.rid == rid
  }

  // The request presents this code.
  predicate Presents(w: World, e: Event, value: string) {
    && e.TakeCode? && e.rid in w.pending && w.pending[e.rid].ToTake?
    && Trim(w.pending[e.rid].form.code) == value
  }

  // A run without a restart and without a step of rid.
  predicate LeavesRequest(es: seq<Event>, rid: nat) {
    forall i | 0 <= i < |es| :: !es[i].Restart? && !Continues(es[i], rid)
  }

  // A run without a restart in which nobody presents the code.
  predicate LeavesCode(cfg: Config, gc: bool, w: World, es: seq<Event>, value: string)
    decreases |es|
  {
    es == [] ||
    (!es[0].Restart? && !Presents(w, es[0], value) && LeavesCode(cfg, gc, Step(cfg, gc, w, es[0]).0, es[1..], value))
  }

  // The code stands, unless it has expired.
  predicate CodeStands(w: World, value: string, code: Code) {
    value in w.minted && (if value in w.codes then w.codes[value] == code else Expired(code, w.now))
  }

  // Time does not go back, and clients are not changed.
  predicate Onward(w: World, v: World) {
    w.now <= v.now && forall k | k in w.clients :: k in v.clients && v.clients[k] == w.clients[k]
  }

  lemma StepGoesOnward(cfg: Config, gc: bool, w: World, e: Event)
    requires ClientsSound(cfg, w) && !e.Restart?
    ensures Onward(w, Step(cfg, gc, w, e).0)
  {
    if e.Register? {
      if Possible(cfg, w, e) && NewClient(cfg, e.input, e.id, w.now).Ok? {
        RegisteringGoesOnward(cfg, w, NewClient(cfg, e.input, e.id, w.now).value, e.order, e.saves);
      }
    } else {
      OthersKeepClients(cfg, gc, w, e);
    }
  }

  lemma RegisteringGoesOnward(cfg: Config, w: World, client: Client, order: seq<string>, saves: bool)
    requires client.id !in w.clients && forall k | k in order :: k in w.clients || k == client.id
    ensures Onward(w, AfterRegister(cfg, w, client, order, saves).0)
  {
  }

  lemma OthersKeepClients(cfg: Config, gc: bool, w: World, e: Event)
    requires !e.Restart? && !e.Register?
    ensures Step(cfg, gc, w, e).0.clients == w.clients && w.now <= Step(cfg, gc, w, e).0.now
  {
  }

  lemma StepLeavesRequest(cfg: Config, gc: bool, w: World, e: Event, rid: nat)
    requires rid in w.pending && !e.Restart? && !Continues(e, rid)
    ensures
      var w1 := Step(cfg, gc, w, e).0;
      rid in w1.pending && w1.pending[rid] == w.pending[rid]
  {
  }

  lemma StepLeavesCode(cfg: Config, gc: bool, w: World, e: Event, value: string, code: Code)
    requires CodeStands(w, value, code) && !e.Restart? && !Presents(w, e, value)
    ensures CodeStands(Step(cfg, gc, w, e).0, value, code)
  {
  }

  lemma {:induction false} RunGoesOnward(cfg: Config, gc: bool, w: World, es: seq<Event>)
    requires Invariant(cfg, w) && forall i | 0 <= i < |es| :: !es[i].Restart?
    ensures Onward(w, Run(cfg, gc, w, es).0) && Invariant(cfg, Run(cfg, gc, w, es).0)
    decreases |es|
  {
    if es != [] {
      StepGoesOnward(cfg, gc, w, es[0]);
      StepKeepsInvariant(cfg, gc, w, es[0]);
      RunGoesOnward(cfg, gc, Step(cfg, gc, w, es[0]).0, es[1..]);
    }
  }

  lemma {:induction false} RunLeavesRequest(cfg: Config, gc: bool, w: World, es: seq<Event>, rid: nat)
    requires rid in w.pending && LeavesRequest(es, rid)
    ensures
      var w1 := Run(cfg, gc, w, es).0;
      rid in w1.pending && w1.pending[rid] == w.pending[rid]
    decreases |es|
  {
    if es != [] {
      StepLeavesRequest(cfg, gc, w, es[0], rid);
      RunLeavesRequest(cfg, gc, Step(cfg, gc, w, es[0]).0, es[1..], rid);
    }
  }

  lemma {:induction false} RunLeavesCode(cfg: Config, gc: bool, w: World, es: seq<Event>, value: string, code: Code)
    requires CodeStands(w, value, code) && LeavesCode(cfg, gc, w, es, value)
    ensures CodeStands(Run(cfg, gc, w, es).0, value, code) && forall i | 0 <= i < |es| :: !es[i].Restart?
    decreases |es|
  {
    if es != [] {
      StepLeavesCode(cfg, gc, w, es[0], value, code);
      RunLeavesCode(cfg, gc, Step(cfg, gc, w, es[0]).0, es[1..], value, code);
    }
  }

  // ----------------------------------------------------------- the whole flow

  // A request rid that signs in and gets the code value, and a request asked that
  // shows it; signing, before, between and after are what happens in between.
  datatype Flow = Flow(rid: nat, form: AuthorizationForm, signing: seq<Event>, value: string, before: seq<Event>,
                       asked: nat, tform: TokenForm, between: seq<Event>, after: seq<Event>)

  // Before the code is minted, before it is asked for, before it is taken, and
  // before the answer.
  function BeforeMint(cfg: Config, gc: bool, w: World, f: Flow): World {
    Run(cfg, gc, Step(cfg, gc, w, Authorize(f.rid, f.form)).0, f.signing).0
  }

  function BeforeAsk(cfg: Config, gc: bool, w: World, f: Flow): World {
    Run(cfg, gc, Step(cfg, gc, w, MintCode(f.rid, f.value)).0, f.before).0
  }

  function BeforeTake(cfg: Config, gc: bool, w: World, f: Flow): World {
    Run(cfg, gc, Step(cfg, gc, w, AskToken(f.asked, f.tform)).0, f.between).0
  }

  function BeforeAnswer(cfg: Config, gc: bool, w: World, f: Flow): World {
    Run(cfg, gc, Step(cfg, gc, w, TakeCode(f.asked)).0, f.after).0
  }

  lemma FlowMints(cfg: Config, gc: bool, w: World, f: Flow)
    requires Invariant(cfg, w) && f.rid !in w.pending && Approve(cfg, w.clients, f.form).Ok?
    requires LeavesRequest(f.signing, f.rid)
    ensures
      var request := Approve(cfg, w.clients, f.form).value;
      var v := BeforeMint(cfg, gc, w, f);
      && Invariant(cfg, v) && Onward(w, v) && f.rid in v.pending && v.pending[f.rid] == ToMint(request)
      && request.clientID in w.clients && w.clients[request.clientID].id == request.clientID
  {
    var w1 := Step(cfg, gc, w, Authorize(f.rid, f.form)).0;
    SigningInIsPending(cfg, gc, w, f.rid, f.form);
    StepKeepsInvariant(cfg, gc, w, Authorize(f.rid, f.form));
    RunLeavesRequest(cfg, gc, w1, f.signing, f.rid);
    RunGoesOnward(cfg, gc, w1, f.signing);
    ApprovedIsSound(cfg, w, f.form);
  }

  lemma FlowWaits(cfg: Config, gc: bool, w: World, f: Flow, request: AuthorizationRequest)
    requires Invariant(cfg, w) && f.rid in w.pending && w.pending[f.rid] == ToMint(request) && f.value !in w.minted
    requires LeavesCode(cfg, gc, Step(cfg, gc, w, MintCode(f.rid, f.value)).0, f.before, f.value)
    ensures
      var v := BeforeAsk(cfg, gc, w, f);
      Invariant(cfg, v) && Onward(w, v) && CodeStands(v, f.value, CodeFor(cfg, request, w.now))
  {
    var w1 := Step(cfg, gc, w, MintCode(f.rid, f.value)).0;
    PendingIsMinted(cfg, gc, w, f.rid, request, f.value);
    StepKeepsInvariant(cfg, gc, w, MintCode(f.rid, f.value));
    RunLeavesCode(cfg, gc, w1, f.before, f.value, CodeFor(cfg, request, w.now));
    RunGoesOnward(cfg, gc, w1, f.before);
  }

  lemma FlowAsks(cfg: Config, gc: bool, w: World, f: Flow, request: AuthorizationRequest, code: Code)
    requires Invariant(cfg, w) && f.asked !in w.pending && f.value != "" && CodeStands(w, f.value, code)
    requires request.clientID in w.clients && Answers(cfg, request, f.value, f.tform)
    requires LeavesCode(cfg, gc, Step(cfg, gc, w, AskToken(f.asked, f.tform)).0, f.between, f.value)
    requires LeavesRequest(f.between, f.asked)
    ensures
      var v := BeforeTake(cfg, gc, w, f);
      && Invariant(cfg, v) && CodeStands(v, f.value, code)
      && f.asked in v.pending && v.pending[f.asked] == ToTake(w.clients[request.clientID], f.tform)
  {
    var w1 := Step(cfg, gc, w, AskToken(f.asked, f.tform)).0;
    AskingIsPending(cfg, gc, w, f.asked, request, f.value, f.tform);
    StepKeepsInvariant(cfg, gc, w, AskToken(f.asked, f.tform));
    RunLeavesCode(cfg, gc, w1, f.between, f.value, code);
    RunLeavesRequest(cfg, gc, w1, f.between, f.asked);
    RunGoesOnward(cfg, gc, w1, f.between);
  }

  lemma FlowTakes(cfg: Config, gc: bool, w: World, f: Flow, client: Client)
    requires Invariant(cfg, w) && f.asked in w.pending && w.pending[f.asked] == ToTake(client, f.tform)
    requires LeavesRequest(f.after, f.asked)
    ensures
      var v := BeforeAnswer(cfg, gc, w, f);
      && Invariant(cfg, v) && w.now <= v.now && f.asked in v.pending
      && v.pending[f.asked] == ToFinish(client, f.tform, Lookup(w.codes, Trim(f.tform.code)))
  {
    var w1 := Step(cfg, gc, w, TakeCode(f.asked)).0;
    TakingFinds(cfg, gc, w, f.asked, client, f.tform);
    StepKeepsInvariant(cfg, gc, w, TakeCode(f.asked));
    RunLeavesRequest(cfg, gc, w1, f.after, f.asked);
    RunGoesOnward(cfg, gc, w1, f.after);
  }

  lemma FlowEnds(cfg: Config, gc: bool, w: World, f: Flow, request: AuthorizationRequest, minted: int, client: Client,
                 code: Option<Code>, ids: (string, string))
    requires Invariant(cfg, w) && client.id == request.clientID && Answers(cfg, request, f.value, f.tform)
    requires f.asked in w.pending && w.pending[f.asked] == ToFinish(client, f.tform, code)
    requires match code
             case Some(c) => c == CodeFor(cfg, request, minted)
             case None => minted + cfg.codeTTL < w.now
    ensures
      var r := Step(cfg, gc, w, FinishCode(f.asked, ids)).1;
      && (r.Tokens? <==> w.now <= minted + cfg.codeTTL)
      && (r.Tokens? ==> ParseScopes(r.issue.access.scope) == request.scopes)
  {
    CodeGrantIsExact(cfg, gc, w, f.asked, ids);
    if code.Some? && w.now <= minted + cfg.codeTTL {
      ApprovedIsIssued(cfg, w, request, client.id, w.now, ids);
    }
  }

  // The flow is possible and left alone: no restart, no other presentation of
  // the code, and no other steps of its two requests.
  predicate LeftAlone(cfg: Config, gc: bool, w: World, f: Flow) {
    var w1 := BeforeMint(cfg, gc, w, f);
    var w2 := BeforeAsk(cfg, gc, w1, f);
    && f.rid !in w.pending && LeavesRequest(f.signing, f.rid) && f.value !in w1.minted && f.value != ""
    && LeavesCode(cfg, gc, Step(cfg, gc, w1, MintCode(f.rid, f.value)).0, f.before, f.value)
    && f.asked !in w2.pending
    && LeavesCode(cfg, gc, Step(cfg, gc, w2, AskToken(f.asked, f.tform)).0, f.between, f.value)
    && LeavesRequest(f.between, f.asked) && LeavesRequest(f.after, f.asked)
  }

  // A user signs in and consents, and the client shows the code with its
  // verifier, with whatever else between the steps: it gets tokens of exactly
  // the approved scopes, if and only if it is answered within the lifetime of
  // the code.
  lemma ApprovedRequestGetsTokens(cfg: Config, gc: bool, w: World, f: Flow, ids: (string, string))
    requires Invariant(cfg, w) && Approve(cfg, w.clients, f.form).Ok? && LeftAlone(cfg, gc, w, f)
    requires Answers(cfg, Approve(cfg, w.clients, f.form).value, f.value, f.tform)
    ensures
      var request := Approve(cfg, w.clients, f.form).value;
      var w1 := BeforeMint(cfg, gc, w, f);
      var w4 := BeforeAnswer(cfg, gc, BeforeTake(cfg, gc, BeforeAsk(cfg, gc, w1, f), f), f);
      var r := Step(cfg, gc, w4, FinishCode(f.asked, ids)).1;
      && (r.Tokens? <==> w4.now <= w1.now + cfg.codeTTL)
      && (r.Tokens? ==> ParseScopes(r.issue.access.scope) == request.scopes)
  {
    var request := Approve(cfg, w.clients, f.form).value;
    var w1 := BeforeMint(cfg, gc, w, f);
    var w2 := BeforeAsk(cfg, gc, w1, f);
    var w3 := BeforeTake(cfg, gc, w2, f);
    var code := CodeFor(cfg, request, w1.now);
    FlowMints(cfg, gc, w, f);
    var client := w.clients[request.clientID];
    FlowWaits(cfg, gc, w1, f, request);
    FlowAsks(cfg, gc, w2, f, request, code);
    FlowTakes(cfg, gc, w3, f, client);
    FlowEnds(cfg, gc, BeforeAnswer(cfg, gc, w3, f), f, request, w1.now, client, Lookup(w3.codes, f.value), ids);
  }
}
