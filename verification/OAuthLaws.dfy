/** What every run of the OAuth provider keeps. */
module OAuthLaws {
  import opened Outcomes
  import opened Text
  import opened Scopes
  import opened Authn
  import opened OAuth
  import opened OAuthRuns
  import opened OAuthRequests

  // ------------------------------------------------------------- provenance

  // The user approved this request, for the principal.
  predicate Approved(cfg: Config, approvals: seq<Approval>, request: AuthorizationRequest, subject: string) {
    subject == cfg.principal && exists a | a in approvals :: a.request == request
  }

  // The request that a code was minted for.
  function RequestOf(code: Code): AuthorizationRequest {
    AuthorizationRequest(code.clientID, code.redirectURI, code.scopes, code.challenge)
  }

  predicate TokenApproved(cfg: Config, approvals: seq<Approval>, c: Claims) {
    && c.issuer == cfg.issuer && c.audience == cfg.resource && c.subject == cfg.principal
    && FindPrincipal(cfg.principals, cfg.principal).Some?
    && c.connections == FindPrincipal(cfg.principals, cfg.principal).value.connections
    && exists a | a in approvals :: a.request.clientID == c.clientID && JoinScopes(a.request.scopes) == c.scope
  }

  // What is approved lies within the principal's scopes and the client's, and
  // goes to a redirect URI that the client registered.
  predicate ApprovalSound(cfg: Config, registered: Clients, a: Approval) {
    var scopes := a.request.scopes;
    && Normal(scopes)
    && FindPrincipal(cfg.principals, cfg.principal).Some?
    && ScopesValid(scopes, FindPrincipal(cfg.principals, cfg.principal).value)
    && a.request.clientID in registered && registered[a.request.clientID] == a.client
    && (a.client.scopes != [] ==> forall i | 0 <= i < |scopes| :: scopes[i] in a.client.scopes)
    && a.request.redirectURI in a.client.redirectURIs && a.request.challenge != ""
  }

  predicate PendingApproved(cfg: Config, approvals: seq<Approval>, p: Pending) {
    match p
    case ToMint(request) => Approved(cfg, approvals, request, cfg.principal)
    case ToFinish(_, _, Some(code)) => Approved(cfg, approvals, RequestOf(code), code.principal)
    case _ => true
  }

  predicate ClientsSound(cfg: Config, w: World) {
    && (forall k | k in w.registered :: w.registered[k].id == k && w.registered[k].authMethod == "none")
    && (forall k | k in w.clients :: k in w.registered && w.registered[k] == w.clients[k])
    && cfg.clientID in w.clients && w.clients[cfg.clientID] == ConfiguredClient(cfg)
    && (w.file.Some? ==> FileSound(cfg, w.registered, w.file.value))
    && "" !in w.registered
  }

  predicate FileSound(cfg: Config, registered: Clients, file: seq<Client>) {
    forall i | 0 <= i < |file| ::
      file[i].id in registered && registered[file[i].id] == file[i] && file[i].id != cfg.clientID
  }

  predicate Invariant(cfg: Config, w: World) {
    && ClientsSound(cfg, w)
    && (forall a | a in w.approvals :: ApprovalSound(cfg, w.registered, a))
    && (forall value | value in w.codes ::
          Approved(cfg, w.approvals, RequestOf(w.codes[value]), w.codes[value].principal))
    && (forall rid | rid in w.pending :: PendingApproved(cfg, w.approvals, w.pending[rid]))
    && (forall c | c in w.issued :: TokenApproved(cfg, w.approvals, c))
  }

  // Valid scopes without repetitions survive being joined and parsed.
  lemma ValidScopesAreNormal(scopes: seq<string>, p: Principal)
    requires ScopesValid(scopes, p) && NoRepeats(scopes)
    ensures Normal(scopes)
  {
    forall i | 0 <= i < |scopes|
      ensures NormalScope(scopes[i])
    {
      LowerWordIsNormal(scopes[i]);
    }
  }

  lemma RequestedScopesHaveNoRepeats(cfg: Config, scope: string)
    ensures NoRepeats(RequestedScopes(cfg, scope))
  {
    NormalizedHasNoRepeats([], Fields(scope));
    NormalizedHasNoRepeats([], cfg.baseScopes + cfg.defaultScopes);
  }

  lemma ApprovedIsSound(cfg: Config, w: World, form: AuthorizationForm)
    requires ClientsSound(cfg, w) && Approve(cfg, w.clients, form).Ok?
    ensures
      var request := Approve(cfg, w.clients, form).value;
      && request.clientID in w.clients
      && ApprovalSound(cfg, w.registered, Approval(request, w.clients[request.clientID]))
  {
    RequestedScopesHaveNoRepeats(cfg, form.scope);
    var p := FindPrincipal(cfg.principals, cfg.principal).value;
    ValidScopesAreNormal(RequestedScopes(cfg, form.scope), p);
  }

  // More approvals and more registered clients take nothing back.
  lemma ApprovalsGrow(cfg: Config, approvals: seq<Approval>, more: seq<Approval>)
    requires approvals <= more
    ensures forall request, subject ::
      Approved(cfg, approvals, request, subject) ==> Approved(cfg, more, request, subject)
    ensures forall c :: TokenApproved(cfg, approvals, c) ==> TokenApproved(cfg, more, c)
    ensures forall p :: PendingApproved(cfg, approvals, p) ==> PendingApproved(cfg, more, p)
  {
    assert forall a | a in approvals :: a in more;
    forall p | PendingApproved(cfg, approvals, p)
      ensures PendingApproved(cfg, more, p)
    {
    }
  }

  lemma RegisteringIsSound(cfg: Config, w: World, client: Client, order: seq<string>, saves: bool)
    requires Invariant(cfg, w) && client.authMethod == "none" && client.id !in w.registered && client.id != ""
    requires Enumerates(order, w.clients.Keys + {client.id}, cfg.clientID)
    ensures Invariant(cfg, AfterRegister(cfg, w, client, order, saves).0)
  {
    var w1 := AfterRegister(cfg, w, client, order, saves).0;
    RegisteringKeepsClients(cfg, w, client, order, saves);
    forall a | a in w1.approvals
      ensures ApprovalSound(cfg, w1.registered, a)
    {
      assert ApprovalSound(cfg, w.registered, a);
    }
  }

  lemma RegisteringKeepsClients(cfg: Config, w: World, client: Client, order: seq<string>, saves: bool)
    requires ClientsSound(cfg, w) && client.authMethod == "none" && client.id !in w.registered && client.id != ""
    requires Enumerates(order, w.clients.Keys + {client.id}, cfg.clientID)
    ensures ClientsSound(cfg, AfterRegister(cfg, w, client, order, saves).0)
  {
    var w1 := AfterRegister(cfg, w, client, order, saves).0;
    assert forall k | k in w.registered :: k in w1.registered && w1.registered[k] == w.registered[k];
    if cfg.hasStore && saves {
      assert FileSound(cfg, w1.registered, w1.file.value);
    }
  }

  lemma ApprovingIsSound(cfg: Config, w: World, a: Approval)
    requires Invariant(cfg, w) && ApprovalSound(cfg, w.registered, a)
    ensures Invariant(cfg, w.(approvals := w.approvals + [a]))
  {
    ApprovalsGrow(cfg, w.approvals, w.approvals + [a]);
  }

  lemma AuthorizingIsSound(cfg: Config, w: World, rid: nat, form: AuthorizationForm)
    requires Invariant(cfg, w) && Approve(cfg, w.clients, form).Ok?
    ensures
      var request := Approve(cfg, w.clients, form).value;
      && request.clientID in w.clients
      && Invariant(cfg, AddPending(w, rid, ToMint(request))
                        .(approvals := w.approvals + [Approval(request, w.clients[request.clientID])]))
  {
    var request := Approve(cfg, w.clients, form).value;
    ApprovedIsSound(cfg, w, form);
    var a := Approval(request, w.clients[request.clientID]);
    ApprovingIsSound(cfg, w, a);
    var w1 := w.(approvals := w.approvals + [a]);
    assert a in w1.approvals;
    AddingIsSound(cfg, w1, rid, ToMint(request));
    assert AddPending(w, rid, ToMint(request)).(approvals := w.approvals + [a]) == AddPending(w1, rid, ToMint(request));
  }

  // Codes that were there, and one for an approved request.
  lemma MintedAreApproved(cfg: Config, gc: bool, w: World, request: AuthorizationRequest, code: string)
    requires Invariant(cfg, w)
    requires Approved(cfg, w.approvals, request, cfg.principal)
    ensures
      var codes := Minted(cfg, gc, w.codes, request, code, w.now);
      forall v | v in codes :: Approved(cfg, w.approvals, RequestOf(codes[v]), codes[v].principal)
  {
    var codes := Minted(cfg, gc, w.codes, request, code, w.now);
    forall v | v in codes
      ensures Approved(cfg, w.approvals, RequestOf(codes[v]), codes[v].principal)
    {
      if v != code {
        assert v in w.codes && codes[v] == w.codes[v];
      }
    }
  }

  lemma MintingIsSound(cfg: Config, gc: bool, w: World, rid: nat, code: string)
    requires Invariant(cfg, w) && rid in w.pending && w.pending[rid].ToMint? && code !in w.minted
    ensures Invariant(cfg, Step(cfg, gc, w, MintCode(rid, code)).0)
  {
    assert PendingApproved(cfg, w.approvals, w.pending[rid]);
    MintedAreApproved(cfg, gc, w, w.pending[rid].request, code);
  }

  lemma TakingIsSound(cfg: Config, gc: bool, w: World, rid: nat)
    requires Invariant(cfg, w) && rid in w.pending && w.pending[rid].ToTake?
    ensures Invariant(cfg, Step(cfg, gc, w, TakeCode(rid)).0)
  {
    var p := w.pending[rid];
    AddingIsSound(cfg, w, rid, ToFinish(p.client, p.form, Lookup(w.codes, Trim(p.form.code))));
  }

  lemma AnsweringIsSound(cfg: Config, w: World, rid: nat, codes: seq<string>, r: Result<Issue, Error>)
    requires Invariant(cfg, w)
    requires r.Ok? ==>
      TokenApproved(cfg, w.approvals, r.value.access) && TokenApproved(cfg, w.approvals, r.value.refresh)
    ensures Invariant(cfg, Answered(w, rid, codes, r).0)
  {
  }

  lemma RedeemedCodeIsApproved(cfg: Config, w: World, client: Client, form: TokenForm, code: Option<Code>,
                               ids: (string, string))
    requires Invariant(cfg, w) && PendingApproved(cfg, w.approvals, ToFinish(client, form, code))
    requires RedeemCode(cfg, client, form, code, w.now, ids).Ok?
    ensures
      var issue := RedeemCode(cfg, client, form, code, w.now, ids).value;
      TokenApproved(cfg, w.approvals, issue.access) && TokenApproved(cfg, w.approvals, issue.refresh)
  {
    var a :| a in w.approvals && a.request == RequestOf(code.value);
  }

  // A refresh keeps the scope list: parsing what was joined gives it back.
  lemma RefreshedIsApproved(cfg: Config, w: World, client: Client, form: TokenForm, ids: (string, string))
    requires Invariant(cfg, w)
    requires form.credential.Genuine? ==> form.credential.claims in w.issued
    requires RedeemRefresh(cfg, client, form, w.now, ids).Ok?
    ensures
      var issue := RedeemRefresh(cfg, client, form, w.now, ids).value;
      TokenApproved(cfg, w.approvals, issue.access) && TokenApproved(cfg, w.approvals, issue.refresh)
  {
    var c := form.credential.claims;
    var a :| a in w.approvals && a.request.clientID == c.clientID && JoinScopes(a.request.scopes) == c.scope;
    assert ApprovalSound(cfg, w.registered, a);
    JoinThenParse(a.request.scopes);
  }

  lemma {:induction false} LoadedIsRegistered(cfg: Config, registered: Clients, file: seq<Client>)
    requires FileSound(cfg, registered, file)
    requires forall k | k in registered :: registered[k].id == k && registered[k].authMethod == "none" && k != ""
    ensures Loaded(file).Some?
    ensures forall k | k in Loaded(file).value ::
      k in registered && registered[k] == Loaded(file).value[k] && exists i | 0 <= i < |file| :: file[i].id == k
    ensures forall i | 0 <= i < |file| :: file[i].id in Loaded(file).value
  {
    if file != [] {
      LoadedIsRegistered(cfg, registered, file[..|file| - 1]);
      var last := file[|file| - 1];
      assert registered[last.id] == last;
    }
  }

  lemma RestartingIsSound(cfg: Config, gc: bool, w: World)
    requires Invariant(cfg, w)
    ensures Rebuilt(cfg, w.file).Some? && Invariant(cfg, Step(cfg, gc, w, Restart).0)
  {
    if cfg.hasStore && w.file.Some? {
      LoadedIsRegistered(cfg, w.registered, w.file.value);
    }
  }

  lemma AddingIsSound(cfg: Config, w: World, rid: nat, p: Pending)
    requires Invariant(cfg, w) && PendingApproved(cfg, w.approvals, p)
    ensures Invariant(cfg, AddPending(w, rid, p))
  {
    var w1 := AddPending(w, rid, p);
    forall r | r in w1.pending
      ensures PendingApproved(cfg, w1.approvals, w1.pending[r])
    {
    }
  }

  lemma AskingIsSound(cfg: Config, w: World, rid: nat, form: TokenForm)
    requires Invariant(cfg, w)
    ensures Invariant(cfg, Asked(cfg, w, rid, form).0)
  {
    if TokenClient(cfg, w.clients, form).Ok? {
      var client := TokenClient(cfg, w.clients, form).value;
      AddingIsSound(cfg, w, rid, ToTake(client, form));
      AddingIsSound(cfg, w, rid, ToRefresh(client, form));
    }
  }

  lemma FinishingIsSound(cfg: Config, gc: bool, w: World, e: Event)
    requires Invariant(cfg, w) && (e.FinishCode? || e.FinishRefresh?) && Possible(cfg, w, e)
    ensures Invariant(cfg, Step(cfg, gc, w, e).0)
  {
    var p := w.pending[e.rid];
    if e.FinishCode? {
      var r := RedeemCode(cfg, p.client, p.form, p.code, w.now, e.ids);
      if r.Ok? {
        RedeemedCodeIsApproved(cfg, w, p.client, p.form, p.code, e.ids);
      }
      AnsweringIsSound(cfg, w, e.rid, [Trim(p.form.code)], r);
    } else {
      var r := RedeemRefresh(cfg, p.client, p.form, w.now, e.ids);
      if r.Ok? {
        RefreshedIsApproved(cfg, w, p.client, p.form, e.ids);
      }
      AnsweringIsSound(cfg, w, e.rid, [], r);
    }
  }

  lemma WaitingIsSound(cfg: Config, w: World, ticks: nat)
    requires Invariant(cfg, w)
    ensures Invariant(cfg, w.(now := w.now + ticks))
  {
  }

  lemma StepKeepsInvariant(cfg: Config, gc: bool, w: World, e: Event)
    requires Invariant(cfg, w)
    ensures Invariant(cfg, Step(cfg, gc, w, e).0)
  {
    if Possible(cfg, w, e) {
      match e {
        case Wait(ticks) => WaitingIsSound(cfg, w, ticks);
        case Register(input, id, order, saves) =>
          var r := NewClient(cfg, input, id, w.now);
          if r.Ok? {
            RegisteringIsSound(cfg, w, r.value, order, saves);
          }
        case Authorize(rid, form) =>
          if Approve(cfg, w.clients, form).Ok? {
            AuthorizingIsSound(cfg, w, rid, form);
          }
        case MintCode(rid, code) => MintingIsSound(cfg, gc, w, rid, code);
        case Bearer(_) =>
        case Restart => RestartingIsSound(cfg, gc, w);
        case _ => TokenStepKeepsInvariant(cfg, gc, w, e);
      }
    }
  }

  lemma TokenStepKeepsInvariant(cfg: Config, gc: bool, w: World, e: Event)
    requires Invariant(cfg, w) && Possible(cfg, w, e)
    requires e.AskToken? || e.TakeCode? || e.FinishCode? || e.FinishRefresh?
    ensures Invariant(cfg, Step(cfg, gc, w, e).0)
  {
    match e {
      case AskToken(rid, form) => AskingIsSound(cfg, w, rid, form);
      case TakeCode(rid) => TakingIsSound(cfg, gc, w, rid);
      case _ => FinishingIsSound(cfg, gc, w, e);
    }
  }

  lemma {:induction false} RunKeepsInvariant(cfg: Config, gc: bool, w: World, es: seq<Event>)
    requires Invariant(cfg, w)
    ensures Invariant(cfg, Run(cfg, gc, w, es).0)
    decreases |es|
  {
    if es != [] {
      StepKeepsInvariant(cfg, gc, w, es[0]);
      RunKeepsInvariant(cfg, gc, Step(cfg, gc, w, es[0]).0, es[1..]);
    }
  }

  lemma StartIsSound(cfg: Config, now: int)
    requires cfg.clientID != ""
    ensures Invariant(cfg, Start(cfg, now))
  {
  }

  // In every reachable state the configured client is known: a public client with
  // the configured redirect URIs, both grants, and no scopes of its own.
  lemma ConfiguredIsKnown(cfg: Config, w: World)
    requires Invariant(cfg, w)
    ensures cfg.clientID in w.clients
    ensures
      var c := w.clients[cfg.clientID];
      && c.id == cfg.clientID && c.redirectURIs == cfg.redirectURIs && c.authMethod == "none" && c.scopes == []
      && c.grantTypes == ["authorization_code", "refresh_token"] && c.responseTypes == ["code"]
  {
  }

  // e is the sign-in that a was approved by: its form asks for the request, valid in
  // the state that w is in, and its user signs in and consents.
  predicate SignsIn(cfg: Config, w: World, e: Event, a: Approval) {
    && e.Authorize? && e.rid !in w.pending
    && Asks(cfg, w.clients, e.aform, a.request) && Consenting(cfg, e.aform)
    && a.client == w.clients[a.request.clientID]
  }

  lemma OnlySigningInApproves(cfg: Config, gc: bool, w: World, e: Event, a: Approval)
    requires a in Step(cfg, gc, w, e).0.approvals && a !in w.approvals
    ensures SignsIn(cfg, w, e, a)
  {
    assert e.Authorize?;
    ApprovalIsExact(cfg, w.clients, e.aform, a.request);
  }

  // Every approval in a run was made by one of its events, in the state that the
  // events before it lead to.
  lemma {:induction false} ApprovalsAreSignIns(cfg: Config, gc: bool, w: World, es: seq<Event>, a: Approval)
    returns (i: nat)
    requires a in Run(cfg, gc, w, es).0.approvals && a !in w.approvals
    ensures i < |es| && SignsIn(cfg, Run(cfg, gc, w, es[..i]).0, es[i], a)
    decreases |es|
  {
    var w1 := Step(cfg, gc, w, es[0]).0;
    if a in w1.approvals {
      i := 0;
      OnlySigningInApproves(cfg, gc, w, es[0], a);
    } else {
      var k := ApprovalsAreSignIns(cfg, gc, w1, es[1..], a);
      i := k + 1;
      RunFirst(cfg, gc, w, es, i);
    }
  }

  lemma RunFirst(cfg: Config, gc: bool, w: World, es: seq<Event>, i: nat)
    requires 0 < i <= |es|
    ensures Run(cfg, gc, w, es[..i]).0 == Run(cfg, gc, Step(cfg, gc, w, es[0]).0, es[1..][..i - 1]).0
  {
    assert es[..i][1..] == es[1..][..i - 1] && es[..i][0] == es[0];
  }

  lemma {:induction false} ResponsesAreLogged(cfg: Config, gc: bool, w: World, es: seq<Event>)
    ensures |Run(cfg, gc, w, es).1| == |es|
    ensures w.issued <= Run(cfg, gc, w, es).0.issued
    ensures forall j | 0 <= j < |es| && Run(cfg, gc, w, es).1[j].Tokens? ::
      var issue := Run(cfg, gc, w, es).1[j].issue;
      issue.access in Run(cfg, gc, w, es).0.issued && issue.refresh in Run(cfg, gc, w, es).0.issued
    decreases |es|
  {
    if es != [] {
      var (w1, r) := Step(cfg, gc, w, es[0]);
      ResponsesAreLogged(cfg, gc, w1, es[1..]);
      var rs := Run(cfg, gc, w1, es[1..]).1;
      assert Run(cfg, gc, w, es).1 == [r] + rs;
      assert r.Tokens? ==> r.issue.access in w1.issued && r.issue.refresh in w1.issued;
      assert forall j | 0 < j < |es| :: ([r] + rs)[j] == rs[j - 1];
    }
  }

  // Every issued token carries the scopes of an approval.
  lemma IssuedIsApproved(cfg: Config, gc: bool, now: int, es: seq<Event>, c: Claims) returns (a: Approval)
    requires cfg.clientID != "" && c in Run(cfg, gc, Start(cfg, now), es).0.issued
    ensures
      var w := Run(cfg, gc, Start(cfg, now), es).0;
      && a in w.approvals && ApprovalSound(cfg, w.registered, a)
      && c.clientID == a.request.clientID && c.subject == cfg.principal
      && ParseScopes(c.scope) == a.request.scopes
  {
    var w := Run(cfg, gc, Start(cfg, now), es).0;
    StartIsSound(cfg, now);
    RunKeepsInvariant(cfg, gc, Start(cfg, now), es);
    assert TokenApproved(cfg, w.approvals, c);
    a :| a in w.approvals && a.request.clientID == c.clientID && JoinScopes(a.request.scopes) == c.scope;
    assert ApprovalSound(cfg, w.registered, a);
    JoinThenParse(a.request.scopes);
  }

  // A bearer token gives exactly the approved scopes and the principal's
  // connections: never more than the principal itself may do.
  lemma BearerGivesNoMore(cfg: Config, w: World, credential: Credential)
    returns (base: Principal, a: Approval)
    requires Invariant(cfg, w) && Possible(cfg, w, Bearer(credential))
    requires Authenticate(cfg, credential, w.now).Some?
    ensures
      var p := Authenticate(cfg, credential, w.now).value;
      && FindPrincipal(cfg.principals, cfg.principal) == Some(base) && a in w.approvals
      && p.name == base.name && p.connections == base.connections
      && p.scopes == (set s | s in a.request.scopes)
      && AtLeast(base, p)
  {
    var c := credential.claims;
    var p := Authenticate(cfg, credential, w.now).value;
    base := FindPrincipal(cfg.principals, cfg.principal).value;
    a :| a in w.approvals && a.request.clientID == c.clientID && JoinScopes(a.request.scopes) == c.scope;
    assert ApprovalSound(cfg, w.registered, a);
    JoinThenParse(a.request.scopes);
    ScopesGiveNoMore(a.request.scopes, base, p);
  }

  lemma ScopesGiveNoMore(scopes: seq<string>, base: Principal, p: Principal)
    requires ScopesValid(scopes, base) && p.scopes == (set s | s in scopes) && p.connections == base.connections
    ensures AtLeast(base, p)
  {
    forall scope | p.HasScope(scope)
      ensures base.HasScope(scope)
    {
      var s := if "admin" in p.scopes then "admin" else ToLower(scope);
      assert s in scopes;
      var i :| 0 <= i < |scopes| && scopes[i] == s;
      assert ToLower(ToLower(scope)) == ToLower(scope);
      assert ToLower("admin") == "admin";
    }
  }

  // ------------------------------------------------------- codes, used once

  function Held(p: Pending): Option<string> {
    match p
    case ToFinish(_, form, Some(_)) => Some(Trim(form.code))
    case _ => None
  }

  // Every code is in one place only: not yet taken, taken by one request, or
  // redeemed.
  predicate Exclusive(w: World) {
    && (forall v | v in w.codes :: v in w.minted && v !in w.redeemed)
    && (forall v | v in w.redeemed :: v in w.minted)
    && NoRepeats(w.redeemed)
    && (forall rid | rid in w.pending && Held(w.pending[rid]).Some? ::
          var v := Held(w.pending[rid]).value; v in w.minted && v !in w.codes && v !in w.redeemed)
    && (forall r, s | r in w.pending && s in w.pending && r != s && Held(w.pending[r]).Some? ::
          Held(w.pending[r]) != Held(w.pending[s]))
  }

  // A step that neither mints, takes nor redeems a code.
  predicate Quiet(w: World, w1: World) {
    && w1.codes.Keys <= w.codes.Keys && w1.minted == w.minted && w1.redeemed == w.redeemed
    && forall rid | rid in w1.pending && Held(w1.pending[rid]).Some? ::
         rid in w.pending && Held(w.pending[rid]) == Held(w1.pending[rid])
  }

  lemma OtherStepsAreQuiet(cfg: Config, gc: bool, w: World, e: Event)
    requires !e.MintCode? && !e.TakeCode? && !e.FinishCode?
    ensures Quiet(w, Step(cfg, gc, w, e).0)
  {
    if e.Authorize? || e.AskToken? {
      AskingIsQuiet(cfg, gc, w, e);
    } else if e.FinishRefresh? {
      RefreshingIsQuiet(cfg, gc, w, e);
    }
  }

  lemma AskingIsQuiet(cfg: Config, gc: bool, w: World, e: Event)
    requires e.Authorize? || e.AskToken?
    ensures Quiet(w, Step(cfg, gc, w, e).0)
  {
    var w1 := Step(cfg, gc, w, e).0;
    assert w1 != w ==> w1.pending == w.pending[e.rid := w1.pending[e.rid]] && Held(w1.pending[e.rid]).None?;
  }

  lemma RefreshingIsQuiet(cfg: Config, gc: bool, w: World, e: Event)
    requires e.FinishRefresh?
    ensures Quiet(w, Step(cfg, gc, w, e).0)
  {
    var w1 := Step(cfg, gc, w, e).0;
    assert w1 != w ==> w1.pending == w.pending - {e.rid};
  }

  lemma QuietKeepsExclusive(w: World, w1: World)
    requires Exclusive(w) && Quiet(w, w1)
    ensures Exclusive(w1)
  {
  }

  lemma MintingKeepsExclusive(cfg: Config, gc: bool, w: World, rid: nat, code: string)
    requires Exclusive(w) && Possible(cfg, w, MintCode(rid, code))
    ensures Exclusive(Step(cfg, gc, w, MintCode(rid, code)).0)
  {
    var w1 := Step(cfg, gc, w, MintCode(rid, code)).0;
    assert w1.codes.Keys <= w.codes.Keys + {code};
  }

  lemma TakingKeepsExclusive(cfg: Config, gc: bool, w: World, rid: nat)
    requires Exclusive(w) && Possible(cfg, w, TakeCode(rid))
    ensures Exclusive(Step(cfg, gc, w, TakeCode(rid)).0)
  {
    var w1 := Step(cfg, gc, w, TakeCode(rid)).0;
    var value := Trim(w.pending[rid].form.code);
    assert forall r | r in w1.pending && r != rid :: r in w.pending && w1.pending[r] == w.pending[r];
    assert Held(w1.pending[rid]).Some? ==> Held(w1.pending[rid]) == Some(value) && value in w.codes;
  }

  lemma FinishingKeepsExclusive(cfg: Config, gc: bool, w: World, rid: nat, ids: (string, string))
    requires Exclusive(w) && Possible(cfg, w, FinishCode(rid, ids))
    ensures Exclusive(Step(cfg, gc, w, FinishCode(rid, ids)).0)
  {
    var p := w.pending[rid];
    var w1 := Step(cfg, gc, w, FinishCode(rid, ids)).0;
    assert forall r | r in w1.pending :: r in w.pending && r != rid && w1.pending[r] == w.pending[r];
    if RedeemCode(cfg, p.client, p.form, p.code, w.now, ids).Ok? {
      assert Held(p) == Some(Trim(p.form.code));
      assert w1.redeemed == w.redeemed + [Trim(p.form.code)];
    }
  }

  lemma StepKeepsExclusive(cfg: Config, gc: bool, w: World, e: Event)
    requires Exclusive(w)
    ensures Exclusive(Step(cfg, gc, w, e).0)
  {
    if Possible(cfg, w, e) {
      match e {
        case MintCode(rid, code) => MintingKeepsExclusive(cfg, gc, w, rid, code);
        case TakeCode(rid) => TakingKeepsExclusive(cfg, gc, w, rid);
        case FinishCode(rid, ids) => FinishingKeepsExclusive(cfg, gc, w, rid, ids);
        case _ =>
          OtherStepsAreQuiet(cfg, gc, w, e);
          QuietKeepsExclusive(w, Step(cfg, gc, w, e).0);
      }
    }
  }

  lemma {:induction false} RunKeepsExclusive(cfg: Config, gc: bool, w: World, es: seq<Event>)
    requires Exclusive(w)
    ensures Exclusive(Run(cfg, gc, w, es).0)
    decreases |es|
  {
    if es != [] {
      StepKeepsExclusive(cfg, gc, w, es[0]);
      RunKeepsExclusive(cfg, gc, Step(cfg, gc, w, es[0]).0, es[1..]);
    }
  }

  // v has been minted and taken, and only request rid can still redeem it.
  predicate HeldOnlyBy(w: World, v: string, rid: nat) {
    && v in w.minted && v !in w.codes
    && forall r | r in w.pending && r != rid :: Held(w.pending[r]) != Some(v)
  }

  predicate Spent(w: World, v: string) {
    v in w.minted && v !in w.codes && forall r | r in w.pending :: Held(w.pending[r]) != Some(v)
  }

  lemma TakingLeavesOneHolder(cfg: Config, gc: bool, w: World, rid: nat)
    requires Exclusive(w) && Possible(cfg, w, TakeCode(rid))
    requires Trim(w.pending[rid].form.code) in w.codes
    ensures HeldOnlyBy(Step(cfg, gc, w, TakeCode(rid)).0, Trim(w.pending[rid].form.code), rid)
  {
  }

  lemma HolderStays(cfg: Config, gc: bool, w: World, v: string, rid: nat, e: Event)
    requires HeldOnlyBy(w, v, rid)
    ensures HeldOnlyBy(Step(cfg, gc, w, e).0, v, rid)
    ensures Spent(w, v) ==> Spent(Step(cfg, gc, w, e).0, v)
    ensures Spent(w, v) ==> multiset(Step(cfg, gc, w, e).0.redeemed)[v] == multiset(w.redeemed)[v]
  {
    if Possible(cfg, w, e) {
      var w1 := Step(cfg, gc, w, e).0;
      match e {
        case MintCode(_, code) =>
          assert w1.codes.Keys <= w.codes.Keys + {code};
        case TakeCode(r) =>
          assert forall q | q in w1.pending && q != r :: q in w.pending && w1.pending[q] == w.pending[q];
        case FinishCode(_, _) => HolderFinishes(cfg, gc, w, v, rid, e);
        case _ => OtherStepsAreQuiet(cfg, gc, w, e);
      }
    }
  }

  lemma HolderFinishes(cfg: Config, gc: bool, w: World, v: string, rid: nat, e: Event)
    requires HeldOnlyBy(w, v, rid) && e.FinishCode? && Possible(cfg, w, e)
    ensures HeldOnlyBy(Step(cfg, gc, w, e).0, v, rid)
    ensures Spent(w, v) ==> Spent(Step(cfg, gc, w, e).0, v)
    ensures Spent(w, v) ==> multiset(Step(cfg, gc, w, e).0.redeemed)[v] == multiset(w.redeemed)[v]
  {
    var w1, p := Step(cfg, gc, w, e).0, w.pending[e.rid];
    assert forall q | q in w1.pending :: q in w.pending && w1.pending[q] == w.pending[q];
    assert RedeemCode(cfg, p.client, p.form, p.code, w.now, e.ids).Ok? ==> Held(p) == Some(Trim(p.form.code));
  }

  lemma {:induction false} HolderStaysInRun(cfg: Config, gc: bool, w: World, v: string, rid: nat, es: seq<Event>)
    requires HeldOnlyBy(w, v, rid)
    ensures HeldOnlyBy(Run(cfg, gc, w, es).0, v, rid)
    ensures Spent(w, v) ==> Spent(Run(cfg, gc, w, es).0, v)
    ensures Spent(w, v) ==> multiset(Run(cfg, gc, w, es).0.redeemed)[v] == multiset(w.redeemed)[v]
    decreases |es|
  {
    if es != [] {
      HolderStays(cfg, gc, w, v, rid, es[0]);
      HolderStaysInRun(cfg, gc, Step(cfg, gc, w, es[0]).0, v, rid, es[1..]);
    }
  }

  lemma FinishingSpends(cfg: Config, gc: bool, w: World, v: string, rid: nat, ids: (string, string))
    requires HeldOnlyBy(w, v, rid) && Possible(cfg, w, FinishCode(rid, ids))
    ensures Spent(Step(cfg, gc, w, FinishCode(rid, ids)).0, v)
  {
  }

  lemma {:induction false} CountedOnce(xs: seq<string>, v: string)
    requires NoRepeats(xs)
    ensures multiset(xs)[v] <= 1
  {
    if xs != [] {
      var init := xs[..|xs| - 1];
      CountedOnce(init, v);
      assert xs == init + [xs[|xs| - 1]];
    }
  }

  // How many token responses a run gives for code v.
  function Redemptions(cfg: Config, gc: bool, w: World, es: seq<Event>, v: string): nat
    decreases |es|
  {
    if es == [] then 0
    else
      var (w1, r) := Step(cfg, gc, w, es[0]);
      var here := es[0].FinishCode? && r.Tokens? && es[0].rid in w.pending && w.pending[es[0].rid].ToFinish?
                  && Trim(w.pending[es[0].rid].form.code) == v;
      (if here then 1 else 0) + Redemptions(cfg, gc, w1, es[1..], v)
  }

  lemma StepLogsRedemption(cfg: Config, gc: bool, w: World, e: Event, v: string)
    ensures multiset(Step(cfg, gc, w, e).0.redeemed)[v] == multiset(w.redeemed)[v] + Redemptions(cfg, gc, w, [e], v)
  {
    assert [e][1..] == [];
    assert Redemptions(cfg, gc, Step(cfg, gc, w, e).0, [], v) == 0;
    if !e.FinishCode? && !e.TakeCode? && !e.MintCode? {
      OtherStepsAreQuiet(cfg, gc, w, e);
    }
  }

  lemma {:induction false} RedemptionsAreLogged(cfg: Config, gc: bool, w: World, es: seq<Event>, v: string)
    ensures multiset(Run(cfg, gc, w, es).0.redeemed)[v] == multiset(w.redeemed)[v] + Redemptions(cfg, gc, w, es, v)
    decreases |es|
  {
    if es != [] {
      var w1 := Step(cfg, gc, w, es[0]).0;
      StepLogsRedemption(cfg, gc, w, es[0], v);
      assert [es[0]][1..] == [] && Redemptions(cfg, gc, w1, [], v) == 0;
      RedemptionsAreLogged(cfg, gc, w1, es[1..], v);
    }
  }

  // No code yields more than one token response, over all interleavings.
  lemma CodesAreRedeemedOnce(cfg: Config, gc: bool, now: int, es: seq<Event>, v: string)
    ensures Redemptions(cfg, gc, Start(cfg, now), es, v) <= 1
  {
    RunKeepsExclusive(cfg, gc, Start(cfg, now), es);
    CountedOnce(Run(cfg, gc, Start(cfg, now), es).0.redeemed, v);
    RedemptionsAreLogged(cfg, gc, Start(cfg, now), es, v);
  }

  // Presenting a code consumes it, whatever the outcome: request rid takes v,
  // other requests go on in between, rid is answered, and from then on v yields
  // no token response.
  lemma PresentationConsumes(cfg: Config, gc: bool, w: World, rid: nat, between: seq<Event>, ids: (string, string),
                             after: seq<Event>)
    requires Exclusive(w) && Possible(cfg, w, TakeCode(rid))
    requires Trim(w.pending[rid].form.code) in w.codes
    requires Possible(cfg, Run(cfg, gc, Step(cfg, gc, w, TakeCode(rid)).0, between).0, FinishCode(rid, ids))
    ensures
      var w2 := Run(cfg, gc, Step(cfg, gc, w, TakeCode(rid)).0, between).0;
      var w3 := Step(cfg, gc, w2, FinishCode(rid, ids)).0;
      Redemptions(cfg, gc, w3, after, Trim(w.pending[rid].form.code)) == 0
  {
    var v := Trim(w.pending[rid].form.code);
    var w1 := Step(cfg, gc, w, TakeCode(rid)).0;
    var w2 := Run(cfg, gc, w1, between).0;
    var w3 := Step(cfg, gc, w2, FinishCode(rid, ids)).0;
    TakingLeavesOneHolder(cfg, gc, w, rid);
    HolderStaysInRun(cfg, gc, w1, v, rid, between);
    FinishingSpends(cfg, gc, w2, v, rid, ids);
    HolderStaysInRun(cfg, gc, w3, v, rid, after);
    RedemptionsAreLogged(cfg, gc, w3, after, v);
  }

  // A restart forgets every code: none that was minted before it is redeemed after.
  lemma RestartForgetsCodes(cfg: Config, gc: bool, w: World, after: seq<Event>, v: string)
    requires Exclusive(w) && Invariant(cfg, w) && v in w.minted
    ensures Redemptions(cfg, gc, Step(cfg, gc, w, Restart).0, after, v) == 0
  {
    var w1 := Step(cfg, gc, w, Restart).0;
    RestartingIsSound(cfg, gc, w);
    HolderStaysInRun(cfg, gc, w1, v, 0, after);
    RedemptionsAreLogged(cfg, gc, w1, after, v);
  }

  // ------------------------------------------ dropping expired codes unseen

  predicate Dead(code: Option<Code>, now: int) {
    code.None? || Expired(code.value, now)
  }

  // The same request, but for a code that is dead in both.
  predicate SamePending(p: Pending, q: Pending, now: int) {
    p == q ||
    (p.ToFinish? && q.ToFinish? && p.client == q.client && p.form == q.form && Dead(p.code, now) && Dead(q.code, now))
  }

  // Worlds that differ only in codes that have expired.
  predicate SameButExpired(w: World, v: World) {
    && w.(codes := map[], pending := map[]) == v.(codes := map[], pending := map[])
    && (forall x | x in w.codes && !Expired(w.codes[x], w.now) :: x in v.codes && v.codes[x] == w.codes[x])
    && (forall x | x in v.codes && !Expired(v.codes[x], w.now) :: x in w.codes && w.codes[x] == v.codes[x])
    && w.pending.Keys == v.pending.Keys
    && (forall rid | rid in w.pending :: SamePending(w.pending[rid], v.pending[rid], w.now))
  }

  lemma DeadCodesAnswerAlike(cfg: Config, p: Pending, q: Pending, now: int, ids: (string, string))
    requires SamePending(p, q, now) && p.ToFinish?
    ensures RedeemCode(cfg, p.client, p.form, p.code, now, ids) == RedeemCode(cfg, q.client, q.form, q.code, now, ids)
  {
  }

  // Whether a step is possible does not depend on dead codes.
  lemma SamePossible(cfg: Config, w: World, v: World, e: Event)
    requires SameButExpired(w, v)
    ensures Possible(cfg, w, e) <==> Possible(cfg, v, e)
  {
    match e
    case MintCode(rid, _) => assert rid in w.pending <==> rid in v.pending;
    case TakeCode(rid) => assert rid in w.pending <==> rid in v.pending;
    case FinishCode(rid, _) => assert rid in w.pending <==> rid in v.pending;
    case FinishRefresh(rid, _) => assert rid in w.pending <==> rid in v.pending;
    case _ =>
  }

  lemma SameAfterWaiting(w: World, v: World, ticks: nat)
    requires SameButExpired(w, v)
    ensures SameButExpired(w.(now := w.now + ticks), v.(now := v.now + ticks))
  {
    forall rid | rid in w.pending
      ensures SamePending(w.pending[rid], v.pending[rid], w.now + ticks)
    {
      assert SamePending(w.pending[rid], v.pending[rid], w.now);
    }
  }

  lemma SameAfterAdding(w: World, v: World, rid: nat, p: Pending, q: Pending)
    requires SameButExpired(w, v) && SamePending(p, q, w.now)
    ensures SameButExpired(AddPending(w, rid, p), AddPending(v, rid, q))
  {
  }

  lemma SameAfterEnding(w: World, v: World, rid: nat)
    requires SameButExpired(w, v)
    ensures SameButExpired(Ended(w, rid), Ended(v, rid))
  {
  }

  // A step with cleanup and one without answer alike and stay alike.
  predicate StepsAlike(cfg: Config, w: World, v: World, e: Event) {
    var (w1, x), (v1, y) := Step(cfg, true, w, e), Step(cfg, false, v, e);
    x == y && SameButExpired(w1, v1)
  }

  predicate BothCan(cfg: Config, w: World, v: World, e: Event) {
    SameButExpired(w, v) && Possible(cfg, w, e) && Possible(cfg, v, e)
  }

  lemma SameAfterMinting(cfg: Config, w: World, v: World, e: Event)
    requires BothCan(cfg, w, v, e) && e.MintCode?
    ensures StepsAlike(cfg, w, v, e)
  {
    SameAfterEnding(w, v, e.rid);
    assert SamePending(w.pending[e.rid], v.pending[e.rid], w.now);
  }

  lemma SameAfterTaking(cfg: Config, w: World, v: World, e: Event)
    requires BothCan(cfg, w, v, e) && e.TakeCode?
    ensures StepsAlike(cfg, w, v, e)
  {
    assert SamePending(w.pending[e.rid], v.pending[e.rid], w.now);
    var p := w.pending[e.rid];
    var value := Trim(p.form.code);
    var c, d := Lookup(w.codes, value), Lookup(v.codes, value);
    assert c == d || (Dead(c, w.now) && Dead(d, w.now));
    SameAfterAdding(w, v, e.rid, ToFinish(p.client, p.form, c), ToFinish(p.client, p.form, d));
  }

  lemma SameAnswers(w: World, v: World, rid: nat, codes: seq<string>, r: Result<Issue, Error>)
    requires SameButExpired(w, v)
    ensures
      var (w1, x), (v1, y) := Answered(w, rid, codes, r), Answered(v, rid, codes, r);
      x == y && SameButExpired(w1, v1)
  {
    SameAfterEnding(w, v, rid);
  }

  lemma SameAfterFinishing(cfg: Config, w: World, v: World, e: Event)
    requires BothCan(cfg, w, v, e) && (e.FinishCode? || e.FinishRefresh?)
    ensures StepsAlike(cfg, w, v, e)
  {
    var p, q := w.pending[e.rid], v.pending[e.rid];
    assert SamePending(p, q, w.now);
    if e.FinishCode? {
      DeadCodesAnswerAlike(cfg, p, q, w.now, e.ids);
      SameAnswers(w, v, e.rid, [Trim(p.form.code)], RedeemCode(cfg, p.client, p.form, p.code, w.now, e.ids));
    } else {
      SameAnswers(w, v, e.rid, [], RedeemRefresh(cfg, p.client, p.form, w.now, e.ids));
    }
  }

  lemma SameAfterRegistering(cfg: Config, w: World, v: World, client: Client, order: seq<string>, saves: bool)
    requires SameButExpired(w, v) && forall k | k in order :: k in w.clients || k == client.id
    ensures
      var (w1, x), (v1, y) := AfterRegister(cfg, w, client, order, saves), AfterRegister(cfg, v, client, order, saves);
      x == y && SameButExpired(w1, v1)
  {
    assert w.clients == v.clients;
  }

  lemma SameAfterAuthorizing(cfg: Config, w: World, v: World, e: Event)
    requires BothCan(cfg, w, v, e) && e.Authorize?
    ensures StepsAlike(cfg, w, v, e)
  {
    assert w.clients == v.clients;
    if Approve(cfg, w.clients, e.aform).Ok? {
      var p := ToMint(Approve(cfg, w.clients, e.aform).value);
      SameAfterAdding(w, v, e.rid, p, p);
    }
  }

  lemma SameAsked(cfg: Config, w: World, v: World, rid: nat, form: TokenForm)
    requires SameButExpired(w, v)
    ensures
      var (w1, x), (v1, y) := Asked(cfg, w, rid, form), Asked(cfg, v, rid, form);
      x == y && SameButExpired(w1, v1)
  {
    assert w.clients == v.clients;
    if TokenClient(cfg, w.clients, form).Ok? {
      var client := TokenClient(cfg, w.clients, form).value;
      SameAfterAdding(w, v, rid, ToTake(client, form), ToTake(client, form));
      SameAfterAdding(w, v, rid, ToRefresh(client, form), ToRefresh(client, form));
    }
  }

  // The other steps do not look at codes.
  lemma SameAfterOthers(cfg: Config, w: World, v: World, e: Event)
    requires BothCan(cfg, w, v, e) && (e.Register? || e.AskToken? || e.Bearer? || e.Restart?)
    ensures StepsAlike(cfg, w, v, e)
  {
    assert w.clients == v.clients && w.now == v.now && w.file == v.file;
    if e.Register? {
      var r := NewClient(cfg, e.input, e.id, w.now);
      if r.Ok? {
        SameAfterRegistering(cfg, w, v, r.value, e.order, e.saves);
      }
    } else if e.AskToken? {
      SameAsked(cfg, w, v, e.rid, e.tform);
    }
  }

  lemma SameAfterStep(cfg: Config, w: World, v: World, e: Event)
    requires SameButExpired(w, v)
    ensures StepsAlike(cfg, w, v, e)
  {
    SamePossible(cfg, w, v, e);
    if Possible(cfg, w, e) {
      SameWherePossible(cfg, w, v, e);
    }
  }

  lemma SameWherePossible(cfg: Config, w: World, v: World, e: Event)
    requires BothCan(cfg, w, v, e)
    ensures StepsAlike(cfg, w, v, e)
  {
    if e.Wait? {
      SameAfterWait(cfg, w, v, e);
    } else if e.Authorize? {
      SameAfterAuthorizing(cfg, w, v, e);
    } else if e.Register? || e.AskToken? || e.Bearer? || e.Restart? {
      SameAfterOthers(cfg, w, v, e);
    } else {
      SameAfterLocked(cfg, w, v, e);
    }
  }

  lemma SameAfterWait(cfg: Config, w: World, v: World, e: Event)
    requires BothCan(cfg, w, v, e) && e.Wait?
    ensures StepsAlike(cfg, w, v, e)
  {
    SameAfterWaiting(w, v, e.ticks);
  }

  lemma SameAfterLocked(cfg: Config, w: World, v: World, e: Event)
    requires BothCan(cfg, w, v, e) && (e.MintCode? || e.TakeCode? || e.FinishCode? || e.FinishRefresh?)
    ensures StepsAlike(cfg, w, v, e)
  {
    if e.MintCode? {
      SameAfterMinting(cfg, w, v, e);
    } else if e.TakeCode? {
      SameAfterTaking(cfg, w, v, e);
    } else {
      SameAfterFinishing(cfg, w, v, e);
    }
  }

  lemma {:induction false} SameAfterRun(cfg: Config, w: World, v: World, es: seq<Event>)
    requires SameButExpired(w, v)
    ensures Run(cfg, true, w, es).1 == Run(cfg, false, v, es).1
    decreases |es|
  {
    if es != [] {
      SameAfterStep(cfg, w, v, es[0]);
      SameAfterRun(cfg, Step(cfg, true, w, es[0]).0, Step(cfg, false, v, es[0]).0, es[1..]);
    }
  }

  // Dropping expired codes is unobservable: a provider that does it whenever it
  // mints a code and one that never does it answer every run alike.
  lemma CleanupIsUnobservable(cfg: Config, now: int, es: seq<Event>)
    ensures Run(cfg, true, Start(cfg, now), es).1 == Run(cfg, false, Start(cfg, now), es).1
  {
    SameAfterRun(cfg, Start(cfg, now), Start(cfg, now), es);
  }

  // --------------------------------------------------- clients after a restart

  lemma {:induction false} LoadedSaved(clients: Clients, order: seq<string>)
    requires forall k | k in order :: k in clients && clients[k].id == k && k != "" && clients[k].authMethod == "none"
    requires NoRepeats(order)
    ensures Loaded(Saved(clients, order)) == Some(map k | k in order :: clients[k])
  {
    if order == [] {
      assert Saved(clients, order) == [];
    } else {
      var init := order[..|order| - 1];
      var file := Saved(clients, order);
      assert file[..|file| - 1] == Saved(clients, init);
      LoadedSaved(clients, init);
      var last := order[|order| - 1];
      assert order == init + [last];
      assert file[|file| - 1] == clients[last];
      MapLast(clients, init, last);
    }
  }

  lemma MapLast(clients: Clients, init: seq<string>, last: string)
    requires forall k | k in init + [last] :: k in clients
    ensures (map k | k in init :: clients[k])[last := clients[last]] == map k | k in init + [last] :: clients[k]
  {
  }

  lemma SavedIsRebuilt(cfg: Config, clients: Clients, order: seq<string>)
    requires cfg.hasStore && Enumerates(order, clients.Keys, cfg.clientID)
    requires forall k | k in clients :: clients[k].id == k && k != "" && clients[k].authMethod == "none"
    requires cfg.clientID in clients && clients[cfg.clientID] == ConfiguredClient(cfg)
    ensures Rebuilt(cfg, Some(Saved(clients, order))) == Some(clients)
  {
    LoadedSaved(clients, order);
    var loaded := map k | k in order :: clients[k];
    assert loaded[cfg.clientID := ConfiguredClient(cfg)] == clients;
  }

  // A registration that succeeds with a client file is not lost: a provider
  // rebuilt from the file, in whatever order it was written, starts without
  // error and has exactly the clients of the running one.
  lemma RegistrationSurvivesRestart(cfg: Config, gc: bool, w: World, e: Event)
    requires Invariant(cfg, w) && e.Register? && cfg.hasStore
    requires Step(cfg, gc, w, e).1.Created?
    ensures Rebuilt(cfg, Step(cfg, gc, w, e).0.file) == Some(Step(cfg, gc, w, e).0.clients)
  {
    var w1 := Step(cfg, gc, w, e).0;
    StepKeepsInvariant(cfg, gc, w, e);
    assert ClientsSound(cfg, w1);
    var client := NewClient(cfg, e.input, e.id, w.now).value;
    assert w1.clients == w.clients[client.id := client];
    assert w1.clients.Keys == w.clients.Keys + {"mcp_" + e.id};
    SavedIsRebuilt(cfg, w1.clients, e.order);
  }
}
