/** Where every token of a run comes from. */
module OAuthTraces {
  import opened Outcomes
  import opened Text
  import opened Scopes
  import opened Authn
  import opened OAuth
  import opened OAuthRuns
  import opened OAuthRequests
  import opened OAuthLaws
  import opened OAuthGrants

  // The world before event i of a run.
  function WorldAt(cfg: Config, gc: bool, now: int, es: seq<Event>, i: nat): World
    requires i <= |es|
  {
    Run(cfg, gc, Start(cfg, now), es[..i]).0
  }

  // What event i of a run is answered.
  function ResponseAt(cfg: Config, gc: bool, now: int, es: seq<Event>, i: nat): Response
    requires i < |es|
  {
    Step(cfg, gc, WorldAt(cfg, gc, now, es, i), es[i]).1
  }

  predicate Gives(r: Response, c: Claims) {
    r.Tokens? && (c == r.issue.access || c == r.issue.refresh)
  }

  // e redeems a code of the request that a approved: its own client shows it,
  // within its lifetime, with the verifier of the approved challenge and with no
  // other redirect URI than the approved one.
  predicate Redeems(w: World, e: Event, a: Approval) {
    && e.FinishCode? && e.rid in w.pending && w.pending[e.rid].ToFinish?
    && var p := w.pending[e.rid];
       && p.code.Some? && RequestOf(p.code.value) == a.request
       && w.now <= p.code.value.expiresAt && p.client.id == a.request.clientID
       && (Trim(p.form.redirectURI) == "" || Trim(p.form.redirectURI) == a.request.redirectURI)
       && Trim(p.form.verifier) != "" && Digest(Trim(p.form.verifier)) == a.request.challenge
  }

  // ------------------------------------------------------------------- runs

  // A run goes through the worlds before its events.
  lemma {:induction false} RunLast(cfg: Config, gc: bool, w: World, es: seq<Event>, i: nat)
    requires i < |es|
    ensures Run(cfg, gc, w, es[..i + 1]).0 == Step(cfg, gc, Run(cfg, gc, w, es[..i]).0, es[i]).0
    ensures |Run(cfg, gc, w, es).1| == |es|
    ensures Run(cfg, gc, w, es).1[i] == Step(cfg, gc, Run(cfg, gc, w, es[..i]).0, es[i]).1
    decreases i
  {
    ResponsesAreLogged(cfg, gc, w, es);
    var (w1, r) := Step(cfg, gc, w, es[0]);
    var rest := es[1..];
    assert Run(cfg, gc, w, es).1 == [r] + Run(cfg, gc, w1, rest).1;
    RunFirst(cfg, gc, w, es, i + 1);
    if i == 0 {
      assert es[..0] == [] && rest[..0] == [];
    } else {
      RunFirst(cfg, gc, w, es, i);
      RunLast(cfg, gc, w1, rest, i - 1);
    }
  }

  lemma NextWorld(cfg: Config, gc: bool, now: int, es: seq<Event>, i: nat)
    requires i < |es|
    ensures WorldAt(cfg, gc, now, es, i + 1) == Step(cfg, gc, WorldAt(cfg, gc, now, es, i), es[i]).0
    ensures |Run(cfg, gc, Start(cfg, now), es).1| == |es|
    ensures Run(cfg, gc, Start(cfg, now), es).1[i] == ResponseAt(cfg, gc, now, es, i)
  {
    RunLast(cfg, gc, Start(cfg, now), es, i);
  }

  lemma WorldIsSound(cfg: Config, gc: bool, now: int, es: seq<Event>, i: nat)
    requires cfg.clientID != "" && i <= |es|
    ensures Invariant(cfg, WorldAt(cfg, gc, now, es, i))
  {
    StartIsSound(cfg, now);
    RunKeepsInvariant(cfg, gc, Start(cfg, now), es[..i]);
  }

  lemma StepKeepsApprovals(cfg: Config, gc: bool, w: World, e: Event, a: Approval)
    requires a in w.approvals
    ensures a in Step(cfg, gc, w, e).0.approvals
  {
  }

  lemma {:induction false} ApprovalsStay(cfg: Config, gc: bool, now: int, es: seq<Event>, i: nat, j: nat, a: Approval)
    requires i <= j <= |es| && a in WorldAt(cfg, gc, now, es, i).approvals
    ensures a in WorldAt(cfg, gc, now, es, j).approvals
    decreases j
  {
    if i < j {
      ApprovalsStay(cfg, gc, now, es, i, j - 1, a);
      NextWorld(cfg, gc, now, es, j - 1);
      StepKeepsApprovals(cfg, gc, WorldAt(cfg, gc, now, es, j - 1), es[j - 1], a);
    }
  }

  lemma OnlyGrantsIssue(cfg: Config, gc: bool, w: World, e: Event, c: Claims)
    requires c in Step(cfg, gc, w, e).0.issued && c !in w.issued
    ensures Gives(Step(cfg, gc, w, e).1, c)
  {
    assert e.FinishCode? || e.FinishRefresh?;
  }

  // Every token that is out was given in an earlier response.
  lemma {:induction false} IssuedWasGiven(cfg: Config, gc: bool, now: int, es: seq<Event>, j: nat, c: Claims)
    returns (k: nat)
    requires j <= |es| && c in WorldAt(cfg, gc, now, es, j).issued
    ensures k < j && Gives(ResponseAt(cfg, gc, now, es, k), c)
    decreases j
  {
    NothingAtStart(cfg, gc, now, es);
    k := j - 1;
    NextWorld(cfg, gc, now, es, k);
    if c in WorldAt(cfg, gc, now, es, k).issued {
      k := IssuedWasGiven(cfg, gc, now, es, k, c);
    } else {
      OnlyGrantsIssue(cfg, gc, WorldAt(cfg, gc, now, es, k), es[k], c);
    }
  }

  lemma NothingAtStart(cfg: Config, gc: bool, now: int, es: seq<Event>)
    ensures WorldAt(cfg, gc, now, es, 0).issued == {}
  {
    assert es[..0] == [];
  }

  // ---------------------------------------------------------------- tokens

  lemma GivenIsGrant(cfg: Config, gc: bool, w: World, e: Event, c: Claims)
    requires Gives(Step(cfg, gc, w, e).1, c)
    ensures (e.FinishCode? || e.FinishRefresh?) && Possible(cfg, w, e)
  {
  }

  // A token given for a code: the request that was redeemed was approved.
  lemma GivenForCode(cfg: Config, gc: bool, w: World, e: Event, c: Claims) returns (a: Approval)
    requires Invariant(cfg, w) && e.FinishCode? && Possible(cfg, w, e) && Gives(Step(cfg, gc, w, e).1, c)
    ensures a in w.approvals && Redeems(w, e, a)
    ensures c.clientID == a.request.clientID && c.scope == JoinScopes(a.request.scopes)
  {
    var p := w.pending[e.rid];
    CodeGrantIsExact(cfg, gc, w, e.rid, e.ids);
    a :| a in w.approvals && a.request == RequestOf(p.code.value);
  }

  // A token given for a refresh token repeats the client and the scope of that one.
  lemma GivenForRefresh(cfg: Config, gc: bool, w: World, e: Event, c: Claims) returns (c0: Claims)
    requires Invariant(cfg, w) && e.FinishRefresh? && Possible(cfg, w, e) && Gives(Step(cfg, gc, w, e).1, c)
    ensures c0 in w.issued && c0.clientID == c.clientID && c0.scope == c.scope
  {
    var p := w.pending[e.rid];
    c0 := p.form.credential.claims;
    RefreshIsExact(cfg, w, p.client, p.form, e.ids);
  }

  lemma ApprovalTraces(cfg: Config, gc: bool, now: int, es: seq<Event>, j: nat, a: Approval) returns (i: nat)
    requires j <= |es| && a in WorldAt(cfg, gc, now, es, j).approvals
    ensures i < j && SignsIn(cfg, WorldAt(cfg, gc, now, es, i), es[i], a)
  {
    i := ApprovalsAreSignIns(cfg, gc, Start(cfg, now), es[..j], a);
    assert es[..j][..i] == es[..i];
  }

  lemma {:induction false} TokenTraces(cfg: Config, gc: bool, now: int, es: seq<Event>, j: nat, c: Claims)
    returns (a: Approval, i: nat, k: nat)
    requires cfg.clientID != "" && j < |es| && Gives(ResponseAt(cfg, gc, now, es, j), c)
    ensures i < k <= j
    ensures SignsIn(cfg, WorldAt(cfg, gc, now, es, i), es[i], a)
    ensures Redeems(WorldAt(cfg, gc, now, es, k), es[k], a)
    ensures c.clientID == a.request.clientID && c.scope == JoinScopes(a.request.scopes)
    decreases j
  {
    var w, e := WorldAt(cfg, gc, now, es, j), es[j];
    WorldIsSound(cfg, gc, now, es, j);
    GivenIsGrant(cfg, gc, w, e, c);
    if e.FinishCode? {
      a := GivenForCode(cfg, gc, w, e, c);
      i := ApprovalTraces(cfg, gc, now, es, j, a);
      k := j;
    } else {
      var c0 := GivenForRefresh(cfg, gc, w, e, c);
      var j0 := IssuedWasGiven(cfg, gc, now, es, j, c0);
      a, i, k := TokenTraces(cfg, gc, now, es, j0, c0);
    }
  }

  // In every run, whatever the interleaving, every token of a token response,
  // given for a code or after any number of refreshes and restarts, traces back:
  // to an earlier or the same event, which redeems a code with the verifier of
  // its challenge, and from there to an earlier one, the sign-in in which the
  // user approved that very request. The token has its client, the principal
  // and its scopes: those that the sign-in named, or the default ones. They lie
  // within the principal's and the client's, and the redirect URI is one that the
  // client registered.
  lemma EveryTokenTracesToASignIn(cfg: Config, gc: bool, now: int, es: seq<Event>, j: nat, c: Claims)
    returns (a: Approval, i: nat, k: nat)
    requires cfg.clientID != "" && j < |Run(cfg, gc, Start(cfg, now), es).1|
    requires Gives(Run(cfg, gc, Start(cfg, now), es).1[j], c)
    ensures i < k <= j < |es|
    ensures SignsIn(cfg, WorldAt(cfg, gc, now, es, i), es[i], a)
    ensures Redeems(WorldAt(cfg, gc, now, es, k), es[k], a)
    ensures
      var w := Run(cfg, gc, Start(cfg, now), es).0;
      && c.clientID == a.request.clientID && c.subject == cfg.principal
      && ParseScopes(c.scope) == a.request.scopes
      && FindPrincipal(cfg.principals, cfg.principal).Some?
      && ScopesValid(a.request.scopes, FindPrincipal(cfg.principals, cfg.principal).value)
      && c.clientID in w.registered && w.registered[c.clientID] == a.client
      && (a.client.scopes != [] ==> forall s | s in a.request.scopes :: s in a.client.scopes)
      && a.request.redirectURI in a.client.redirectURIs
    ensures IsFor(cfg, es[i].aform.scope, ParseScopes(c.scope))
  {
    GivenIsIssued(cfg, gc, now, es, j, c);
    a, i, k := TokenTraces(cfg, gc, now, es, j, c);
    SignedInStays(cfg, gc, now, es, i, a);
    TracedIsSound(cfg, Run(cfg, gc, Start(cfg, now), es).0, a, c);
    SignedInFor(cfg, WorldAt(cfg, gc, now, es, i), es[i], a);
  }

  lemma GivenIsIssued(cfg: Config, gc: bool, now: int, es: seq<Event>, j: nat, c: Claims)
    requires cfg.clientID != "" && j < |Run(cfg, gc, Start(cfg, now), es).1|
    requires Gives(Run(cfg, gc, Start(cfg, now), es).1[j], c)
    ensures j < |es| && Gives(ResponseAt(cfg, gc, now, es, j), c)
    ensures
      var w := Run(cfg, gc, Start(cfg, now), es).0;
      c in w.issued && Invariant(cfg, w)
  {
    ResponsesAreLogged(cfg, gc, Start(cfg, now), es);
    NextWorld(cfg, gc, now, es, j);
    assert es[..|es|] == es;
    WorldIsSound(cfg, gc, now, es, |es|);
  }

  lemma SignedInStays(cfg: Config, gc: bool, now: int, es: seq<Event>, i: nat, a: Approval)
    requires i < |es| && SignsIn(cfg, WorldAt(cfg, gc, now, es, i), es[i], a)
    ensures a in Run(cfg, gc, Start(cfg, now), es).0.approvals
  {
    SigningInApproves(cfg, gc, WorldAt(cfg, gc, now, es, i), es[i], a);
    NextWorld(cfg, gc, now, es, i);
    ApprovalsStay(cfg, gc, now, es, i + 1, |es|, a);
    assert es[..|es|] == es;
  }

  lemma SigningInApproves(cfg: Config, gc: bool, w: World, e: Event, a: Approval)
    requires SignsIn(cfg, w, e, a)
    ensures a in Step(cfg, gc, w, e).0.approvals
  {
    ApprovalIsExact(cfg, w.clients, e.aform, a.request);
  }

  lemma SignedInFor(cfg: Config, w: World, e: Event, a: Approval)
    requires SignsIn(cfg, w, e, a)
    ensures IsFor(cfg, e.aform.scope, a.request.scopes)
  {
  }

  lemma TracedIsSound(cfg: Config, w: World, a: Approval, c: Claims)
    requires Invariant(cfg, w) && a in w.approvals && c in w.issued
    requires c.clientID == a.request.clientID && c.scope == JoinScopes(a.request.scopes)
    ensures
      && c.subject == cfg.principal && ParseScopes(c.scope) == a.request.scopes
      && FindPrincipal(cfg.principals, cfg.principal).Some?
      && ScopesValid(a.request.scopes, FindPrincipal(cfg.principals, cfg.principal).value)
      && c.clientID in w.registered && w.registered[c.clientID] == a.client
      && (a.client.scopes != [] ==> forall s | s in a.request.scopes :: s in a.client.scopes)
      && a.request.redirectURI in a.client.redirectURIs
  {
    assert ApprovalSound(cfg, w.registered, a);
    assert TokenApproved(cfg, w.approvals, c);
    JoinThenParse(a.request.scopes);
  }
}
