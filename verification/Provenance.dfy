/** Where everything comes from: for each code, access token and refresh token of a run,
    the step that made it and what that step put into it. */
module Provenance {
  import opened Prelude
  import opened Scopes
  import opened RefreshStore
  import opened AuthCodes
  import opened SigningKeys
  import opened World
  import opened Families
  import opened FamilyTheorems
  import opened LineageTheorems

  /** The scopes a request asks for: openid and profile when it names none. */
  function Requested(r: AuthorizeRequest): seq<Scope> {
    if r.scope.Some? then r.scope.value else ["openid", "profile"]
  }

  /** The row says what was asked for, for 60 s. */
  ghost predicate Answers(row: CodeRow, r: AuthorizeRequest, f: FamilyId, now: nat) {
    && r.user.Some? && r.challenge.Some?
    && row.client == r.client && row.user == r.user.value && row.redirect == r.redirect
    && row.challenge == r.challenge.value && row.scopes == Requested(r)
    && row.expiresAt == now + 60_000 && row.family == f && !row.used
  }

  /** A code minted for a request answers it, and no other row changes. */
  lemma MintedCodeAnswers(w: World, r: AuthorizeRequest, c: CodeId, f: FamilyId)
    requires Authorize(w, r, c, f).Some?
    ensures var w' := Authorize(w, r, c, f).value;
            && c in w'.grants.codes && Answers(w'.grants.codes[c], r, f, w.now)
            && w'.grants.codes == w.grants.codes[c := w'.grants.codes[c]]
            && w'.grants.codeLog.minted == w.grants.codeLog.minted[c := w'.grants.codes[c]]
            && w' == w.(grants := w.grants.(codes := w'.grants.codes,
                                            codeLog := w.grants.codeLog.(minted := w'.grants.codeLog.minted)))
  {
  }

  // ----- codes -----

  /** This step minted the code, at w. */
  ghost predicate MintedHere(w: World, s: Step, c: CodeId, row: CodeRow) {
    s.DoAuthorize? && s.code == c && Answers(row, s.areq, s.family, w.now)
  }

  lemma MintStep(w: World, s: Step, c: CodeId)
    requires Enabled(w, s)
    ensures var before, after := w.grants.codeLog.minted, Apply(w, s).grants.codeLog.minted;
            && (c in before ==> c in after && after[c] == before[c])
            && (c in after && c !in before ==> MintedHere(w, s, c, after[c]))
  {
    match s
    case DoAuthorize(r, k, f) =>
      if Authorize(w, r, k, f).Some? {
        MintedCodeAnswers(w, r, k, f);
      }
    case DoExchange(r, d) => ExchangeCases(w, r, d);
    case DoRefresh(r, d) => RefreshCases(w, r, d);
    case _ =>
      assert Apply(w, s).grants.codeLog.minted == w.grants.codeLog.minted;
  }

  /** Some step of the run, taken at wi, minted the code. */
  ghost predicate MintedAt(a: World, steps: seq<Step>, i: nat, wi: World, c: CodeId, row: CodeRow) {
    i < |steps| && Run(a, steps[..i], wi) && MintedHere(wi, steps[i], c, row)
  }

  lemma Prefixed(a: World, steps: seq<Step>, i: nat, wi: World)
    requires 0 < i <= |steps| && Enabled(a, steps[0]) && Run(Apply(a, steps[0]), steps[1..][..i - 1], wi)
    ensures Run(a, steps[..i], wi)
  {
    assert steps[..i][0] == steps[0] && steps[..i][1..] == steps[1..][..i - 1];
  }

  lemma {:induction false} MintedStays(a: World, steps: seq<Step>, b: World, c: CodeId)
    requires Run(a, steps, b) && c in a.grants.codeLog.minted
    ensures c in b.grants.codeLog.minted && b.grants.codeLog.minted[c] == a.grants.codeLog.minted[c]
    decreases |steps|
  {
    if steps != [] {
      MintStep(a, steps[0], c);
      MintedStays(Apply(a, steps[0]), steps[1..], b, c);
    }
  }

  lemma {:induction false} MintedBy(a: World, steps: seq<Step>, b: World, c: CodeId) returns (i: nat, wi: World)
    requires Run(a, steps, b) && c !in a.grants.codeLog.minted && c in b.grants.codeLog.minted
    ensures MintedAt(a, steps, i, wi, c, b.grants.codeLog.minted[c])
    decreases |steps|
  {
    var m := Apply(a, steps[0]);
    MintStep(a, steps[0], c);
    if c in m.grants.codeLog.minted {
      MintedStays(m, steps[1..], b, c);
      i, wi := 0, a;
      assert steps[..0] == [];
    } else {
      i, wi := MintedBy(m, steps[1..], b, c);
      Prefixed(a, steps, i + 1, wi);
      i := i + 1;
    }
  }

  // ----- access tokens -----

  /** This step signed the token, at w: with an active key, for the access TTL set then,
      for the user and client of the code or refresh token presented, with its scopes
      narrowed to the client's. */
  ghost predicate SignedHere(w: World, s: Step, t: Access) {
    && t.signedAt == w.now && t.iat == w.now / 1000 && t.exp == t.iat + w.dir.accessTtl
    && IsActive(w.keys, t.kid)
    && match s
       case DoExchange(r, _) =>
         && t.code == r.code && r.code in w.grants.codes
         && t.user == w.grants.codes[r.code].user && t.client == w.grants.codes[r.code].client == r.client
         && r.client in w.dir.clients
         && Narrow(w.grants.codes[r.code].scopes, w.dir.clients[r.client].scopes) == Some(t.scopes)
       case DoRefresh(r, _) =>
         && r.token in w.grants.store.tokens
         && t.user == Presented(w, r.token).user && t.client == Presented(w, r.token).client == r.client
         && r.client in w.dir.clients
         && Narrow(Presented(w, r.token).scopes, w.dir.clients[r.client].scopes) == Some(t.scopes)
       case _ => false
  }

  lemma SignStep(w: World, s: Step, j: nat)
    requires Enabled(w, s)
    ensures j in w.access ==> j in Apply(w, s).access && Apply(w, s).access[j] == w.access[j]
    ensures j in Apply(w, s).access && j !in w.access ==> SignedHere(w, s, Apply(w, s).access[j])
  {
    if s.DoExchange? {
      ExchangeCases(w, s.xreq, s.draw);
    } else if s.DoRefresh? {
      RefreshCases(w, s.rreq, s.draw);
    } else {
      TokenlessSteps(w, s);
    }
  }

  ghost predicate SignedAt(a: World, steps: seq<Step>, i: nat, wi: World, t: Access) {
    i < |steps| && Run(a, steps[..i], wi) && SignedHere(wi, steps[i], t)
  }

  lemma {:induction false} SignedStays(a: World, steps: seq<Step>, b: World, j: nat)
    requires Run(a, steps, b) && j in a.access
    ensures j in b.access && b.access[j] == a.access[j]
    decreases |steps|
  {
    if steps != [] {
      SignStep(a, steps[0], j);
      SignedStays(Apply(a, steps[0]), steps[1..], b, j);
    }
  }

  lemma {:induction false} SignedBy(a: World, steps: seq<Step>, b: World, j: nat) returns (i: nat, wi: World)
    requires Run(a, steps, b) && j !in a.access && j in b.access
    ensures SignedAt(a, steps, i, wi, b.access[j])
    decreases |steps|
  {
    var m := Apply(a, steps[0]);
    SignStep(a, steps[0], j);
    if j in m.access {
      SignedStays(m, steps[1..], b, j);
      i, wi := 0, a;
      assert steps[..0] == [];
    } else {
      i, wi := SignedBy(m, steps[1..], b, j);
      Prefixed(a, steps, i + 1, wi);
      i := i + 1;
    }
  }

  /** Every access token of a run was signed by one of its steps, and lasts the access TTL
      set at that moment. */
  lemma AccessTokenMade(a: World, steps: seq<Step>, w: World, j: nat)
    requires Initial(a) && Run(a, steps, w) && j in w.access
    ensures exists i, wi :: SignedAt(a, steps, i, wi, w.access[j])
  {
    var i, wi := SignedBy(a, steps, w, j);
  }

  // ----- refresh tokens -----

  /** This step issued the token, at w: by an exchange, for the refresh TTL set then; by a
      refresh, until the presented token's expiry. */
  ghost predicate IssuedHere(w: World, s: Step, n: Issue) {
    && n.at == w.now && n.payload.createdAt == w.now / 1000 && !n.payload.used
    && match s
       case DoExchange(r, _) =>
         && n.parent == None && r.code in w.grants.codes
         && var row := w.grants.codes[r.code];
         && n.payload.user == row.user && n.payload.client == row.client == r.client && n.payload.family == row.family
         && n.payload.expires == w.now / 1000 + w.dir.refreshTtl
         && r.client in w.dir.clients && n.allowed == w.dir.clients[r.client].scopes
         && Narrow(row.scopes, n.allowed) == Some(n.payload.scopes)
       case DoRefresh(r, _) =>
         && n.parent == Some(r.token) && r.token in w.grants.store.tokens
         && var p := Presented(w, r.token);
         && n.payload.user == p.user && n.payload.client == p.client == r.client && n.payload.family == p.family
         && n.payload.expires == p.expires
         && r.client in w.dir.clients && n.allowed == w.dir.clients[r.client].scopes
         && Narrow(p.scopes, n.allowed) == Some(n.payload.scopes)
       case _ => false
  }

  lemma IssueStep(w: World, s: Step, t: TokenId)
    requires Enabled(w, s)
    ensures var before, after := w.grants.famLog.issued, Apply(w, s).grants.famLog.issued;
            && (t in before ==> t in after && after[t] == before[t])
            && (t in after && t !in before ==> IssuedHere(w, s, after[t]))
  {
    if s.DoExchange? {
      ExchangeCases(w, s.xreq, s.draw);
    } else if s.DoRefresh? {
      RefreshCases(w, s.rreq, s.draw);
    } else {
      TokenlessSteps(w, s);
    }
  }

  ghost predicate IssuedAt(a: World, steps: seq<Step>, i: nat, wi: World, n: Issue) {
    i < |steps| && Run(a, steps[..i], wi) && IssuedHere(wi, steps[i], n)
  }

  lemma {:induction false} IssuedStays(a: World, steps: seq<Step>, b: World, t: TokenId)
    requires Run(a, steps, b) && t in a.grants.famLog.issued
    ensures t in b.grants.famLog.issued && b.grants.famLog.issued[t] == a.grants.famLog.issued[t]
    decreases |steps|
  {
    if steps != [] {
      IssueStep(a, steps[0], t);
      IssuedStays(Apply(a, steps[0]), steps[1..], b, t);
    }
  }

  lemma {:induction false} IssuedBy(a: World, steps: seq<Step>, b: World, t: TokenId) returns (i: nat, wi: World)
    requires Run(a, steps, b) && t !in a.grants.famLog.issued && t in b.grants.famLog.issued
    ensures IssuedAt(a, steps, i, wi, b.grants.famLog.issued[t])
    decreases |steps|
  {
    var m := Apply(a, steps[0]);
    IssueStep(a, steps[0], t);
    if t in m.grants.famLog.issued {
      IssuedStays(m, steps[1..], b, t);
      i, wi := 0, a;
      assert steps[..0] == [];
    } else {
      i, wi := IssuedBy(m, steps[1..], b, t);
      Prefixed(a, steps, i + 1, wi);
      i := i + 1;
    }
  }

  /** Every refresh token of a run was issued by one of its steps, with that moment's TTL
      or its parent's expiry. */
  lemma RefreshTokenMade(a: World, steps: seq<Step>, w: World, t: TokenId)
    requires Initial(a) && Run(a, steps, w) && t in w.grants.famLog.issued
    ensures exists i, wi :: IssuedAt(a, steps, i, wi, w.grants.famLog.issued[t])
  {
    var i, wi := IssuedBy(a, steps, w, t);
  }

  // ----- every scope was asked for -----

  /** Some authorize step of the run minted code c for this user and client, and asked for
      every one of the scopes. */
  ghost predicate AskedFor(a: World, steps: seq<Step>, c: CodeId, user: UserId, client: ClientId, scopes: seq<Scope>) {
    exists i: nat, wi: World, row: CodeRow ::
      && MintedAt(a, steps, i, wi, c, row)
      && steps[i].areq.user == Some(user) && steps[i].areq.client == client
      && forall x :: x in scopes ==> x in Requested(steps[i].areq)
  }

  lemma AskedByCode(a: World, steps: seq<Step>, w: World, c: CodeId, scopes: seq<Scope>)
    requires Initial(a) && Run(a, steps, w) && c in w.grants.codeLog.minted
    requires Subsequence(scopes, w.grants.codeLog.minted[c].scopes)
    ensures AskedFor(a, steps, c, w.grants.codeLog.minted[c].user, w.grants.codeLog.minted[c].client, scopes)
  {
    var i, wi := MintedBy(a, steps, w, c);
    SubsequenceElements(scopes, w.grants.codeLog.minted[c].scopes);
    assert MintedAt(a, steps, i, wi, c, w.grants.codeLog.minted[c]);
  }

  /** No access token carries a scope that its user's authorize request did not name. */
  lemma AccessScopesWereAsked(a: World, steps: seq<Step>, w: World, j: nat)
    requires Initial(a) && Run(a, steps, w) && j in w.access
    ensures var t := w.access[j];
            AskedFor(a, steps, t.code, t.user, t.client, t.scopes)
  {
    AccessLineage(a, steps, w, j);
    AskedByCode(a, steps, w, w.access[j].code, w.access[j].scopes);
  }

  /** Nor does a refresh token. */
  lemma RefreshScopesWereAsked(a: World, steps: seq<Step>, w: World, t: TokenId)
    requires Initial(a) && Run(a, steps, w) && t in w.grants.famLog.issued
    ensures var p := w.grants.famLog.issued[t].payload;
            && p.family in w.grants.famLog.families
            && AskedFor(a, steps, w.grants.famLog.families[p.family].code, p.user, p.client, p.scopes)
  {
    Lineage(a, steps, w, t);
    var p := w.grants.famLog.issued[t].payload;
    AskedByCode(a, steps, w, w.grants.famLog.families[p.family].code, p.scopes);
  }

  // ----- a mismatch spends the code -----

  lemma BurntStep(w: World, s: Step)
    ensures w.grants.codeLog.burnt <= Apply(w, s).grants.codeLog.burnt
  {
    match s
    case DoExchange(r, d) => ExchangeCases(w, r, d);
    case DoRefresh(r, d) => RefreshCases(w, r, d);
    case _ =>
  }

  lemma {:induction false} BurntStays(a: World, steps: seq<Step>, b: World)
    requires Run(a, steps, b)
    ensures a.grants.codeLog.burnt <= b.grants.codeLog.burnt
    decreases |steps|
  {
    if steps != [] {
      BurntStep(a, steps[0]);
      BurntStays(Apply(a, steps[0]), steps[1..], b);
    }
  }

  /** Another client, redirect or verifier, a user gone or disabled, a client without the
      grant type or without any of the scopes. */
  ghost predicate DoesNotFit(w: World, r: ExchangeRequest, row: CodeRow)
    requires r.client in w.dir.clients
  {
    || row.client != r.client || row.redirect != r.redirect || row.challenge != S256(r.verifier)
    || row.user !in w.dir.users || !w.dir.users[row.user]
    || "authorization_code" !in w.dir.clients[r.client].grants
    || forall x :: x in row.scopes ==> x !in w.dir.clients[r.client].scopes
  }

  /** A live code presented by an authenticated client with anything that does not fit is
      refused and spent: its row stays, used, nothing is signed or stored, no later
      exchange of it is granted in any continuation, and no token ever carries it. */
  lemma MismatchSpendsCode(a: World, before: seq<Step>, w: World, r: ExchangeRequest, d: Draw,
                           after: seq<Step>, w': World)
    requires Initial(a) && Run(a, before, w) && Enabled(w, DoExchange(r, d))
    requires r.redirect != "" && r.verifier != "" && Authenticated(w, r.client, r.secret)
    requires Consumable(w.grants.codes, w.now, r.code) && DoesNotFit(w, r, w.grants.codes[r.code])
    requires Run(Apply(w, DoExchange(r, d)), after, w')
    ensures var (out, w1) := Exchange(w, r, d);
            && !out.Granted? && w1.access == w.access && w1.grants.store == w.grants.store
            && w1.grants.codes == w.grants.codes[r.code := w.grants.codes[r.code].(used := true)]
    ensures forall x, e :: Exchange(w', x, e).0.Granted? ==> x.code != r.code
    ensures forall j :: j in w'.access ==> w'.access[j].code != r.code
    ensures forall f :: f in w'.grants.famLog.families ==> w'.grants.famLog.families[f].code != r.code
  {
    NarrowExact(w.grants.codes[r.code].scopes, w.dir.clients[r.client].scopes);
    ExchangeCases(w, r, d);
    var w1 := Apply(w, DoExchange(r, d));
    assert r.code in w1.grants.codeLog.burnt;
    BurntStays(w1, after, w');
    var steps := [DoExchange(r, d)] + after;
    assert steps[1..] == after;
    RunsCompose(a, before, w, steps, w');
    BurntCodesYieldNothing(a, before + steps, w', r.code);
  }
}
