/** revoke_before is exact and permanent: what BearerAuth and the refresh grant answer,
    stated over the history of cutoffs. */
module CutoffTheorems {
  import opened Prelude
  import opened Scopes
  import opened RefreshStore
  import opened AuthCodes
  import opened SigningKeys
  import opened RevokeBefore
  import opened World
  import opened Families
  import opened FamilyTheorems
  import opened RotationTheorems
  import opened KeyTheorems

  /** A logged cutoff is covered by the stored one ... */
  ghost predicate Covered(now: nat, cuts: Cutoffs, id: SubjectId, t: nat) {
    && t <= now && id in cuts
    && t + CUTOFF_TTL <= cuts[id].deadline && Sec(t) + 1 <= cuts[id].value
  }

  /** ... and the stored one is a logged one, with 30 days from its instant. */
  ghost predicate Genuine(cuts: Cutoffs, log: set<(SubjectId, nat)>, id: SubjectId)
    requires id in cuts
  {
    && CUTOFF_TTL <= cuts[id].deadline
    && (id, cuts[id].deadline - CUTOFF_TTL) in log
    && cuts[id].value == Sec(cuts[id].deadline - CUTOFF_TTL) + 1
  }

  ghost predicate CutInv(now: nat, cuts: Cutoffs, log: set<(SubjectId, nat)>) {
    && (forall id, t :: (id, t) in log ==> Covered(now, cuts, id, t))
    && (forall id :: id in cuts ==> Genuine(cuts, log, id))
  }

  ghost predicate WorldCutInv(w: World) {
    CutInv(w.now, w.userCuts, w.userCutLog) && CutInv(w.now, w.clientCuts, w.clientCutLog)
  }

  lemma SetNowKeeps(now: nat, cuts: Cutoffs, log: set<(SubjectId, nat)>, id: SubjectId)
    requires CutInv(now, cuts, log)
    ensures CutInv(now, SetNow(cuts, now, id), log + {(id, now)})
  {
    var cuts', log' := SetNow(cuts, now, id), log + {(id, now)};
    forall x, t | (x, t) in log' ensures Covered(now, cuts', x, t) {
      if (x, t) in log {
        assert Covered(now, cuts, x, t);
      }
    }
    forall x | x in cuts' ensures Genuine(cuts', log', x) {
      if x != id {
        assert Genuine(cuts, log, x);
      }
    }
  }

  predicate Cuts(s: Step) {
    s.DoCutUser? || s.DoDisableUser? || s.DoDeleteClient?
  }

  lemma CutlessSteps(w: World, s: Step)
    requires !Cuts(s)
    ensures Apply(w, s).userCuts == w.userCuts && Apply(w, s).userCutLog == w.userCutLog
    ensures Apply(w, s).clientCuts == w.clientCuts && Apply(w, s).clientCutLog == w.clientCutLog
    ensures w.now <= Apply(w, s).now
  {
    if s.DoExchange? {
      ExchangeCases(w, s.xreq, s.draw);
    } else if s.DoRefresh? {
      RefreshCases(w, s.rreq, s.draw);
    }
  }

  lemma CutUserKeeps(w: World, u: UserId)
    requires WorldCutInv(w)
    ensures WorldCutInv(CutUser(w, u)) && w.userCutLog <= CutUser(w, u).userCutLog
  {
    SetNowKeeps(w.now, w.userCuts, w.userCutLog, u);
  }

  lemma DeleteClientKeeps(w: World, c: ClientId)
    requires WorldCutInv(w)
    ensures WorldCutInv(DeleteClient(w, c)) && w.clientCutLog <= DeleteClient(w, c).clientCutLog
  {
    SetNowKeeps(w.now, w.clientCuts, w.clientCutLog, c);
  }

  lemma CutStep(w: World, s: Step)
    requires WorldCutInv(w) && Cuts(s)
    ensures WorldCutInv(Apply(w, s))
    ensures w.userCutLog <= Apply(w, s).userCutLog && w.clientCutLog <= Apply(w, s).clientCutLog
  {
    match s
    case DoCutUser(u) => CutUserKeeps(w, u);
    case DoDisableUser(u) => CutUserKeeps(SetUser(w, u, false), u);
    case DoDeleteClient(c) => DeleteClientKeeps(w, c);
  }

  lemma TickKeepsCuts(now: nat, later: nat, cuts: Cutoffs, log: set<(SubjectId, nat)>)
    requires CutInv(now, cuts, log) && now <= later
    ensures CutInv(later, cuts, log)
  {
    forall id, t | (id, t) in log ensures Covered(later, cuts, id, t) {
      assert Covered(now, cuts, id, t);
    }
  }

  lemma StepKeepsCuts(w: World, s: Step)
    requires WorldCutInv(w)
    ensures WorldCutInv(Apply(w, s))
    ensures w.userCutLog <= Apply(w, s).userCutLog && w.clientCutLog <= Apply(w, s).clientCutLog
  {
    if Cuts(s) {
      CutStep(w, s);
    } else {
      CutlessSteps(w, s);
      TickKeepsCuts(w.now, Apply(w, s).now, w.userCuts, w.userCutLog);
      TickKeepsCuts(w.now, Apply(w, s).now, w.clientCuts, w.clientCutLog);
    }
  }

  lemma {:induction false} RunKeepsCuts(a: World, steps: seq<Step>, b: World)
    requires WorldCutInv(a) && Run(a, steps, b)
    ensures WorldCutInv(b)
    ensures a.userCutLog <= b.userCutLog && a.clientCutLog <= b.clientCutLog
    decreases |steps|
  {
    if steps != [] {
      StepKeepsCuts(a, steps[0]);
      RunKeepsCuts(Apply(a, steps[0]), steps[1..], b);
    }
  }

  /** A stamp is blocked exactly by the cutoffs of the last 30 days set in the stamp's
      second or later. */
  lemma BlocksExactly(now: nat, cuts: Cutoffs, log: set<(SubjectId, nat)>, id: SubjectId, stamp: nat)
    requires CutInv(now, cuts, log)
    ensures Blocks(cuts, now, id, stamp) <==> exists t :: (id, t) in log && now < t + 2_592_000_000 && stamp <= Sec(t)
  {
    assert forall t :: (id, t) in log ==> Covered(now, cuts, id, t);
    if Blocks(cuts, now, id, stamp) {
      assert Genuine(cuts, log, id);
      var t := cuts[id].deadline - CUTOFF_TTL;
      assert (id, t) in log && now < t + CUTOFF_TTL && stamp <= Sec(t);
    }
  }

  lemma ReachableCutInv(a: World, steps: seq<Step>, w: World)
    requires Initial(a) && Run(a, steps, w)
    ensures WorldCutInv(w)
  {
    RunKeepsCuts(a, steps, w);
  }

  /** The subject was cut in the stamp's second or later. */
  ghost predicate CutSince(log: set<(SubjectId, nat)>, id: SubjectId, stamp: nat) {
    exists t :: (id, t) in log && stamp <= Sec(t)
  }

  /** For a token still inside exp + 30 s, the 30-day lapse plays no part. */
  lemma LapseIsHarmless(now: nat, cuts: Cutoffs, log: set<(SubjectId, nat)>, id: SubjectId, stamp: nat, end: nat)
    requires CutInv(now, cuts, log) && Sec(now) <= end <= stamp + MAX_REFRESH_TTL + 2
    ensures Blocks(cuts, now, id, stamp) <==> CutSince(log, id, stamp)
  {
    BlocksExactly(now, cuts, log, id, stamp);
    if CutSince(log, id, stamp) {
      var t :| (id, t) in log && stamp <= Sec(t);
      assert now < t + CUTOFF_TTL;
    }
  }

  /** BearerAuth decides exactly this, at every point of every run: the token is in its
      lifetime, its user is active, its key was not retired by hand, and neither its
      user nor its client was ever cut in or after the second it was issued. */
  lemma BearerExact(a: World, steps: seq<Step>, w: World, j: nat)
    requires Initial(a) && Run(a, steps, w) && j in w.access
    ensures var t := w.access[j];
            BearerAccepts(w, t) <==>
              && w.now / 1000 <= t.exp + 30
              && UserActive(w.dir, t.user)
              && t.kid !in w.emergency
              && !CutSince(w.userCutLog, t.user, t.iat)
              && !CutSince(w.clientCutLog, t.client, t.iat)
  {
    ReachableCutInv(a, steps, w);
    ReachableKeyInv(a, steps, w);
    var t := w.access[j];
    assert AccessOk(w.now, w.keys, t);
    if Sec(w.now) <= t.exp + CLOCK_SKEW {
      KidIsPublished(a, steps, w, j);
      LapseIsHarmless(w.now, w.userCuts, w.userCutLog, t.user, t.iat, Sec(w.now));
      LapseIsHarmless(w.now, w.clientCuts, w.clientCutLog, t.client, t.iat, Sec(w.now));
    }
  }

  /** The request presents a stored token of user u, created in second Sec(t) or before. */
  ghost predicate StampedBy(w: World, r: RefreshRequest, u: UserId, t: nat) {
    && r.token in w.grants.store.tokens
    && Presented(w, r.token).user == u && Presented(w, r.token).createdAt <= Sec(t)
  }

  /** Permanence: a cutoff set for the user at instant t rejects, in every continuation
      (disable and enable, further cutoffs, the key's 30-day lapse), every access token
      stamped in second Sec(t) or before, and every refresh with such a token. */
  lemma CutoffIsPermanent(a: World, before: seq<Step>, w: World, after: seq<Step>, w': World, u: UserId, t: nat)
    requires Initial(a) && Run(a, before, w) && Run(w, after, w')
    requires (u, t) in w.userCutLog
    ensures forall j :: j in w'.access && w'.access[j].user == u && w'.access[j].iat <= Sec(t) ==>
                          !BearerAccepts(w', w'.access[j])
    ensures forall r, d :: StampedBy(w', r, u, t) ==> !Refresh(w', r, d).0.Granted?
  {
    RunsCompose(a, before, w, after, w');
    ReachableCutInv(a, before, w);
    RunKeepsCuts(w, after, w');
    forall j | j in w'.access && w'.access[j].user == u && w'.access[j].iat <= Sec(t)
      ensures !BearerAccepts(w', w'.access[j])
    {
      BearerExact(a, before + after, w', j);
    }
    forall r, d | StampedBy(w', r, u, t)
      ensures !Refresh(w', r, d).0.Granted?
    {
      RefreshBlocked(a, before + after, w', r, d, t);
    }
  }

  lemma RefreshBlocked(a: World, steps: seq<Step>, w: World, r: RefreshRequest, d: Draw, t: nat)
    requires Initial(a) && Run(a, steps, w)
    requires r.token in w.grants.store.tokens && (Presented(w, r.token).user, t) in w.userCutLog
    requires Presented(w, r.token).createdAt <= Sec(t)
    ensures !Refresh(w, r, d).0.Granted?
  {
    ReachableCutInv(a, steps, w);
    RefreshCases(w, r, d);
    var p := Presented(w, r.token);
    if Refresh(w, r, d).0.Granted? {
      RefreshLifetime(a, steps, w, r.token);
      assert Sec(w.now) < p.expires;
      LapseIsHarmless(w.now, w.userCuts, w.userCutLog, p.user, p.createdAt, Sec(w.now));
      assert false;
    }
  }

  lemma RefreshLifetime(a: World, steps: seq<Step>, w: World, t: RefreshStore.TokenId)
    requires Initial(a) && Run(a, steps, w) && t in w.grants.store.tokens
    ensures Presented(w, t).expires <= Presented(w, t).createdAt + MAX_REFRESH_TTL
  {
    ReachableInv(a, steps, w);
    assert StoredOk(w.now, w.grants.store, w.grants.famLog, t) && IssueOk(w.now, w.grants.famLog, t);
  }

  // ----- the steps on keys -----

  /** Retiring a key by hand is final: no continuation accepts a token it signed. */
  lemma EmergencyIsFinal(a: World, before: seq<Step>, w: World, k: KeyId, after: seq<Step>, w': World, j: nat)
    requires Initial(a) && Run(a, before, w) && k in w.keys && w.keys[k].status == Retiring
    requires Run(Apply(w, DoEmergencyRetire(k)), after, w')
    requires j in w'.access && w'.access[j].kid == k
    ensures !Publishable(w'.keys, k) && !BearerAccepts(w', w'.access[j])
  {
    var s := DoEmergencyRetire(k);
    var w1 := Apply(w, s);
    assert w1.keys[k].status == Retired;
    assert [s][1..] == [];
    assert Run(w1, [], w1);
    assert Run(w, [s], w1);
    RunsCompose(a, before, w, [s], w1);
    OneActiveKeyAlways(a, before + [s], w1, after, w');
  }

  /** A rotation step makes the new key the active one and demotes the one it read. */
  lemma RotationStep(w: World, k: KeyId, newId: KeyId)
    requires Enabled(w, DoRotateKey(Some(k), newId))
    ensures var w' := Apply(w, DoRotateKey(Some(k), newId));
            && IsActive(w'.keys, newId) && k in w'.keys && w'.keys[k] == KeyRow(Retiring, Some(w.now))
            && w' == w.(keys := w'.keys)
  {
    RotationExact(w.keys, w.now, k, newId);
  }

  /** A sweep step retires what SweptRowExact says, row by row. */
  lemma SweepStepExact(w: World)
    ensures var w' := Apply(w, DoSweepKeys);
            && w'.keys.Keys == w.keys.Keys && w' == w.(keys := w'.keys)
            && forall k :: k in w.keys ==> w'.keys[k] == SweptRow(w.keys[k], w.now)
  {
  }

  // ----- the steps that cut -----

  /** No token of u stamped at or before instant t is accepted or refreshed. */
  ghost predicate CutOff(w: World, u: UserId, t: nat) {
    && (forall j :: j in w.access && w.access[j].user == u && w.access[j].iat <= Sec(t) ==>
                      !BearerAccepts(w, w.access[j]))
    && (forall r, d :: StampedBy(w, r, u, t) ==> !Refresh(w, r, d).0.Granted?)
  }

  lemma CutStepIsPermanent(a: World, before: seq<Step>, w: World, s: Step, after: seq<Step>, w': World, u: UserId)
    requires Initial(a) && Run(a, before, w) && Enabled(w, s) && (u, w.now) in Apply(w, s).userCutLog
    requires Run(Apply(w, s), after, w')
    ensures CutOff(w', u, w.now)
  {
    var w1 := Apply(w, s);
    assert [s][1..] == [];
    assert Run(w1, [], w1);
    assert Run(w, [s], w1);
    RunsCompose(a, before, w, [s], w1);
    CutoffIsPermanent(a, before + [s], w1, after, w', u, w.now);
  }

  /** Disabling a user ends every token stamped so far, in every continuation: the user is
      inactive at once, and enabling the user again brings none of them back. */
  lemma DisablingIsPermanent(a: World, before: seq<Step>, w: World, u: UserId, after: seq<Step>, w': World)
    requires Initial(a) && Run(a, before, w) && u in w.dir.users
    requires Run(Apply(w, DoDisableUser(u)), after, w')
    ensures var users := Apply(w, DoDisableUser(u)).dir.users;
            users == w.dir.users[u := false]
    ensures CutOff(w', u, w.now)
  {
    CutStepIsPermanent(a, before, w, DoDisableUser(u), after, w', u);
  }

  /** So does a password reset, an MFA reset or the termination of all sessions. */
  lemma CuttingIsPermanent(a: World, before: seq<Step>, w: World, u: UserId, after: seq<Step>, w': World)
    requires Initial(a) && Run(a, before, w) && Run(Apply(w, DoCutUser(u)), after, w')
    ensures CutOff(w', u, w.now)
  {
    CutStepIsPermanent(a, before, w, DoCutUser(u), after, w', u);
  }

  /** Enabling activates the user, and changes nothing else. */
  lemma EnablingActivates(w: World, u: UserId)
    ensures var w' := Apply(w, DoPutUser(u));
            && w'.dir.users == w.dir.users[u := true]
            && w' == w.(dir := w.dir.(users := w'.dir.users))
  {
  }

  /** A user with a code row in the table cannot be deleted; any other user goes. */
  lemma DeletingUser(w: World, u: UserId)
    ensures var w', named := Apply(w, DoDeleteUser(u)), exists c :: c in w.grants.codes && w.grants.codes[c].user == u;
            && (named ==> w' == w)
            && (!named ==> u !in w'.dir.users && w' == w.(dir := w.dir.(users := w.dir.users - {u})))
  {
  }

  // ----- when the token endpoint grants -----

  ghost predicate SomeAllowed(granted: seq<Scope>, allowed: seq<Scope>) {
    exists x :: x in granted && x in allowed
  }

  /** The refresh grant decides exactly this, at every point of every run: the token is
      fresh and before its absolute expiry, client, grant type and some scope still fit,
      the user is active and was never cut in or after the second it was issued. */
  lemma RefreshExact(a: World, steps: seq<Step>, w: World, r: RefreshRequest, d: Draw)
    requires Initial(a) && Run(a, steps, w) && Enabled(w, DoRefresh(r, d))
    ensures Refresh(w, r, d).0.Granted? <==>
              && Authenticated(w, r.client, r.secret)
              && Consumed(w.grants.store, w.now, r.token).Fresh?
              && var p, client := Presented(w, r.token), w.dir.clients[r.client];
              && p.client == r.client && "refresh_token" in client.grants && SomeAllowed(p.scopes, client.scopes)
              && UserActive(w.dir, p.user)
              && Sec(w.now) < p.expires
              && !CutSince(w.userCutLog, p.user, p.createdAt)
  {
    RefreshCases(w, r, d);
    KeyIsDrawn(a, steps, w, d);
    if Authenticated(w, r.client, r.secret) && Consumed(w.grants.store, w.now, r.token).Fresh? {
      var p := Presented(w, r.token);
      NarrowExact(p.scopes, w.dir.clients[r.client].scopes);
      if Sec(w.now) < p.expires {
        ReachableCutInv(a, steps, w);
        RefreshLifetime(a, steps, w, r.token);
        LapseIsHarmless(w.now, w.userCuts, w.userCutLog, p.user, p.createdAt, Sec(w.now));
      }
    }
  }

  /** The code grant decides exactly this, at every point of every run. */
  lemma ExchangeExact(a: World, steps: seq<Step>, w: World, r: ExchangeRequest, d: Draw)
    requires Initial(a) && Run(a, steps, w) && Enabled(w, DoExchange(r, d))
    ensures Exchange(w, r, d).0.Granted? <==>
              && r.redirect != ""
              && Authenticated(w, r.client, r.secret)
              && Consumable(w.grants.codes, w.now, r.code)
              && var row, client := w.grants.codes[r.code], w.dir.clients[r.client];
              && row.client == r.client && row.redirect == r.redirect
              && r.verifier != "" && row.challenge == S256(r.verifier)
              && "authorization_code" in client.grants && SomeAllowed(row.scopes, client.scopes)
              && UserActive(w.dir, row.user)
  {
    ExchangeCases(w, r, d);
    KeyIsDrawn(a, steps, w, d);
    if Authenticated(w, r.client, r.secret) && Consumable(w.grants.codes, w.now, r.code) {
      NarrowExact(w.grants.codes[r.code].scopes, w.dir.clients[r.client].scopes);
    }
  }

  /** In a reachable state GetActive finds a key, and the refresh TTL is positive. */
  lemma KeyIsDrawn(a: World, steps: seq<Step>, w: World, d: Draw)
    requires Initial(a) && Run(a, steps, w) && ActiveAnswer(w.keys, d.kid)
    ensures d.kid.Some? && w.dir.refreshTtl > 0
  {
    ReachableKeyInv(a, steps, w);
    ReachableInv(a, steps, w);
  }

  // ----- deleting a client is final -----

  /** The client was deleted at t: no row of it, no code of it, and no access token of it
      that is younger. */
  ghost predicate Gone(w: World, c: ClientId, t: nat) {
    && c in w.grants.codeLog.deletedClients && c !in w.dir.clients && (c, t) in w.clientCutLog
    && (forall k :: k in w.grants.codes ==> w.grants.codes[k].client != c)
    && forall j :: j in w.access && w.access[j].client == c ==> w.access[j].iat <= Sec(t)
  }

  lemma TokenStepKeepsGone(w: World, s: Step, c: ClientId, t: nat)
    requires Gone(w, c, t) && (s.DoExchange? || s.DoRefresh?)
    ensures Gone(Apply(w, s), c, t)
  {
    if s.DoExchange? {
      ExchangeCases(w, s.xreq, s.draw);
    } else {
      RefreshCases(w, s.rreq, s.draw);
    }
  }

  lemma OtherStepKeepsGone(w: World, s: Step, c: ClientId, t: nat)
    requires Gone(w, c, t) && Enabled(w, s) && !s.DoExchange? && !s.DoRefresh?
    ensures Gone(Apply(w, s), c, t)
  {
    match s
    case DoAuthorize(r, k, f) => AuthorizeKeepsGone(w, r, k, f, c, t);
    case DoDeleteClient(x) => DeleteKeepsGone(w, x, c, t);
    case _ => QuietKeepsGone(w, s, c, t);
  }

  lemma AuthorizeKeepsGone(w: World, r: AuthorizeRequest, k: CodeId, f: FamilyId, c: ClientId, t: nat)
    requires Gone(w, c, t)
    ensures Gone(Apply(w, DoAuthorize(r, k, f)), c, t)
  {
  }

  lemma DeleteKeepsGone(w: World, x: ClientId, c: ClientId, t: nat)
    requires Gone(w, c, t)
    ensures Gone(Apply(w, DoDeleteClient(x)), c, t)
  {
  }

  lemma QuietKeepsGone(w: World, s: Step, c: ClientId, t: nat)
    requires Gone(w, c, t) && Enabled(w, s) && !s.DoExchange? && !s.DoRefresh? && !s.DoAuthorize? && !s.DoDeleteClient?
    ensures Gone(Apply(w, s), c, t)
  {
    TokenlessSteps(w, s);
    if Quiet(s) {
      QuietSteps(w, s);
      ClientsKept(w, s);
    }
  }

  lemma ClientsKept(w: World, s: Step)
    requires Quiet(s)
    ensures Apply(w, s).clientCutLog == w.clientCutLog
    ensures Apply(w, s).dir.clients == if s.DoPutClient? then w.dir.clients[s.client := s.record] else w.dir.clients
  {
  }

  lemma {:induction false} RunKeepsGone(a: World, steps: seq<Step>, b: World, c: ClientId, t: nat)
    requires Gone(a, c, t) && Run(a, steps, b)
    ensures Gone(b, c, t)
    decreases |steps|
  {
    if steps != [] {
      if steps[0].DoExchange? || steps[0].DoRefresh? {
        TokenStepKeepsGone(a, steps[0], c, t);
      } else {
        OtherStepKeepsGone(a, steps[0], c, t);
      }
      RunKeepsGone(Apply(a, steps[0]), steps[1..], b, c, t);
    }
  }

  lemma DeletionMakesGone(a: World, steps: seq<Step>, w: World, c: ClientId)
    requires Initial(a) && Run(a, steps, w) && c in w.dir.clients
    ensures Gone(Apply(w, DoDeleteClient(c)), c, w.now)
  {
    ReachableKeyInv(a, steps, w);
    assert forall j :: j in w.access ==> AccessOk(w.now, w.keys, w.access[j]);
  }

  /** After a client is deleted no continuation accepts an access token of it, or grants
      an exchange or a refresh to it or of anything that was issued to it. */
  lemma DeletedClientIsGone(a: World, before: seq<Step>, w: World, c: ClientId, after: seq<Step>, w': World)
    requires Initial(a) && Run(a, before, w) && c in w.dir.clients
    requires Run(Apply(w, DoDeleteClient(c)), after, w')
    ensures forall j :: j in w'.access && w'.access[j].client == c ==> !BearerAccepts(w', w'.access[j])
    ensures c !in w'.dir.clients && forall k :: k in w'.grants.codes ==> w'.grants.codes[k].client != c
    ensures forall r, d :: Refresh(w', r, d).0.Granted? ==>
                             r.client != c && r.token in w'.grants.store.tokens && Presented(w', r.token).client != c
    ensures forall r, d :: Exchange(w', r, d).0.Granted? ==>
                             r.client != c && r.code in w'.grants.codes && w'.grants.codes[r.code].client != c
  {
    DeletionMakesGone(a, before, w, c);
    RunKeepsGone(Apply(w, DoDeleteClient(c)), after, w', c, w.now);
    GoneGrantsNothing(w', c, w.now);
    var steps := [DoDeleteClient(c)] + after;
    assert steps[1..] == after;
    RunsCompose(a, before, w, steps, w');
    forall j | j in w'.access && w'.access[j].client == c ensures !BearerAccepts(w', w'.access[j]) {
      BearerExact(a, before + steps, w', j);
    }
  }

  lemma GoneGrantsNothing(w: World, c: ClientId, t: nat)
    requires Gone(w, c, t)
    ensures forall r, d :: Refresh(w, r, d).0.Granted? ==>
                             r.client != c && r.token in w.grants.store.tokens && Presented(w, r.token).client != c
    ensures forall r, d :: Exchange(w, r, d).0.Granted? ==>
                             r.client != c && r.code in w.grants.codes && w.grants.codes[r.code].client != c
  {
    forall r, d | Refresh(w, r, d).0.Granted?
      ensures r.client != c && r.token in w.grants.store.tokens && Presented(w, r.token).client != c
    {
      RefreshCases(w, r, d);
    }
    forall r, d | Exchange(w, r, d).0.Granted?
      ensures r.client != c && r.code in w.grants.codes && w.grants.codes[r.code].client != c
    {
      ExchangeCases(w, r, d);
    }
  }

  // ----- when a refused refresh revokes -----

  /** A reported reuse; or a fresh token that fits its client, whose user is disabled or was
      cut in or after the second it was issued. */
  ghost predicate Earnest(w: World, r: RefreshRequest) {
    && Authenticated(w, r.client, r.secret)
    && r.token in w.grants.store.tokens && r.token in w.grants.famLog.issued
    && (|| ReportsReuse(w.grants.famLog, w.now, r.token)
        || (&& Consumed(w.grants.store, w.now, r.token).Fresh?
            && var p, client := Presented(w, r.token), w.dir.clients[r.client];
            && p.client == r.client && "refresh_token" in client.grants && SomeAllowed(p.scopes, client.scopes)
            && p.user in w.dir.users
            && (!w.dir.users[p.user] || CutSince(w.userCutLog, p.user, p.createdAt))))
  }

  /** Over every run a refused refresh revokes the presented token's family if it is refused
      in earnest, and changes nothing otherwise; before the absolute expiry a revocation
      leaves no key of the family. */
  lemma RefusalRevokesIff(a: World, steps: seq<Step>, w: World, r: RefreshRequest, d: Draw)
    requires Initial(a) && Run(a, steps, w) && Enabled(w, DoRefresh(r, d)) && !Refresh(w, r, d).0.Granted?
    ensures Refresh(w, r, d).1 ==
            if Earnest(w, r) then w.(grants := Revoke(w.grants, w.now, Presented(w, r.token).family)) else w
    ensures Earnest(w, r) ==>
              var f, g' := Presented(w, r.token).family, Refresh(w, r, d).1.grants;
              && f in w.grants.famLog.families && f in g'.famLog.revoked
              && (w.now < Expiry(w.grants.famLog, f) ==> Empty(g', f))
  {
    RefreshCases(w, r, d);
    if r.token in w.grants.store.tokens {
      EarnestIff(a, steps, w, r);
      IssuedFamily(a, steps, w, r.token);
      ReachableInv(a, steps, w);
      var f := Presented(w, r.token).family;
      if w.now < Expiry(w.grants.famLog, f) {
        RevokeEmpties(w.now, w.grants, f);
      }
    }
  }

  lemma EarnestIff(a: World, steps: seq<Step>, w: World, r: RefreshRequest)
    requires Initial(a) && Run(a, steps, w) && r.token in w.grants.store.tokens
    ensures r.token in w.grants.famLog.issued
    ensures MustRevoke(w, r) <==> Earnest(w, r)
  {
    var p := Presented(w, r.token);
    FreshIsYoung(a, steps, w, r.token);
    AnswerIff(a, steps, w, r.token);
    if r.client in w.dir.clients {
      NarrowExact(p.scopes, w.dir.clients[r.client].scopes);
    }
    if Consumed(w.grants.store, w.now, r.token).Fresh? {
      ReachableCutInv(a, steps, w);
      LapseIsHarmless(w.now, w.userCuts, w.userCutLog, p.user, p.createdAt, Sec(w.now));
    }
  }

  lemma FreshIsYoung(a: World, steps: seq<Step>, w: World, t: TokenId)
    requires Initial(a) && Run(a, steps, w) && t in w.grants.store.tokens
    ensures t in w.grants.famLog.issued
    ensures Consumed(w.grants.store, w.now, t).Fresh? ==> Sec(w.now) <= Presented(w, t).createdAt + MAX_REFRESH_TTL + 2
  {
    ReachableInv(a, steps, w);
    assert StoredOk(w.now, w.grants.store, w.grants.famLog, t) && IssueOk(w.now, w.grants.famLog, t);
  }
}
