/** What the family invariant buys, for every run of the server. */
module FamilyTheorems {
  import opened Prelude
  import opened Scopes
  import opened RefreshStore
  import opened AuthCodes
  import opened World
  import opened Families
  import opened RotationTheorems

  ghost predicate InFamily(log: FamilyLog, t: TokenId, f: FamilyId) {
    t in log.issued && log.issued[t].payload.family == f
  }

  ghost predicate Empty(g: Grants, f: FamilyId) {
    forall t :: t in g.store.tokens ==> g.store.tokens[t].value.family != f
  }

  // ----- one unused token, and reuse is always recognised -----

  /** Up to half a second before the family expires: if u is presented and accepted as
      fresh, every other token ever issued in the family is reported as reuse. From then
      on, exactly those that ReportsReuse names. */
  lemma OneUnusedToken(a: World, steps: seq<Step>, w: World, f: FamilyId, u: TokenId, t: TokenId)
    requires Initial(a) && Run(a, steps, w)
    requires InFamily(w.grants.famLog, u, f) && Consumed(w.grants.store, w.now, u).Fresh?
    requires InFamily(w.grants.famLog, t, f) && t != u
    ensures f in w.grants.famLog.families
    ensures w.now + 500 <= Expiry(w.grants.famLog, f) ==> Consumed(w.grants.store, w.now, t).Reused?
    ensures Consumed(w.grants.store, w.now, t).Reused? <==>
              t in w.grants.store.tokens && ReportsReuse(w.grants.famLog, w.now, t)
  {
    AnswerIff(a, steps, w, t);
    ReachableInv(a, steps, w);
    var g := w.grants;
    assert IssueOk(w.now, g.famLog, u) && StoredOk(w.now, g.store, g.famLog, u);
    assert KeptOk(w.now, g.store, g.famLog, u) && KeptOk(w.now, g.store, g.famLog, t);
  }

  /** RevokeFamily before the absolute expiry removes every key of the family. */
  lemma RevokeEmpties(now: nat, g: Grants, f: FamilyId)
    requires Inv(now, g) && f in g.famLog.families && now < Expiry(g.famLog, f)
    ensures Empty(Revoke(g, now, f), f)
  {
    forall t | t in Revoke(g, now, f).store.tokens ensures g.store.tokens[t].value.family != f {
      assert StoredOk(now, g.store, g.famLog, t) && KeptOk(now, g.store, g.famLog, t);
    }
  }

  ghost predicate NoneReadable(g: Grants, store: Store, now: nat, f: FamilyId) {
    forall t :: InFamily(g.famLog, t, f) ==> !Readable(store, now, t)
  }

  /** Exactly when RevokeFamily leaves no token of a family readable, up to and past the
      absolute expiry: its index set is still live, or there was nothing to read. */
  lemma RevokeEmptiesIff(a: World, steps: seq<Step>, w: World, f: FamilyId)
    requires Initial(a) && Run(a, steps, w)
    requires f in w.grants.famLog.families && f !in w.grants.famLog.revoked
    ensures var g := w.grants;
            && f in g.store.index
            && (NoneReadable(g, Revoked(g.store, w.now, f), w.now, f) <==>
                  Live(g.store.index[f], w.now) || NoneReadable(g, g.store, w.now, f))
  {
    ReachableInv(a, steps, w);
    AllIndexed(w.now, w.grants.store, w.grants.famLog, f);
    RevokedReads(w.now, w.grants, f);
  }

  lemma AllIndexed(now: nat, store: Store, log: FamilyLog, f: FamilyId)
    requires StoreInv(now, store, log) && f in log.families && f !in log.revoked
    ensures f in store.index && forall t :: InFamily(log, t, f) ==> t in store.index[f].value
  {
    assert HeadOk(log, f) && KeptOk(now, store, log, log.heads[f]);
    assert forall t :: InFamily(log, t, f) ==> KeptOk(now, store, log, t);
  }

  lemma RevokedReads(now: nat, g: Grants, f: FamilyId)
    requires f in g.store.index && forall t :: InFamily(g.famLog, t, f) ==> t in g.store.index[f].value
    ensures NoneReadable(g, Revoked(g.store, now, f), now, f) <==>
              Live(g.store.index[f], now) || NoneReadable(g, g.store, now, f)
  {
    assert !Live(g.store.index[f], now) ==> Revoked(g.store, now, f).tokens == g.store.tokens;
    assert forall t :: Readable(Revoked(g.store, now, f), now, t) ==> Readable(g.store, now, t);
  }

  /** At every instant: a token that reports reuse, presented by any authenticated client,
      is refused and has its family revoked. Before the absolute expiry that removes every
      key of the family; at any time it leaves nothing readable exactly as
      RevokeEmptiesIff says. Up to half a second before the expiry, every token but the
      fresh one reports reuse. */
  lemma ReuseKillsFamily(a: World, steps: seq<Step>, w: World, f: FamilyId, r: RefreshRequest, d: Draw)
    requires Initial(a) && Run(a, steps, w) && InFamily(w.grants.famLog, r.token, f)
    requires Authenticated(w, r.client, r.secret)
    ensures f in w.grants.famLog.families
    ensures var g, g' := w.grants, Refresh(w, r, d).1.grants;
            r.token in g.store.tokens && ReportsReuse(g.famLog, w.now, r.token) ==>
              && Refresh(w, r, d).0 == InvalidGrant
              && g' == Revoke(g, w.now, f)
              && f in g'.famLog.revoked
              && (w.now < Expiry(g.famLog, f) ==> Empty(g', f))
              && (f !in g.famLog.revoked ==>
                    && f in g.store.index
                    && (NoneReadable(g, g'.store, w.now, f) <==>
                          Live(g.store.index[f], w.now) || NoneReadable(g, g.store, w.now, f)))
    ensures (exists u :: u != r.token && InFamily(w.grants.famLog, u, f) && Consumed(w.grants.store, w.now, u).Fresh?)
            && w.now + 500 <= Expiry(w.grants.famLog, f) ==>
              r.token in w.grants.store.tokens && ReportsReuse(w.grants.famLog, w.now, r.token)
  {
    AnswerIff(a, steps, w, r.token);
    IssuedFamily(a, steps, w, r.token);
    if Consumed(w.grants.store, w.now, r.token).Reused? {
      ReusePresented(a, steps, w, f, r, d);
    }
    if u :| u != r.token && InFamily(w.grants.famLog, u, f) && Consumed(w.grants.store, w.now, u).Fresh? {
      OneUnusedToken(a, steps, w, f, u, r.token);
    }
  }

  lemma IssuedFamily(a: World, steps: seq<Step>, w: World, t: TokenId)
    requires Initial(a) && Run(a, steps, w) && t in w.grants.famLog.issued
    ensures w.grants.famLog.issued[t].payload.family in w.grants.famLog.families
    ensures t in w.grants.store.tokens ==> Presented(w, t).family == w.grants.famLog.issued[t].payload.family
  {
    ReachableInv(a, steps, w);
    assert IssueOk(w.now, w.grants.famLog, t);
    assert t in w.grants.store.tokens ==> StoredOk(w.now, w.grants.store, w.grants.famLog, t);
  }

  lemma ReusePresented(a: World, steps: seq<Step>, w: World, f: FamilyId, r: RefreshRequest, d: Draw)
    requires Initial(a) && Run(a, steps, w) && InFamily(w.grants.famLog, r.token, f)
    requires Authenticated(w, r.client, r.secret) && Consumed(w.grants.store, w.now, r.token).Reused?
    ensures f in w.grants.famLog.families
    ensures Refresh(w, r, d) == (InvalidGrant, w.(grants := Revoke(w.grants, w.now, f)))
    ensures w.now < Expiry(w.grants.famLog, f) ==> Empty(Revoke(w.grants, w.now, f), f)
    ensures f !in w.grants.famLog.revoked ==>
              && f in w.grants.store.index
              && (NoneReadable(w.grants, Revoked(w.grants.store, w.now, f), w.now, f) <==>
                    Live(w.grants.store.index[f], w.now) || NoneReadable(w.grants, w.grants.store, w.now, f))
  {
    IssuedFamily(a, steps, w, r.token);
    if f !in w.grants.famLog.revoked {
      RevokeEmptiesIff(a, steps, w, f);
    }
    if w.now < Expiry(w.grants.famLog, f) {
      ReachableInv(a, steps, w);
      RevokeEmpties(w.now, w.grants, f);
    }
  }

  // ----- family death is permanent -----

  /** The logs only grow, and a family that was revoked gets no new token. */
  ghost predicate Later(l: FamilyLog, l': FamilyLog) {
    && (forall f :: f in l.revoked ==> f in l'.revoked && l'.revoked[f] == l.revoked[f])
    && (forall t :: t in l.issued ==> t in l'.issued && l'.issued[t] == l.issued[t])
    && (forall t :: t in l'.issued && t !in l.issued ==> l'.issued[t].payload.family !in l.revoked)
    && (forall f :: f in l.families ==> f in l'.families && l'.families[f] == l.families[f])
  }

  lemma LaterTransitive(l0: FamilyLog, l1: FamilyLog, l2: FamilyLog)
    requires Later(l0, l1) && Later(l1, l2)
    ensures Later(l0, l2)
  {
  }

  /** A token that Create can still rotate belongs to a family that was not revoked. */
  lemma RotatableIsUnrevoked(w: World, t: TokenId)
    requires WorldInv(w) && t in w.grants.store.tokens && Sec(w.now) < Presented(w, t).expires
    ensures Presented(w, t).family !in w.grants.famLog.revoked
  {
    assert StoredOk(w.now, w.grants.store, w.grants.famLog, t) && IssueOk(w.now, w.grants.famLog, t);
  }

  lemma RefreshLog(w: World, r: RefreshRequest, d: Draw)
    requires d.token !in w.grants.famLog.issued
    requires r.token in w.grants.store.tokens && Sec(w.now) < Presented(w, r.token).expires ==>
               Presented(w, r.token).family !in w.grants.famLog.revoked
    ensures Later(w.grants.famLog, Refresh(w, r, d).1.grants.famLog)
  {
    RefreshCases(w, r, d);
  }

  lemma RefreshIsLater(w: World, r: RefreshRequest, d: Draw)
    requires WorldInv(w) && Enabled(w, DoRefresh(r, d))
    ensures Later(w.grants.famLog, Refresh(w, r, d).1.grants.famLog)
  {
    if r.token in w.grants.store.tokens && Sec(w.now) < Presented(w, r.token).expires {
      RotatableIsUnrevoked(w, r.token);
    }
    RefreshLog(w, r, d);
  }

  lemma ExchangeLog(w: World, r: ExchangeRequest, d: Draw)
    requires d.token !in w.grants.famLog.issued
    requires Consumable(w.grants.codes, w.now, r.code) ==>
               && w.grants.codes[r.code].family !in w.grants.famLog.families
               && w.grants.codes[r.code].family !in w.grants.famLog.revoked
    ensures Later(w.grants.famLog, Exchange(w, r, d).1.grants.famLog)
  {
    ExchangeCases(w, r, d);
  }

  lemma ExchangeIsLater(w: World, r: ExchangeRequest, d: Draw)
    requires WorldInv(w) && Enabled(w, DoExchange(r, d))
    ensures Later(w.grants.famLog, Exchange(w, r, d).1.grants.famLog)
  {
    if Consumable(w.grants.codes, w.now, r.code) {
      ConsumableIsNew(w, r.code);
    }
    ExchangeLog(w, r, d);
  }

  lemma StepIsLater(w: World, s: Step)
    requires WorldInv(w) && Enabled(w, s)
    ensures Later(w.grants.famLog, Apply(w, s).grants.famLog)
  {
    if s.DoExchange? {
      ExchangeIsLater(w, s.xreq, s.draw);
    } else if s.DoRefresh? {
      RefreshIsLater(w, s.rreq, s.draw);
    } else {
      TokenlessSteps(w, s);
    }
  }

  lemma {:induction false} RunIsLater(a: World, steps: seq<Step>, b: World)
    requires WorldInv(a) && Run(a, steps, b)
    ensures Later(a.grants.famLog, b.grants.famLog)
    decreases |steps|
  {
    if steps != [] {
      var m := Apply(a, steps[0]);
      StepKeeps(a, steps[0]);
      StepIsLater(a, steps[0]);
      RunIsLater(m, steps[1..], b);
      LaterTransitive(a.grants.famLog, m.grants.famLog, b.grants.famLog);
    }
  }

  lemma RevokedGrantsNothing(w: World, f: FamilyId)
    requires WorldInv(w) && f in w.grants.famLog.revoked
    ensures forall r, d :: Refresh(w, r, d).0.Granted? ==>
                             r.token in w.grants.store.tokens && Presented(w, r.token).family != f
    ensures forall r, d :: Exchange(w, r, d).0.Granted? ==>
                             r.code in w.grants.codes && w.grants.codes[r.code].family != f
  {
    forall r, d | Refresh(w, r, d).0.Granted?
      ensures r.token in w.grants.store.tokens && Presented(w, r.token).family != f
    {
      RefreshCases(w, r, d);
      RotatableIsUnrevoked(w, r.token);
    }
    forall r, d | Exchange(w, r, d).0.Granted?
      ensures r.code in w.grants.codes && w.grants.codes[r.code].family != f
    {
      ExchangeCases(w, r, d);
      ConsumableIsNew(w, r.code);
    }
  }

  lemma RevokedInTimeIsEmpty(w: World, f: FamilyId)
    requires WorldInv(w) && f in w.grants.famLog.revoked
    ensures f in w.grants.famLog.families && w.grants.famLog.revoked[f] < Expiry(w.grants.famLog, f) ==>
              Empty(w.grants, f)
  {
    assert forall t :: t in w.grants.store.tokens ==> StoredOk(w.now, w.grants.store, w.grants.famLog, t);
  }

  /** Once RevokeFamily(f) has been called (reuse, code replay, disabled user, cutoff),
      no continuation issues a token of f, by rotation or by exchange; and if the call
      came before the absolute expiry, no key of f is ever in the store again. */
  lemma RevokedForever(a: World, before: seq<Step>, w: World, after: seq<Step>, w': World, f: FamilyId)
    requires Initial(a) && Run(a, before, w) && Run(w, after, w')
    requires f in w.grants.famLog.revoked
    ensures forall t :: InFamily(w'.grants.famLog, t, f) ==> t in w.grants.famLog.issued
    ensures forall r, d :: Refresh(w', r, d).0.Granted? ==>
                             r.token in w'.grants.store.tokens && Presented(w', r.token).family != f
    ensures forall r, d :: Exchange(w', r, d).0.Granted? ==>
                             r.code in w'.grants.codes && w'.grants.codes[r.code].family != f
    ensures f in w.grants.famLog.families && w.grants.famLog.revoked[f] < Expiry(w.grants.famLog, f) ==>
              Empty(w'.grants, f)
  {
    ReachableInv(a, before, w);
    RunKeeps(w, after, w');
    RunIsLater(w, after, w');
    RevokedGrantsNothing(w', f);
    RevokedInTimeIsEmpty(w', f);
  }

  // ----- and exactly when nothing readable is left -----

  ghost predicate Silent(store: Store, now: nat, f: FamilyId) {
    forall t :: t in store.tokens && Live(store.tokens[t], now) ==> store.tokens[t].value.family != f
  }

  /** The family was revoked, and none of its keys answers reads. */
  ghost predicate Dead(w: World, f: FamilyId) {
    f in w.grants.famLog.revoked && Silent(w.grants.store, w.now, f)
  }

  lemma CreateKeepsSilent(store: Store, now: nat, t: TokenId, p: Payload, f: FamilyId)
    requires Silent(store, now, f) && p.family != f && Created(store, now, t, p).Some?
    ensures Silent(Created(store, now, t, p).value, now, f)
  {
  }

  lemma MarkKeepsSilent(store: Store, now: nat, t: TokenId, f: FamilyId)
    requires Silent(store, now, f)
    ensures Silent(Marked(store, now, t), now, f)
  {
  }

  lemma RevokeKeepsSilent(store: Store, now: nat, g: FamilyId, f: FamilyId)
    requires Silent(store, now, f)
    ensures Silent(Revoked(store, now, g), now, f)
  {
  }

  lemma RefreshKeepsDead(w: World, r: RefreshRequest, d: Draw, f: FamilyId)
    requires Dead(w, f)
    requires r.token in w.grants.store.tokens && Sec(w.now) < Presented(w, r.token).expires ==>
               Presented(w, r.token).family != f
    ensures Dead(Refresh(w, r, d).1, f)
  {
    RefreshCases(w, r, d);
    var store, now := w.grants.store, w.now;
    if Refresh(w, r, d).0.Granted? {
      var p, allowed := Presented(w, r.token), w.dir.clients[r.client].scopes;
      var child := ChildPayload(p, now, Narrow(p.scopes, allowed).value);
      CreateKeepsSilent(store, now, d.token, child, f);
      MarkKeepsSilent(Created(store, now, d.token, child).value, now, r.token, f);
    } else if Readable(store, now, r.token) {
      RevokeKeepsSilent(store, now, Presented(w, r.token).family, f);
    }
  }

  lemma ExchangeKeepsDead(w: World, r: ExchangeRequest, d: Draw, f: FamilyId)
    requires Dead(w, f)
    requires Consumable(w.grants.codes, w.now, r.code) ==> w.grants.codes[r.code].family != f
    ensures Dead(Exchange(w, r, d).1, f)
  {
    ExchangeCases(w, r, d);
    var g, now := w.grants, w.now;
    if Exchange(w, r, d).0.Granted? {
      var row, allowed := g.codes[r.code], w.dir.clients[r.client].scopes;
      var scopes := Narrow(row.scopes, allowed).value;
      if OFFLINE_ACCESS in scopes {
        CreateKeepsSilent(g.store, now, d.token, RootPayload(row, now, w.dir.refreshTtl, scopes), f);
      }
    } else if r.code in g.codes {
      RevokeKeepsSilent(g.store, now, g.codes[r.code].family, f);
    }
  }

  lemma StepKeepsDead(w: World, s: Step, f: FamilyId)
    requires WorldInv(w) && Enabled(w, s) && Dead(w, f)
    ensures Dead(Apply(w, s), f)
  {
    if s.DoExchange? {
      if Consumable(w.grants.codes, w.now, s.xreq.code) {
        ConsumableIsNew(w, s.xreq.code);
      }
      ExchangeKeepsDead(w, s.xreq, s.draw, f);
    } else if s.DoRefresh? {
      if s.rreq.token in w.grants.store.tokens && Sec(w.now) < Presented(w, s.rreq.token).expires {
        RotatableIsUnrevoked(w, s.rreq.token);
      }
      RefreshKeepsDead(w, s.rreq, s.draw, f);
    } else {
      TokenlessSteps(w, s);
    }
  }

  lemma {:induction false} RunKeepsDead(a: World, steps: seq<Step>, b: World, f: FamilyId)
    requires WorldInv(a) && Run(a, steps, b) && Dead(a, f)
    ensures Dead(b, f)
    decreases |steps|
  {
    if steps != [] {
      StepKeeps(a, steps[0]);
      StepKeepsDead(a, steps[0], f);
      RunKeepsDead(Apply(a, steps[0]), steps[1..], b, f);
    }
  }

  ghost predicate NeverReadableAgain(w: World, f: FamilyId) {
    forall steps, w' :: Run(w, steps, w') ==> Dead(w', f)
  }

  /** Exactly when family death is permanent, whenever the call comes: a step that calls
      RevokeFamily(f) leaves every continuation without a readable token of f if and
      only if the index set was live at the call or no token of f was readable. */
  lemma DeadForeverIff(a: World, before: seq<Step>, w: World, s: Step, f: FamilyId)
    requires Initial(a) && Run(a, before, w) && Enabled(w, s)
    requires f in w.grants.famLog.families && f !in w.grants.famLog.revoked
    requires Apply(w, s).now == w.now && Apply(w, s).grants == Revoke(w.grants, w.now, f)
    ensures f in w.grants.store.index
    ensures NeverReadableAgain(Apply(w, s), f) <==>
              Live(w.grants.store.index[f], w.now) || NoneReadable(w.grants, w.grants.store, w.now, f)
  {
    RevokeEmptiesIff(a, before, w, f);
    ReachableInv(a, before, w);
    var w1 := Apply(w, s);
    StepKeeps(w, s);
    DeadIffNoneReadable(w1, f);
    if Dead(w1, f) {
      forall steps, w' | Run(w1, steps, w') ensures Dead(w', f) {
        RunKeepsDead(w1, steps, w', f);
      }
    } else {
      assert Run(w1, [], w1);
    }
  }

  lemma DeadIffNoneReadable(w: World, f: FamilyId)
    requires WorldInv(w) && f in w.grants.famLog.revoked
    ensures Dead(w, f) <==> NoneReadable(w.grants, w.grants.store, w.now, f)
  {
    forall t | t in w.grants.store.tokens ensures Logged(w.grants.store, w.grants.famLog, t) {
      assert StoredOk(w.now, w.grants.store, w.grants.famLog, t);
    }
    SilentIff(w.grants, w.now, f);
  }

  ghost predicate Logged(store: Store, log: FamilyLog, t: TokenId)
    requires t in store.tokens
  {
    t in log.issued && log.issued[t].payload.family == store.tokens[t].value.family
  }

  lemma SilentIff(g: Grants, now: nat, f: FamilyId)
    requires forall t :: t in g.store.tokens ==> Logged(g.store, g.famLog, t)
    ensures Silent(g.store, now, f) <==> NoneReadable(g, g.store, now, f)
  {
    forall t | t in g.store.tokens && Live(g.store.tokens[t], now) && g.store.tokens[t].value.family == f
      ensures InFamily(g.famLog, t, f) && Readable(g.store, now, t)
    {
      assert Logged(g.store, g.famLog, t);
    }
    forall t | InFamily(g.famLog, t, f) && Readable(g.store, now, t) ensures g.store.tokens[t].value.family == f {
      assert Logged(g.store, g.famLog, t);
    }
  }

  // ----- sweeping never disables replay detection -----

  /** While a token of the family is stored and the absolute expiry lies ahead, the
      code row is still there and spent, unless its client was deleted. */
  lemma CodeRowOutlivesFamily(a: World, steps: seq<Step>, w: World, t: TokenId)
    requires Initial(a) && Run(a, steps, w)
    requires t in w.grants.store.tokens
    ensures var p := w.grants.store.tokens[t].value;
            && p.family in w.grants.famLog.families
            && var c := w.grants.famLog.families[p.family].code;
            && c in w.grants.codeLog.minted && w.grants.codeLog.minted[c].family == p.family
            && w.grants.codeLog.minted[c].client == p.client
            && (w.now < Expiry(w.grants.famLog, p.family) && p.client !in w.grants.codeLog.deletedClients ==>
                  c in w.grants.codes && w.grants.codes[c].used)
  {
    ReachableInv(a, steps, w);
    var g := w.grants;
    assert StoredOk(w.now, g.store, g.famLog, t);
    var f := g.store.tokens[t].value.family;
    assert FamilyOk(w.now, g.codeLog, g.famLog, f) && OwnerOk(g.codeLog, g.famLog, t);
  }

  lemma ExchangeReplays(w: World, r: ExchangeRequest, d: Draw)
    requires Authenticated(w, r.client, r.secret) && r.redirect != "" && r.verifier != ""
    requires !Consumable(w.grants.codes, w.now, r.code)
    ensures Exchange(w, r, d) == (InvalidGrant, w.(grants := CodeReplay(w.grants, w.now, r.code)))
  {
  }

  /** ... so replaying the code, by any authenticated client, empties the family. */
  lemma ReplayEmptiesFamily(a: World, steps: seq<Step>, w: World, t: TokenId, r: ExchangeRequest, d: Draw)
    requires Initial(a) && Run(a, steps, w)
    requires t in w.grants.store.tokens && Presented(w, t).client !in w.grants.codeLog.deletedClients
    requires Presented(w, t).family in w.grants.famLog.families
    requires w.now < Expiry(w.grants.famLog, Presented(w, t).family)
    requires r.code == w.grants.famLog.families[Presented(w, t).family].code
    requires Authenticated(w, r.client, r.secret) && r.redirect != "" && r.verifier != ""
    ensures Exchange(w, r, d).0 == InvalidGrant
    ensures Empty(Exchange(w, r, d).1.grants, Presented(w, t).family)
  {
    CodeRowOutlivesFamily(a, steps, w, t);
    ExchangeReplays(w, r, d);
    ReachableInv(a, steps, w);
    RevokeEmpties(w.now, w.grants, Presented(w, t).family);
  }

  /** Exactly how long the row is safe: until seven days after its expiry it is present,
      and from then on the next sweep takes it. */
  lemma SweepKeepsRowIff(a: World, steps: seq<Step>, w: World, c: CodeId)
    requires Initial(a) && Run(a, steps, w)
    requires c in w.grants.codeLog.minted && w.grants.codeLog.minted[c].client !in w.grants.codeLog.deletedClients
    ensures var safe := w.now <= w.grants.codeLog.minted[c].expiresAt + 604_800_000;
            && (safe ==> c in w.grants.codes)
            && (c in Apply(w, DoSweepCodes).grants.codes <==> safe)
  {
    ReachableInv(a, steps, w);
  }

  /** Exactly when a replay of its code, by any authenticated client, leaves no token of a
      family readable, before the absolute expiry or after: the row is there and the
      index set is live, or there was nothing to read. */
  lemma ReplayEmptiesIff(a: World, steps: seq<Step>, w: World, f: FamilyId, r: ExchangeRequest, d: Draw)
    requires Initial(a) && Run(a, steps, w)
    requires f in w.grants.famLog.families && f !in w.grants.famLog.revoked
    requires r.code == w.grants.famLog.families[f].code
    requires Authenticated(w, r.client, r.secret) && r.redirect != "" && r.verifier != ""
    ensures f in w.grants.store.index && Exchange(w, r, d).0 == InvalidGrant
    ensures NoneReadable(w.grants, Exchange(w, r, d).1.grants.store, w.now, f) <==>
              || (r.code in w.grants.codes && Live(w.grants.store.index[f], w.now))
              || NoneReadable(w.grants, w.grants.store, w.now, f)
  {
    RevokeEmptiesIff(a, steps, w, f);
    FamilyCode(a, steps, w, f);
    ExchangeReplays(w, r, d);
  }

  lemma FamilyCode(a: World, steps: seq<Step>, w: World, f: FamilyId)
    requires Initial(a) && Run(a, steps, w) && f in w.grants.famLog.families
    ensures var c := w.grants.famLog.families[f].code;
            && !Consumable(w.grants.codes, w.now, c)
            && (c in w.grants.codes ==> w.grants.codes[c].family == f)
  {
    ReachableInv(a, steps, w);
    assert FamilyOk(w.now, w.grants.codeLog, w.grants.famLog, f);
  }

  /** The 7-day retention is tight: three milliseconds less and the row of a code
      exchanged at its last instant would go while its refresh token can still be
      rotated. */
  lemma RetentionIsTight(row: CodeRow)
    requires row.expiresAt == 60_001
    ensures var codes := map[1 := row.(used := true)];
            var p := RootPayload(row, 60_000, MAX_REFRESH_TTL, [OFFLINE_ACCESS]);
            var s := Created(EMPTY, 60_000, 5, p);
            && Consumable(map[1 := row.(used := false)], 60_000, 1)
            && s.Some?
            && var now := Ticks(p.expires) - 1;
            && Rotated(s.value, now, 5, 6, ChildPayload(p, now, [OFFLINE_ACCESS])).Some?
            && 1 in Swept(codes, now, CODE_RETENTION)
            && 1 !in Swept(codes, now, CODE_RETENTION - 3)
  {
    var p := RootPayload(row, 60_000, MAX_REFRESH_TTL, [OFFLINE_ACCESS]);
    assert p.expires == 604_860;
  }

  // ----- a clock that only ticks in whole seconds -----

  /** The key of an issued token lapses at the family's absolute expiry itself. */
  ghost predicate ExactToken(store: Store, log: FamilyLog, t: TokenId)
    requires t in store.tokens
  {
    && t in log.issued && log.issued[t].payload.family in log.families
    && store.tokens[t].deadline == Expiry(log, log.issued[t].payload.family)
  }

  ghost predicate Exact(now: nat, store: Store, log: FamilyLog) {
    now % 1000 == 0 && forall t :: t in store.tokens ==> ExactToken(store, log, t)
  }

  ghost predicate ExactWorld(w: World) {
    Exact(w.now, w.grants.store, w.grants.famLog)
  }

  predicate WholeStep(s: Step) {
    s.Tick? ==> s.dt % 1000 == 0
  }

  lemma RotateStaysExact(now: nat, store: Store, log: FamilyLog, parent: TokenId, t: TokenId, p: Payload,
                         allowed: seq<Scope>)
    requires Exact(now, store, log) && t !in log.issued
    requires Consumed(store, now, parent).Fresh? && Rotated(store, now, parent, t, p).Some?
    requires p.family in log.families && p.expires == log.families[p.family].expires
    ensures Exact(now, Rotated(store, now, parent, t, p).value, LogIssue(log, now, t, Some(parent), p, allowed))
  {
    var store' := Rotated(store, now, parent, t, p).value;
    var log' := LogIssue(log, now, t, Some(parent), p, allowed);
    assert ExactToken(store, log, parent);
    var d := store.tokens[parent].deadline;
    assert d % 1000 == 0 && (d - now + 500) / 1000 == (d - now) / 1000;
    assert store'.tokens[t].deadline == Ticks(p.expires) && store'.tokens[parent].deadline == d;
    forall u | u in store'.tokens ensures ExactToken(store', log', u) {
      if u != t && u != parent {
        assert u in store.tokens && store'.tokens[u] == store.tokens[u];
        assert ExactToken(store, log, u);
      }
    }
  }

  lemma FoundStaysExact(now: nat, store: Store, log: FamilyLog, c: CodeId, t: TokenId, p: Payload, allowed: seq<Scope>)
    requires Exact(now, store, log) && t !in log.issued && p.family !in log.families
    requires Created(store, now, t, p).Some?
    ensures Exact(now, Created(store, now, t, p).value, FoundLog(log, now, c, t, p, allowed))
  {
    var store' := Created(store, now, t, p).value;
    var log' := FoundLog(log, now, c, t, p, allowed);
    forall u | u in store'.tokens ensures ExactToken(store', log', u) {
      if u != t {
        assert ExactToken(store, log, u);
      }
    }
  }

  lemma RevokeStaysExact(now: nat, store: Store, log: FamilyLog, f: FamilyId)
    requires Exact(now, store, log)
    ensures Exact(now, Revoked(store, now, f), RevokedLog(log, now, f))
  {
    forall u | u in Revoked(store, now, f).tokens
      ensures ExactToken(Revoked(store, now, f), RevokedLog(log, now, f), u)
    {
      assert ExactToken(store, log, u);
    }
  }

  lemma RefreshStaysExact(w: World, r: RefreshRequest, d: Draw)
    requires WorldInv(w) && Enabled(w, DoRefresh(r, d)) && ExactWorld(w)
    ensures ExactWorld(Apply(w, DoRefresh(r, d)))
  {
    RefreshCases(w, r, d);
    var g := w.grants;
    if Refresh(w, r, d).0.Granted? {
      assert StoredOk(w.now, g.store, g.famLog, r.token) && IssueOk(w.now, g.famLog, r.token);
      var p, allowed := Presented(w, r.token), w.dir.clients[r.client].scopes;
      RotateStaysExact(w.now, g.store, g.famLog, r.token, d.token,
                       ChildPayload(p, w.now, Narrow(p.scopes, allowed).value), allowed);
    } else if Readable(g.store, w.now, r.token) {
      RevokeStaysExact(w.now, g.store, g.famLog, Presented(w, r.token).family);
    }
  }

  lemma ExchangeMovesExact(w: World, r: ExchangeRequest, d: Draw)
    requires ExactWorld(w) && d.token !in w.grants.famLog.issued
    requires Consumable(w.grants.codes, w.now, r.code) ==> w.grants.codes[r.code].family !in w.grants.famLog.families
    ensures ExactWorld(Apply(w, DoExchange(r, d)))
  {
    ExchangeCases(w, r, d);
    var g := w.grants;
    if !Consumable(g.codes, w.now, r.code) {
      if r.code in g.codes {
        RevokeStaysExact(w.now, g.store, g.famLog, g.codes[r.code].family);
      }
    } else if Exchange(w, r, d).0.Granted? && Exchange(w, r, d).1.grants.store != g.store {
      var allowed := w.dir.clients[r.client].scopes;
      var p := RootPayload(g.codes[r.code], w.now, w.dir.refreshTtl, Narrow(g.codes[r.code].scopes, allowed).value);
      FoundStaysExact(w.now, g.store, g.famLog, r.code, d.token, p, allowed);
    }
  }

  lemma ExchangeStaysExact(w: World, r: ExchangeRequest, d: Draw)
    requires WorldInv(w) && Enabled(w, DoExchange(r, d)) && ExactWorld(w)
    ensures ExactWorld(Apply(w, DoExchange(r, d)))
  {
    if Consumable(w.grants.codes, w.now, r.code) {
      ConsumableIsNew(w, r.code);
    }
    ExchangeMovesExact(w, r, d);
  }

  lemma TokenlessStaysExact(w: World, s: Step)
    requires !s.DoExchange? && !s.DoRefresh? && WholeStep(s) && ExactWorld(w)
    ensures ExactWorld(Apply(w, s))
  {
    TokenlessSteps(w, s);
  }

  lemma StepStaysExact(w: World, s: Step)
    requires WorldInv(w) && Enabled(w, s) && WholeStep(s) && ExactWorld(w)
    ensures ExactWorld(Apply(w, s))
  {
    if s.DoExchange? {
      ExchangeStaysExact(w, s.xreq, s.draw);
    } else if s.DoRefresh? {
      RefreshStaysExact(w, s.rreq, s.draw);
    } else {
      TokenlessStaysExact(w, s);
    }
  }

  lemma {:induction false} RunStaysExact(a: World, steps: seq<Step>, b: World)
    requires WorldInv(a) && Run(a, steps, b) && (forall s :: s in steps ==> WholeStep(s))
    requires ExactWorld(a)
    ensures ExactWorld(b)
    decreases |steps|
  {
    if steps != [] {
      StepKeeps(a, steps[0]);
      StepStaysExact(a, steps[0]);
      RunStaysExact(Apply(a, steps[0]), steps[1..], b);
    }
  }

  ghost predicate WholeSecondRun(a: World, steps: seq<Step>, w: World) {
    Initial(a) && a.now % 1000 == 0 && Run(a, steps, w) && forall s :: s in steps ==> WholeStep(s)
  }

  lemma StoredFacts(a: World, steps: seq<Step>, w: World, t: TokenId)
    requires Initial(a) && Run(a, steps, w) && t in w.grants.store.tokens
    ensures InFamily(w.grants.famLog, t, Presented(w, t).family)
    ensures Presented(w, t).family in w.grants.famLog.families
  {
    ReachableInv(a, steps, w);
    assert StoredOk(w.now, w.grants.store, w.grants.famLog, t);
  }

  lemma WholeSecondExact(a: World, steps: seq<Step>, w: World)
    requires WholeSecondRun(a, steps, w)
    ensures ExactWorld(w)
  {
    ReachableInv(a, [], a);
    RunStaysExact(a, steps, w);
  }

  lemma LiveMeansEarly(a: World, steps: seq<Step>, w: World, t: TokenId)
    requires WholeSecondRun(a, steps, w) && Readable(w.grants.store, w.now, t)
    ensures InFamily(w.grants.famLog, t, Presented(w, t).family)
    ensures Presented(w, t).family in w.grants.famLog.families
    ensures w.now + 1000 <= Expiry(w.grants.famLog, Presented(w, t).family)
  {
    StoredFacts(a, steps, w, t);
    WholeSecondExact(a, steps, w);
    assert ExactToken(w.grants.store, w.grants.famLog, t);
  }

  /** With a whole-second clock the family laws hold up to the end. At most one unused
      live token, and every other token of its family is reported as reuse ... */
  lemma WholeSecondReuse(a: World, steps: seq<Step>, w: World, f: FamilyId, u: TokenId, t: TokenId)
    requires WholeSecondRun(a, steps, w)
    requires InFamily(w.grants.famLog, u, f) && InFamily(w.grants.famLog, t, f) && t != u
    requires Consumed(w.grants.store, w.now, u).Fresh?
    ensures Consumed(w.grants.store, w.now, t).Reused?
  {
    LiveMeansEarly(a, steps, w, u);
    OneUnusedToken(a, steps, w, f, u, t);
  }

  /** ... no token of a revoked family is live, whenever it was revoked ... */
  lemma WholeSecondRevoked(a: World, steps: seq<Step>, w: World, f: FamilyId, t: TokenId)
    requires WholeSecondRun(a, steps, w)
    requires f in w.grants.famLog.revoked && InFamily(w.grants.famLog, t, f)
    ensures Consumed(w.grants.store, w.now, t).Unknown?
  {
    ReachableInv(a, steps, w);
    if Readable(w.grants.store, w.now, t) {
      LiveMeansEarly(a, steps, w, t);
    }
    assert forall u :: u in w.grants.store.tokens ==> StoredOk(w.now, w.grants.store, w.grants.famLog, u);
  }

  /** ... and the code row is present as long as any token of the family is live. */
  lemma WholeSecondReplay(a: World, steps: seq<Step>, w: World, t: TokenId)
    requires WholeSecondRun(a, steps, w)
    requires Readable(w.grants.store, w.now, t) && Presented(w, t).client !in w.grants.codeLog.deletedClients
    ensures Presented(w, t).family in w.grants.famLog.families
    ensures w.grants.famLog.families[Presented(w, t).family].code in w.grants.codes
  {
    LiveMeansEarly(a, steps, w, t);
    CodeRowOutlivesFamily(a, steps, w, t);
  }
}
