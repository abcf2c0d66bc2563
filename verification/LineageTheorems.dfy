/** Where every token comes from: one exchange of one code, through an unbounded chain
    of rotations. */
module LineageTheorems {
  import opened Prelude
  import opened Scopes
  import opened RefreshStore
  import opened AuthCodes
  import opened World
  import opened Families
  import opened FamilyTheorems

  /** A token is its family's root or the child of an earlier token of the family, with
      scopes narrowed from the parent's; always with scopes narrowed from the code's. */
  ghost predicate BirthOk(codes: CodeLog, log: FamilyLog, t: TokenId)
    requires t in log.issued
  {
    var i, f := log.issued[t], log.issued[t].payload.family;
    && i.rank < log.count
    && (forall x :: x in i.payload.scopes ==> x in i.allowed)
    && f in log.families && log.families[f].code in codes.minted
    && Subsequence(i.payload.scopes, codes.minted[log.families[f].code].scopes)
    && match i.parent
       case None => log.families[f].root == t
       case Some(q) =>
         && q in log.issued && log.issued[q].rank < i.rank
         && log.issued[q].payload.family == f
         && Subsequence(i.payload.scopes, log.issued[q].payload.scopes)
  }

  ghost predicate RootOk(log: FamilyLog, f: FamilyId)
    requires f in log.families
  {
    var t := log.families[f].root;
    t in log.issued && log.issued[t].parent.None? && log.issued[t].payload.family == f
  }

  ghost predicate LineageInv(codes: CodeLog, log: FamilyLog, access: map<nat, Access>) {
    && (forall t :: t in log.issued ==> BirthOk(codes, log, t))
    && (forall f :: f in log.families ==> RootOk(log, f))
    && (forall j :: j in access ==> AccessOk(codes, access[j]))
  }

  /** An access token goes back to an exchanged code: its user, its client, and no
      scope beyond. */
  ghost predicate AccessOk(codes: CodeLog, a: Access) {
    && a.code in codes.exchanged && a.code in codes.minted
    && a.user == codes.minted[a.code].user && a.client == codes.minted[a.code].client
    && Subsequence(a.scopes, codes.minted[a.code].scopes)
  }

  ghost predicate WorldLineage(w: World) {
    LineageInv(w.grants.codeLog, w.grants.famLog, w.access)
  }

  lemma CodesGrow(codes: CodeLog, codes': CodeLog, log: FamilyLog, access: map<nat, Access>)
    requires LineageInv(codes, log, access)
    requires forall c :: c in codes.minted ==> c in codes'.minted && codes'.minted[c] == codes.minted[c]
    requires codes.exchanged <= codes'.exchanged
    ensures LineageInv(codes', log, access)
  {
    forall t | t in log.issued ensures BirthOk(codes', log, t) {
      assert BirthOk(codes, log, t);
    }
    forall j | j in access ensures AccessOk(codes', access[j]) {
      assert AccessOk(codes, access[j]);
    }
  }

  lemma RotateKeepsLineage(codes: CodeLog, log: FamilyLog, now: nat, parent: TokenId, t: TokenId, p: Payload,
                           allowed: seq<Scope>)
    requires LineageInv(codes, log, map[]) && t !in log.issued && parent in log.issued
    requires p.family == log.issued[parent].payload.family
    requires Subsequence(p.scopes, log.issued[parent].payload.scopes)
    requires forall x :: x in p.scopes ==> x in allowed
    ensures LineageInv(codes, LogIssue(log, now, t, Some(parent), p, allowed), map[])
  {
    var log' := LogIssue(log, now, t, Some(parent), p, allowed);
    assert BirthOk(codes, log, parent);
    SubsequenceTransitive(p.scopes, log.issued[parent].payload.scopes,
                          codes.minted[log.families[p.family].code].scopes);
    forall u | u in log'.issued ensures BirthOk(codes, log', u) {
      if u != t { assert BirthOk(codes, log, u); }
    }
    forall f | f in log'.families ensures RootOk(log', f) {
      assert RootOk(log, f);
    }
  }

  lemma FoundKeepsLineage(codes: CodeLog, log: FamilyLog, now: nat, c: CodeId, t: TokenId, p: Payload,
                          allowed: seq<Scope>)
    requires LineageInv(codes, log, map[]) && t !in log.issued && p.family !in log.families
    requires c in codes.minted && Subsequence(p.scopes, codes.minted[c].scopes)
    requires forall x :: x in p.scopes ==> x in allowed
    ensures LineageInv(codes, FoundLog(log, now, c, t, p, allowed), map[])
  {
    var log' := FoundLog(log, now, c, t, p, allowed);
    forall u | u in log'.issued ensures BirthOk(codes, log', u) {
      if u != t { assert BirthOk(codes, log, u); }
    }
    forall f | f in log'.families ensures RootOk(log', f) {
      if f != p.family { assert RootOk(log, f); }
    }
  }

  lemma RefreshKeepsLineage(w: World, r: RefreshRequest, d: Draw)
    requires WorldLineage(w) && d.token !in w.grants.famLog.issued
    requires r.token in w.grants.store.tokens ==> Known(w, r.token)
    ensures WorldLineage(Refresh(w, r, d).1)
  {
    RefreshCases(w, r, d);
    var g := w.grants;
    if Refresh(w, r, d).0.Granted? {
      var p, allowed := Presented(w, r.token), w.dir.clients[r.client].scopes;
      NarrowExact(p.scopes, allowed);
      var child := ChildPayload(p, w.now, Narrow(p.scopes, allowed).value);
      RotateKeepsLineage(g.codeLog, g.famLog, w.now, r.token, d.token, child, allowed);
      assert BirthOk(g.codeLog, g.famLog, r.token);
      SubsequenceTransitive(child.scopes, p.scopes, g.codeLog.minted[g.famLog.families[p.family].code].scopes);
      SignedKeeps(g.codeLog, w.access, d.jti,
                  SignAccess(w, p.user, p.client, child.scopes, d.kid.value, CodeOf(g.famLog, p.family)));
    } else {
      RevokeKeepsLineage(w, Refresh(w, r, d).1);
    }
  }

  lemma SignedKeeps(codes: CodeLog, access: map<nat, Access>, j: nat, a: Access)
    requires (forall k :: k in access ==> AccessOk(codes, access[k])) && AccessOk(codes, a)
    ensures var access' := access[j := a];
            forall k :: k in access' ==> AccessOk(codes, access'[k])
  {
  }

  /** Facts about a stored token that the family invariant provides. */
  ghost predicate Known(w: World, t: TokenId)
    requires t in w.grants.store.tokens
  {
    var log, p := w.grants.famLog, Presented(w, t);
    && t in log.issued && p.family in log.families
    && log.issued[t].payload.scopes == p.scopes && log.issued[t].payload.family == p.family
    && var c, codes := log.families[p.family].code, w.grants.codeLog;
    && c in codes.exchanged && c in codes.minted
    && p.user == codes.minted[c].user && p.client == codes.minted[c].client
  }

  lemma RevokeKeepsLineage(w: World, w': World)
    requires WorldLineage(w)
    requires w'.grants.famLog == w.grants.famLog.(revoked := w'.grants.famLog.revoked)
    requires w'.grants.codeLog == w.grants.codeLog && w'.access == w.access
    ensures WorldLineage(w')
  {
    forall t | t in w'.grants.famLog.issued ensures BirthOk(w'.grants.codeLog, w'.grants.famLog, t) {
      assert BirthOk(w.grants.codeLog, w.grants.famLog, t);
    }
    forall f | f in w'.grants.famLog.families ensures RootOk(w'.grants.famLog, f) {
      assert RootOk(w.grants.famLog, f);
    }
  }

  lemma ExchangeKeepsLineage(w: World, r: ExchangeRequest, d: Draw)
    requires WorldLineage(w) && d.token !in w.grants.famLog.issued
    requires Consumable(w.grants.codes, w.now, r.code) ==>
               && w.grants.codes[r.code].family !in w.grants.famLog.families
               && r.code in w.grants.codeLog.minted
               && w.grants.codes[r.code].(used := false) == w.grants.codeLog.minted[r.code]
    ensures WorldLineage(Exchange(w, r, d).1)
  {
    ExchangeCases(w, r, d);
    var g := w.grants;
    var w' := Exchange(w, r, d).1;
    if !Consumable(g.codes, w.now, r.code) {
      RevokeKeepsLineage(w, w');
    } else if Exchange(w, r, d).0.Granted? {
      var row, allowed := g.codes[r.code], w.dir.clients[r.client].scopes;
      NarrowExact(row.scopes, allowed);
      var scopes := Narrow(row.scopes, allowed).value;
      CodesGrow(g.codeLog, Redeem(g, r.code).codeLog, g.famLog, w.access);
      SignedKeeps(Redeem(g, r.code).codeLog, w.access, d.jti,
                  SignAccess(w, row.user, row.client, scopes, d.kid.value, r.code));
      if OFFLINE_ACCESS in scopes {
        FoundKeepsLineage(Redeem(g, r.code).codeLog, g.famLog, w.now, r.code, d.token,
                          RootPayload(row, w.now, w.dir.refreshTtl, scopes), allowed);
      }
    } else {
      CodesGrow(g.codeLog, w'.grants.codeLog, g.famLog, w.access);
    }
  }

  lemma StoredIsKnown(w: World, t: TokenId)
    requires WorldInv(w) && t in w.grants.store.tokens
    ensures Known(w, t)
  {
    assert StoredOk(w.now, w.grants.store, w.grants.famLog, t);
    assert FamilyOk(w.now, w.grants.codeLog, w.grants.famLog, Presented(w, t).family);
    assert OwnerOk(w.grants.codeLog, w.grants.famLog, t);
  }

  lemma OtherStepsKeepLineage(w: World, s: Step)
    requires WorldLineage(w) && Enabled(w, s) && !s.DoExchange? && !s.DoRefresh?
    ensures WorldLineage(Apply(w, s))
  {
    TokenlessSteps(w, s);
    CodesGrow(w.grants.codeLog, Apply(w, s).grants.codeLog, w.grants.famLog, w.access);
  }

  lemma StepKeepsLineage(w: World, s: Step)
    requires WorldInv(w) && WorldLineage(w) && Enabled(w, s)
    ensures WorldLineage(Apply(w, s))
  {
    if s.DoExchange? {
      if Consumable(w.grants.codes, w.now, s.xreq.code) {
        ConsumableIsNew(w, s.xreq.code);
      }
      ExchangeKeepsLineage(w, s.xreq, s.draw);
    } else if s.DoRefresh? {
      if s.rreq.token in w.grants.store.tokens {
        StoredIsKnown(w, s.rreq.token);
      }
      RefreshKeepsLineage(w, s.rreq, s.draw);
    } else {
      OtherStepsKeepLineage(w, s);
    }
  }

  lemma {:induction false} RunKeepsLineage(a: World, steps: seq<Step>, b: World)
    requires WorldInv(a) && WorldLineage(a) && Run(a, steps, b)
    ensures WorldLineage(b)
    decreases |steps|
  {
    if steps != [] {
      StepKeeps(a, steps[0]);
      StepKeepsLineage(a, steps[0]);
      RunKeepsLineage(Apply(a, steps[0]), steps[1..], b);
    }
  }

  lemma ReachableLineage(a: World, steps: seq<Step>, w: World)
    requires Initial(a) && Run(a, steps, w)
    ensures WorldLineage(w)
  {
    ReachableInv(a, [], a);
    RunKeepsLineage(a, steps, w);
  }

  // ----- the chain -----

  /** t's first ancestor. */
  ghost function RootOf(log: FamilyLog, t: TokenId): TokenId
    requires t in log.issued
    decreases log.issued[t].rank
  {
    match log.issued[t].parent
    case None => t
    case Some(q) => if q in log.issued && log.issued[q].rank < log.issued[t].rank then RootOf(log, q) else t
  }

  lemma {:induction false} ChainNarrows(codes: CodeLog, log: FamilyLog, t: TokenId)
    requires t in log.issued && forall u :: u in log.issued ==> BirthOk(codes, log, u)
    ensures var r := RootOf(log, t);
            && r in log.issued && log.issued[r].parent.None?
            && log.issued[r].payload.family == log.issued[t].payload.family
            && Subsequence(log.issued[t].payload.scopes, log.issued[r].payload.scopes)
    decreases log.issued[t].rank
  {
    assert BirthOk(codes, log, t);
    var i := log.issued[t];
    if i.parent.None? {
      SubsequenceReflexive(i.payload.scopes);
    } else {
      var q := i.parent.value;
      ChainNarrows(codes, log, q);
      SubsequenceTransitive(i.payload.scopes, log.issued[q].payload.scopes,
                            log.issued[RootOf(log, q)].payload.scopes);
    }
  }

  /** Every refresh token ever issued descends from exactly one root, issued by the one
      exchange of one code; it has that code's user and client and the root's absolute
      expiry; and its scopes are a subsequence of its parent's, of the root's and of the
      code's, all of them allowed to the client when it was issued. */
  lemma Lineage(a: World, steps: seq<Step>, w: World, t: TokenId)
    requires Initial(a) && Run(a, steps, w)
    requires t in w.grants.famLog.issued
    ensures var log, codes := w.grants.famLog, w.grants.codeLog;
            var p, r := log.issued[t].payload, RootOf(log, t);
            && r in log.issued && log.issued[r].parent.None? && log.issued[r].payload.family == p.family
            && (forall r' :: InFamily(log, r', p.family) && log.issued[r'].parent.None? ==> r' == r)
            && p.family in log.families && log.families[p.family].root == r
            && var c := log.families[p.family].code;
            && c in codes.minted && codes.minted[c].family == p.family && c in codes.exchanged
            && p.user == codes.minted[c].user && p.client == codes.minted[c].client
            && p.expires == log.issued[r].payload.expires
            && Subsequence(p.scopes, log.issued[r].payload.scopes)
            && Subsequence(p.scopes, codes.minted[c].scopes)
            && (forall x :: x in p.scopes ==> x in log.issued[t].allowed)
            && (log.issued[t].parent.Some? ==>
                  && log.issued[t].parent.value in log.issued
                  && Subsequence(p.scopes, log.issued[log.issued[t].parent.value].payload.scopes))
  {
    ReachableLineage(a, steps, w);
    var log, codes := w.grants.famLog, w.grants.codeLog;
    var p, r := log.issued[t].payload, RootOf(log, t);
    ChainNarrows(codes, log, t);
    IssueFacts(a, steps, w, t);
    IssueFacts(a, steps, w, r);
    assert BirthOk(codes, log, t) && BirthOk(codes, log, r);
    forall r' | InFamily(log, r', p.family) && log.issued[r'].parent.None? ensures r' == r {
      assert BirthOk(codes, log, r');
    }
  }

  /** Every access token ever signed goes back to one exchanged code: it has that code's
      user and client, and its scopes are a subsequence of the code's. */
  lemma AccessLineage(a: World, steps: seq<Step>, w: World, j: nat)
    requires Initial(a) && Run(a, steps, w) && j in w.access
    ensures AccessOk(w.grants.codeLog, w.access[j])
  {
    ReachableLineage(a, steps, w);
  }

  lemma IssueFacts(a: World, steps: seq<Step>, w: World, t: TokenId)
    requires Initial(a) && Run(a, steps, w) && t in w.grants.famLog.issued
    ensures IssueOk(w.now, w.grants.famLog, t) && OwnerOk(w.grants.codeLog, w.grants.famLog, t)
    ensures FamilyOk(w.now, w.grants.codeLog, w.grants.famLog, w.grants.famLog.issued[t].payload.family)
  {
    ReachableInv(a, steps, w);
    assert IssueOk(w.now, w.grants.famLog, t) && OwnerOk(w.grants.codeLog, w.grants.famLog, t);
  }

  /** A code spent on a client, redirect, PKCE, user, grant or scope mismatch never
      yields a token, access or refresh; and no code founds two families. */
  lemma BurntCodesYieldNothing(a: World, steps: seq<Step>, w: World, c: CodeId)
    requires Initial(a) && Run(a, steps, w)
    ensures c in w.grants.codeLog.burnt ==>
              && (forall j :: j in w.access ==> w.access[j].code != c)
              && (forall f :: f in w.grants.famLog.families ==> w.grants.famLog.families[f].code != c)
              && (forall r, d :: Exchange(w, r, d).0.Granted? ==> r.code != c)
    ensures var fams := w.grants.famLog.families;
            forall f, h :: f in fams && h in fams && fams[f].code == fams[h].code ==> f == h
  {
    ReachableInv(a, steps, w);
    ReachableLineage(a, steps, w);
    var g := w.grants;
    forall f | f in g.famLog.families
      ensures g.famLog.families[f].code in g.codeLog.exchanged
      ensures g.famLog.families[f].code in g.codeLog.minted && g.codeLog.minted[g.famLog.families[f].code].family == f
    {
      assert FamilyOk(w.now, g.codeLog, g.famLog, f);
    }
    forall r, d | Exchange(w, r, d).0.Granted? ensures r.code in g.codes && !g.codes[r.code].used {
      ExchangeCases(w, r, d);
    }
  }
}
