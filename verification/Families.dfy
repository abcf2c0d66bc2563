/** What every step keeps about codes, refresh-token families and their index sets. */
module Families {
  import opened Prelude
  import opened Scopes
  import opened RefreshStore
  import opened AuthCodes
  import opened World

  /** The family's absolute expiry, in ticks. */
  function Expiry(log: FamilyLog, f: FamilyId): nat
    requires f in log.families
  {
    Ticks(log.families[f].expires)
  }

  // ----- the code table -----

  ghost predicate Minted(log: CodeLog, f: FamilyId) {
    exists c :: c in log.minted && log.minted[c].family == f
  }

  /** Rows are the minted rows with `used` possibly set; a code that was exchanged or
      burnt is set; a row leaves the table only by ageing out or with its client; a
      revoked family's code can no longer be exchanged. */
  ghost predicate CodeInv(now: nat, codes: Codes, log: CodeLog, revoked: map<FamilyId, nat>) {
    && (forall c :: c in codes ==> c in log.minted && codes[c].(used := false) == log.minted[c])
    && (forall c :: c in codes && (c in log.exchanged || c in log.burnt) ==> codes[c].used)
    && (forall c, d :: c in log.minted && d in log.minted && log.minted[c].family == log.minted[d].family ==> c == d)
    && (forall c :: c in log.exchanged ==> c in log.minted)
    && (forall c :: c in log.burnt ==> c in log.minted && c !in log.exchanged)
    && (forall c :: c in log.minted && c !in codes ==>
                      log.minted[c].expiresAt + CODE_RETENTION < now || log.minted[c].client in log.deletedClients)
    && (forall f :: f in revoked ==> revoked[f] <= now && Minted(log, f))
    && (forall c :: c in codes && codes[c].family in revoked ==> codes[c].used || codes[c].expiresAt <= now)
  }

  /** A family exists from the successful exchange of its code on, and all its tokens
      belong to the user and client of that code. */
  ghost predicate FamilyOk(now: nat, codes: CodeLog, log: FamilyLog, f: FamilyId)
    requires f in log.families
  {
    var fam := log.families[f];
    && fam.code in codes.minted && codes.minted[fam.code].family == f
    && fam.code in codes.exchanged
    && fam.exchangedAt <= now && fam.exchangedAt < codes.minted[fam.code].expiresAt
    && fam.expires <= Sec(fam.exchangedAt) + MAX_REFRESH_TTL
  }

  ghost predicate OwnerOk(codes: CodeLog, log: FamilyLog, t: TokenId)
    requires t in log.issued
  {
    var p := log.issued[t].payload;
    && p.family in log.families && log.families[p.family].code in codes.minted
    && p.user == codes.minted[log.families[p.family].code].user
    && p.client == codes.minted[log.families[p.family].code].client
  }

  ghost predicate LinkInv(now: nat, codes: CodeLog, log: FamilyLog) {
    && (forall f :: f in log.families ==> FamilyOk(now, codes, log, f))
    && (forall t :: t in log.issued ==> OwnerOk(codes, log, t))
  }

  // ----- the refresh store -----

  ghost predicate IssueOk(now: nat, log: FamilyLog, t: TokenId)
    requires t in log.issued
  {
    var p := log.issued[t].payload;
    && p.family in log.families && p.expires == log.families[p.family].expires
    && p.createdAt <= Sec(now) && p.expires <= p.createdAt + MAX_REFRESH_TTL
    && !p.used
  }

  ghost predicate HeadOk(log: FamilyLog, f: FamilyId) {
    f in log.heads && log.heads[f] in log.issued && log.issued[log.heads[f]].payload.family == f
  }

  /** A stored key holds the payload as issued, and cannot outlive the absolute
      expiry by more than a second and a half. */
  ghost predicate StoredOk(now: nat, store: Store, log: FamilyLog, t: TokenId)
    requires t in store.tokens
  {
    && t in log.issued && log.issued[t].payload.family in log.families
    && store.tokens[t].value.(used := false) == log.issued[t].payload
    && var f := log.issued[t].payload.family;
    && store.tokens[t].deadline < Expiry(log, f) + 1500
    && (!store.tokens[t].value.used ==> store.tokens[t].deadline < Expiry(log, f) + 1000)
    && (f in log.revoked ==> Expiry(log, f) <= log.revoked[f] <= now)
  }

  /** Until it is revoked, a family keeps every token it ever issued, indexed; the
      newest is unused, and the others are flagged used until the last half second. */
  ghost predicate KeptOk(now: nat, store: Store, log: FamilyLog, t: TokenId)
    requires t in log.issued
  {
    var f := log.issued[t].payload.family;
    f !in log.revoked ==>
      && f in log.families && t in store.tokens && f in store.index
      && t in store.index[f].value && Expiry(log, f) <= store.index[f].deadline
      && Expiry(log, f) < store.tokens[t].deadline + 500
      && (!store.tokens[t].value.used ==> Expiry(log, f) <= store.tokens[t].deadline)
      && f in log.heads
      && (t == log.heads[f] ==> !store.tokens[t].value.used)
      && (t != log.heads[f] && now + 500 <= Expiry(log, f) ==> store.tokens[t].value.used)
  }

  ghost predicate IndexOk(store: Store, log: FamilyLog) {
    forall f, t :: f in store.index && t in store.index[f].value ==>
                     t in log.issued && log.issued[t].payload.family == f
  }

  ghost predicate StoreInv(now: nat, store: Store, log: FamilyLog) {
    && (forall f :: f in log.families ==> HeadOk(log, f))
    && (forall t :: t in log.issued ==> IssueOk(now, log, t))
    && (forall t :: t in store.tokens ==> StoredOk(now, store, log, t))
    && (forall t :: t in log.issued ==> KeptOk(now, store, log, t))
    && IndexOk(store, log)
  }

  ghost predicate Inv(now: nat, g: Grants) {
    && CodeInv(now, g.codes, g.codeLog, g.famLog.revoked)
    && LinkInv(now, g.codeLog, g.famLog)
    && StoreInv(now, g.store, g.famLog)
  }

  // ----- the transitions -----

  lemma TickKeepsStore(now: nat, later: nat, store: Store, log: FamilyLog)
    requires StoreInv(now, store, log) && now <= later
    ensures StoreInv(later, store, log)
  {
    forall t | t in log.issued ensures IssueOk(later, log, t) && KeptOk(later, store, log, t) {
      assert IssueOk(now, log, t) && KeptOk(now, store, log, t);
    }
    forall t | t in store.tokens ensures StoredOk(later, store, log, t) {
      assert StoredOk(now, store, log, t);
    }
  }

  lemma TickKeeps(now: nat, later: nat, g: Grants)
    requires Inv(now, g) && now <= later
    ensures Inv(later, g)
  {
    TickKeepsStore(now, later, g.store, g.famLog);
    forall f | f in g.famLog.families ensures FamilyOk(later, g.codeLog, g.famLog, f) {
      assert FamilyOk(now, g.codeLog, g.famLog, f);
    }
  }

  /** Logging more codes, and more exchanges, keeps the link. */
  lemma LinkGrows(now: nat, codes: CodeLog, codes': CodeLog, log: FamilyLog)
    requires LinkInv(now, codes, log)
    requires forall c :: c in codes.minted ==> c in codes'.minted && codes'.minted[c] == codes.minted[c]
    requires codes.exchanged <= codes'.exchanged
    ensures LinkInv(now, codes', log)
  {
    forall f | f in log.families ensures FamilyOk(now, codes', log, f) {
      assert FamilyOk(now, codes, log, f);
    }
    forall t | t in log.issued ensures OwnerOk(codes', log, t) {
      assert OwnerOk(codes, log, t);
    }
  }

  lemma MintKeepsCodes(now: nat, codes: Codes, log: CodeLog, revoked: map<FamilyId, nat>, c: CodeId, row: CodeRow)
    requires CodeInv(now, codes, log, revoked) && c !in log.minted && !row.used
    requires forall k :: k in log.minted ==> log.minted[k].family != row.family
    ensures CodeInv(now, codes[c := row], log.(minted := log.minted[c := row]), revoked)
  {
    var log' := log.(minted := log.minted[c := row]);
    forall f | f in revoked ensures Minted(log', f) && f != row.family {
      var k :| k in log.minted && log.minted[k].family == f;
      assert k in log'.minted && log'.minted[k].family == f;
    }
  }

  lemma MintKeeps(now: nat, g: Grants, c: CodeId, row: CodeRow)
    requires Inv(now, g) && c !in g.codeLog.minted && !row.used
    requires forall k :: k in g.codeLog.minted ==> g.codeLog.minted[k].family != row.family
    ensures Inv(now, Mint(g, c, row))
  {
    MintKeepsCodes(now, g.codes, g.codeLog, g.famLog.revoked, c, row);
    LinkGrows(now, g.codeLog, Mint(g, c, row).codeLog, g.famLog);
  }

  lemma BurnKeeps(now: nat, g: Grants, c: CodeId)
    requires Inv(now, g) && Consumable(g.codes, now, c)
    ensures Inv(now, Burn(g, c))
  {
    LinkGrows(now, g.codeLog, Burn(g, c).codeLog, g.famLog);
    assert c !in g.codeLog.exchanged;
    forall f | f in g.famLog.revoked ensures Minted(Burn(g, c).codeLog, f) {
      assert Minted(g.codeLog, f);
    }
  }

  lemma RedeemKeeps(now: nat, g: Grants, c: CodeId)
    requires Inv(now, g) && Consumable(g.codes, now, c)
    ensures Inv(now, Redeem(g, c))
  {
    LinkGrows(now, g.codeLog, Redeem(g, c).codeLog, g.famLog);
    assert c !in g.codeLog.burnt;
    forall f | f in g.famLog.revoked ensures Minted(Redeem(g, c).codeLog, f) {
      assert Minted(g.codeLog, f);
    }
  }

  lemma SweepKeeps(now: nat, g: Grants)
    requires Inv(now, g)
    ensures Inv(now, SweepCodes(g, now))
  {
  }

  lemma CascadeKeeps(now: nat, g: Grants, c: ClientId)
    requires Inv(now, g)
    ensures Inv(now, CascadeClient(g, c))
  {
    LinkGrows(now, g.codeLog, CascadeClient(g, c).codeLog, g.famLog);
    forall f | f in g.famLog.revoked ensures Minted(CascadeClient(g, c).codeLog, f) {
      assert Minted(g.codeLog, f);
    }
  }

  /** RevokeFamily before the absolute expiry leaves no token of the family behind. */
  lemma RevokeKeepsToken(now: nat, store: Store, log: FamilyLog, f: FamilyId, t: TokenId)
    requires IndexOk(store, log) && t in log.issued && KeptOk(now, store, log, t)
    ensures KeptOk(now, Revoked(store, now, f), RevokedLog(log, now, f), t)
    ensures t in store.tokens && StoredOk(now, store, log, t) && t in Revoked(store, now, f).tokens ==>
              StoredOk(now, Revoked(store, now, f), RevokedLog(log, now, f), t)
  {
  }

  lemma RevokeKeepsStore(now: nat, store: Store, log: FamilyLog, f: FamilyId)
    requires StoreInv(now, store, log)
    ensures StoreInv(now, Revoked(store, now, f), RevokedLog(log, now, f))
  {
    var store', log' := Revoked(store, now, f), RevokedLog(log, now, f);
    forall k | k in log'.families ensures HeadOk(log', k) {
      assert HeadOk(log, k);
    }
    forall t | t in log'.issued ensures IssueOk(now, log', t) && KeptOk(now, store', log', t) {
      assert IssueOk(now, log, t);
      RevokeKeepsToken(now, store, log, f, t);
    }
    forall t | t in store'.tokens ensures StoredOk(now, store', log', t) {
      assert StoredOk(now, store, log, t);
      RevokeKeepsToken(now, store, log, f, t);
    }
  }

  lemma RevokeKeeps(now: nat, g: Grants, f: FamilyId)
    requires Inv(now, g) && Minted(g.codeLog, f)
    requires forall c :: c in g.codes && g.codes[c].family == f ==> g.codes[c].used || g.codes[c].expiresAt <= now
    ensures Inv(now, Revoke(g, now, f))
  {
    var g' := Revoke(g, now, f);
    RevokeKeepsStore(now, g.store, g.famLog, f);
    forall k | k in g.famLog.families ensures FamilyOk(now, g'.codeLog, g'.famLog, k) {
      assert FamilyOk(now, g.codeLog, g.famLog, k);
    }
    forall t | t in g.famLog.issued ensures OwnerOk(g'.codeLog, g'.famLog, t) {
      assert OwnerOk(g.codeLog, g.famLog, t);
    }
  }

  lemma ReplayKeeps(now: nat, g: Grants, c: CodeId)
    requires Inv(now, g) && !Consumable(g.codes, now, c)
    ensures Inv(now, CodeReplay(g, now, c))
  {
    if c in g.codes {
      var f := g.codes[c].family;
      assert c in g.codeLog.minted && g.codeLog.minted[c].family == f;
      forall k | k in g.codes && g.codes[k].family == f ensures g.codes[k].used || g.codes[k].expiresAt <= now {
        assert k in g.codeLog.minted && g.codeLog.minted[k].family == f;
      }
      RevokeKeeps(now, g, f);
    }
  }

  /** Revoking the family of a token that is in the store. */
  lemma RevokeStoredKeeps(now: nat, g: Grants, t: TokenId)
    requires Inv(now, g) && t in g.store.tokens
    ensures Inv(now, Revoke(g, now, g.store.tokens[t].value.family))
  {
    var f := g.store.tokens[t].value.family;
    assert StoredOk(now, g.store, g.famLog, t);
    assert FamilyOk(now, g.codeLog, g.famLog, f);
    var code := g.famLog.families[f].code;
    forall c | c in g.codes && g.codes[c].family == f ensures g.codes[c].used {
      assert c in g.codeLog.minted && g.codeLog.minted[c].family == f;
      assert c == code;
    }
    RevokeKeeps(now, g, f);
  }

  // ----- a family's first token -----

  /** A new family: no token, revocation or record of it exists yet. */
  ghost predicate Founding(now: nat, log: FamilyLog, t: TokenId, p: Payload) {
    && t !in log.issued
    && p.family !in log.families && p.family !in log.revoked
    && !p.used && p.createdAt == Sec(now) < p.expires <= Sec(now) + MAX_REFRESH_TTL
  }

  lemma FoundKeepsToken(now: nat, store: Store, log: FamilyLog, c: CodeId, t: TokenId, p: Payload,
                        allowed: seq<Scope>, u: TokenId)
    requires Founding(now, log, t, p)
    requires u == t || (u in log.issued && IssueOk(now, log, u) && KeptOk(now, store, log, u))
    ensures Created(store, now, t, p).Some?
    ensures IssueOk(now, FoundLog(log, now, c, t, p, allowed), u)
    ensures KeptOk(now, Created(store, now, t, p).value, FoundLog(log, now, c, t, p, allowed), u)
  {
  }

  lemma FoundKeepsStored(now: nat, store: Store, log: FamilyLog, c: CodeId, t: TokenId, p: Payload,
                         allowed: seq<Scope>, u: TokenId)
    requires Founding(now, log, t, p)
    requires u == t || (u in store.tokens && StoredOk(now, store, log, u))
    ensures Created(store, now, t, p).Some? && u in Created(store, now, t, p).value.tokens
    ensures StoredOk(now, Created(store, now, t, p).value, FoundLog(log, now, c, t, p, allowed), u)
  {
  }

  /** The index and the heads, for any step that logs t as issued with payload p and
      indexes it under p.family. */
  lemma IssueKeepsIndex(store: Store, store': Store, log: FamilyLog, log': FamilyLog, t: TokenId, p: Payload,
                        members: set<TokenId>, deadline: nat)
    requires IndexOk(store, log)
    requires forall f :: f in log.families ==> HeadOk(log, f)
    requires t !in log.issued
    requires t in log'.issued && log'.issued[t].payload == p
    requires forall u :: u in log.issued ==> u in log'.issued && log'.issued[u] == log.issued[u]
    requires log'.families.Keys == log.families.Keys + {p.family} && log'.heads == log.heads[p.family := t]
    requires members == {} || (p.family in store.index && members == store.index[p.family].value)
    requires store'.index == store.index[p.family := Cell(members + {t}, deadline)]
    ensures IndexOk(store', log')
    ensures forall f :: f in log'.families ==> HeadOk(log', f)
  {
    forall f | f in log'.families ensures HeadOk(log', f) {
      if f != p.family {
        assert HeadOk(log, f);
      }
    }
  }

  lemma FoundKeepsStore(now: nat, store: Store, log: FamilyLog, c: CodeId, t: TokenId, p: Payload, allowed: seq<Scope>)
    requires StoreInv(now, store, log) && Founding(now, log, t, p)
    ensures Created(store, now, t, p).Some?
    ensures StoreInv(now, Created(store, now, t, p).value, FoundLog(log, now, c, t, p, allowed))
  {
    var store' := Created(store, now, t, p).value;
    var log' := FoundLog(log, now, c, t, p, allowed);
    IssueKeepsIndex(store, store', log, log', t, p, Members(store, now, p.family), store'.index[p.family].deadline);
    forall u | u in log'.issued ensures IssueOk(now, log', u) && KeptOk(now, store', log', u) {
      FoundKeepsToken(now, store, log, c, t, p, allowed, u);
    }
    forall u | u in store'.tokens ensures StoredOk(now, store', log', u) {
      FoundKeepsStored(now, store, log, c, t, p, allowed, u);
    }
  }

  // ----- rotation -----

  /** What a rotation does to the two keys it touches. */
  lemma RotatedShape(s: Store, now: nat, parent: TokenId, t: TokenId, p: Payload)
    requires Consumed(s, now, parent).Fresh? && t != parent && t !in s.tokens
    requires Rotated(s, now, parent, t, p).Some?
    ensures var s' := Rotated(s, now, parent, t, p).value;
            && Sec(now) < p.expires
            && s'.tokens.Keys == s.tokens.Keys + {t}
            && (forall u :: u in s.tokens && u != parent ==> s'.tokens[u] == s.tokens[u])
            && s'.tokens[t].value == p.(used := false)
            && Ticks(p.expires) <= s'.tokens[t].deadline < Ticks(p.expires) + 1000
            && s'.tokens[parent].value.(used := false) == s.tokens[parent].value.(used := false)
            && (s'.tokens[parent].value.used <==> now + 500 <= s.tokens[parent].deadline)
            && (!s'.tokens[parent].value.used ==> s'.tokens[parent] == s.tokens[parent])
            && s.tokens[parent].deadline - 500 < s'.tokens[parent].deadline <= s.tokens[parent].deadline + 500
            && s'.index == s.index[p.family := Cell(Members(s, now, p.family) + {t}, s'.tokens[t].deadline)]
  {
    var c := s.tokens[parent];
    assert TtlSecs(c, now) == 0 <==> c.deadline - now < 500;
  }

  /** The parent of a rotation is a live member of a family that was not revoked. */
  ghost predicate Rotating(now: nat, store: Store, log: FamilyLog, parent: TokenId, t: TokenId, p: Payload) {
    && t !in log.issued && t !in store.tokens
    && Consumed(store, now, parent).Fresh?
    && p.family == store.tokens[parent].value.family && p.expires == store.tokens[parent].value.expires
    && !p.used && p.createdAt == Sec(now)
    && Rotated(store, now, parent, t, p).Some?
    && StoredOk(now, store, log, parent) && IssueOk(now, log, parent) && KeptOk(now, store, log, parent)
    && p.family in log.heads
  }

  lemma RotatingIsEarly(now: nat, store: Store, log: FamilyLog, parent: TokenId, t: TokenId, p: Payload)
    requires Rotating(now, store, log, parent, t, p)
    ensures p.family in log.families && now < Expiry(log, p.family) && p.family !in log.revoked
    ensures p.family in store.index && Members(store, now, p.family) == store.index[p.family].value
  {
    RotatedShape(store, now, parent, t, p);
  }

  lemma RotateKeepsKept(now: nat, store: Store, log: FamilyLog, parent: TokenId, t: TokenId, p: Payload,
                        allowed: seq<Scope>, u: TokenId)
    requires Rotating(now, store, log, parent, t, p)
    requires u == t || (u in log.issued && KeptOk(now, store, log, u))
    requires u == t || IssueOk(now, log, u)
    ensures IssueOk(now, LogIssue(log, now, t, Some(parent), p, allowed), u)
    ensures KeptOk(now, Rotated(store, now, parent, t, p).value, LogIssue(log, now, t, Some(parent), p, allowed), u)
  {
    RotatingIsEarly(now, store, log, parent, t, p);
    RotatedShape(store, now, parent, t, p);
  }

  lemma RotateKeepsStored(now: nat, store: Store, log: FamilyLog, parent: TokenId, t: TokenId, p: Payload,
                          allowed: seq<Scope>, u: TokenId)
    requires Rotating(now, store, log, parent, t, p)
    requires u == t || (u in store.tokens && StoredOk(now, store, log, u))
    ensures u in Rotated(store, now, parent, t, p).value.tokens
    ensures StoredOk(now, Rotated(store, now, parent, t, p).value, LogIssue(log, now, t, Some(parent), p, allowed), u)
  {
    RotatingIsEarly(now, store, log, parent, t, p);
    RotatedShape(store, now, parent, t, p);
  }

  lemma StartsRotating(now: nat, store: Store, log: FamilyLog, parent: TokenId, t: TokenId, p: Payload)
    requires StoreInv(now, store, log) && t !in log.issued
    requires Consumed(store, now, parent).Fresh?
    requires p.family == store.tokens[parent].value.family && p.expires == store.tokens[parent].value.expires
    requires !p.used && p.createdAt == Sec(now)
    requires Rotated(store, now, parent, t, p).Some?
    ensures Rotating(now, store, log, parent, t, p)
  {
    assert StoredOk(now, store, log, parent) && IssueOk(now, log, parent) && KeptOk(now, store, log, parent);
    assert HeadOk(log, p.family);
    assert forall u :: u in store.tokens ==> StoredOk(now, store, log, u);
  }

  lemma RotateKeepsIndex(now: nat, store: Store, log: FamilyLog, parent: TokenId, t: TokenId, p: Payload,
                         allowed: seq<Scope>)
    requires IndexOk(store, log) && Rotating(now, store, log, parent, t, p)
    requires forall f :: f in log.families ==> HeadOk(log, f)
    ensures Rotated(store, now, parent, t, p).value.tokens.Keys == store.tokens.Keys + {t}
    ensures IndexOk(Rotated(store, now, parent, t, p).value, LogIssue(log, now, t, Some(parent), p, allowed))
    ensures var log' := LogIssue(log, now, t, Some(parent), p, allowed);
            forall f :: f in log'.families ==> HeadOk(log', f)
  {
    var store' := Rotated(store, now, parent, t, p).value;
    RotatedShape(store, now, parent, t, p);
    RotatingIsEarly(now, store, log, parent, t, p);
    IssueKeepsIndex(store, store', log, LogIssue(log, now, t, Some(parent), p, allowed), t, p,
                    Members(store, now, p.family), store'.tokens[t].deadline);
  }

  lemma RotateKeepsStore(now: nat, store: Store, log: FamilyLog, parent: TokenId, t: TokenId, p: Payload,
                         allowed: seq<Scope>)
    requires StoreInv(now, store, log) && Rotating(now, store, log, parent, t, p)
    ensures StoreInv(now, Rotated(store, now, parent, t, p).value, LogIssue(log, now, t, Some(parent), p, allowed))
  {
    var store' := Rotated(store, now, parent, t, p).value;
    var log' := LogIssue(log, now, t, Some(parent), p, allowed);
    RotateKeepsIndex(now, store, log, parent, t, p, allowed);
    forall u | u in log'.issued ensures IssueOk(now, log', u) && KeptOk(now, store', log', u) {
      RotateKeepsKept(now, store, log, parent, t, p, allowed, u);
    }
    forall u | u in store'.tokens ensures StoredOk(now, store', log', u) {
      RotateKeepsStored(now, store, log, parent, t, p, allowed, u);
    }
  }

  // ----- the whole machine -----

  ghost predicate SettingsOk(d: Directory) {
    ValidTtls(Some(d.accessTtl), Some(d.refreshTtl))
  }

  ghost predicate WorldInv(w: World) {
    SettingsOk(w.dir) && Inv(w.now, w.grants)
  }

  lemma LinkRotates(now: nat, codes: CodeLog, log: FamilyLog, parent: TokenId, t: TokenId, p: Payload,
                    allowed: seq<Scope>)
    requires LinkInv(now, codes, log) && t !in log.issued && parent in log.issued
    requires var q := log.issued[parent].payload; q.family == p.family && q.user == p.user && q.client == p.client
    ensures LinkInv(now, codes, LogIssue(log, now, t, Some(parent), p, allowed))
  {
    var log' := LogIssue(log, now, t, Some(parent), p, allowed);
    forall f | f in log'.families ensures FamilyOk(now, codes, log', f) {
      assert FamilyOk(now, codes, log, f);
    }
    assert OwnerOk(codes, log, parent);
    forall u | u in log'.issued ensures OwnerOk(codes, log', u) {
      assert u != t ==> OwnerOk(codes, log, u);
    }
  }

  lemma RotateKeeps(w: World, r: RefreshRequest, d: Draw, scopes: seq<Scope>, allowed: seq<Scope>)
    requires WorldInv(w) && d.token !in w.grants.famLog.issued
    requires Consumed(w.grants.store, w.now, r.token).Fresh?
    requires var p := ChildPayload(w.grants.store.tokens[r.token].value, w.now, scopes);
             Rotate(w.grants, w.now, r.token, d.token, p, allowed).Some?
    ensures var p := ChildPayload(w.grants.store.tokens[r.token].value, w.now, scopes);
            Inv(w.now, Rotate(w.grants, w.now, r.token, d.token, p, allowed).value)
  {
    var g := w.grants;
    var p := ChildPayload(g.store.tokens[r.token].value, w.now, scopes);
    StartsRotating(w.now, g.store, g.famLog, r.token, d.token, p);
    RotateKeepsStore(w.now, g.store, g.famLog, r.token, d.token, p, allowed);
    assert StoredOk(w.now, g.store, g.famLog, r.token);
    LinkRotates(w.now, g.codeLog, g.famLog, r.token, d.token, p, allowed);
  }

  lemma RefreshKeeps(w: World, r: RefreshRequest, d: Draw)
    requires WorldInv(w) && Enabled(w, DoRefresh(r, d))
    ensures WorldInv(Apply(w, DoRefresh(r, d)))
  {
    RefreshCases(w, r, d);
    if Refresh(w, r, d).0.Granted? {
      var allowed := w.dir.clients[r.client].scopes;
      RotateKeeps(w, r, d, Narrow(Presented(w, r.token).scopes, allowed).value, allowed);
    } else if Readable(w.grants.store, w.now, r.token) {
      RevokeStoredKeeps(w.now, w.grants, r.token);
    }
  }

  lemma ConsumableIsNew(w: World, c: CodeId)
    requires WorldInv(w) && Consumable(w.grants.codes, w.now, c)
    ensures w.grants.codes[c].family !in w.grants.famLog.families
    ensures w.grants.codes[c].family !in w.grants.famLog.revoked
  {
    var g := w.grants;
    assert forall f :: f in g.famLog.families ==> FamilyOk(w.now, g.codeLog, g.famLog, f);
  }

  lemma FoundKeeps(w: World, c: CodeId, t: TokenId, scopes: seq<Scope>, allowed: seq<Scope>)
    requires WorldInv(w) && t !in w.grants.famLog.issued && Consumable(w.grants.codes, w.now, c)
    ensures var p := RootPayload(w.grants.codes[c], w.now, w.dir.refreshTtl, scopes);
            var g' := Found(Redeem(w.grants, c), w.now, c, t, p, allowed);
            g'.Some? && Inv(w.now, g'.value)
  {
    var now, g := w.now, w.grants;
    var p := RootPayload(g.codes[c], now, w.dir.refreshTtl, scopes);
    var f := p.family;
    RedeemKeeps(now, g, c);
    ConsumableIsNew(w, c);
    FoundKeepsStore(now, g.store, g.famLog, c, t, p, allowed);
    LinkFounds(now, Redeem(g, c).codeLog, g.famLog, c, t, p, allowed);
  }

  lemma LinkFounds(now: nat, codes: CodeLog, log: FamilyLog, c: CodeId, t: TokenId, p: Payload, allowed: seq<Scope>)
    requires LinkInv(now, codes, log) && Founding(now, log, t, p)
    requires c in codes.minted && c in codes.exchanged && now < codes.minted[c].expiresAt
    requires var row := codes.minted[c]; row.family == p.family && row.user == p.user && row.client == p.client
    ensures LinkInv(now, codes, FoundLog(log, now, c, t, p, allowed))
  {
    var log' := FoundLog(log, now, c, t, p, allowed);
    forall f | f in log'.families ensures FamilyOk(now, codes, log', f) {
      assert f != p.family ==> FamilyOk(now, codes, log, f);
    }
    forall u | u in log'.issued ensures OwnerOk(codes, log', u) {
      assert u != t ==> OwnerOk(codes, log, u);
    }
  }

  lemma ExchangeKeeps(w: World, r: ExchangeRequest, d: Draw)
    requires WorldInv(w) && Enabled(w, DoExchange(r, d))
    ensures WorldInv(Apply(w, DoExchange(r, d)))
  {
    ExchangeCases(w, r, d);
    if !Consumable(w.grants.codes, w.now, r.code) {
      ReplayKeeps(w.now, w.grants, r.code);
    } else if Exchange(w, r, d).0.Granted? {
      RedeemKeeps(w.now, w.grants, r.code);
      var allowed := w.dir.clients[r.client].scopes;
      FoundKeeps(w, r.code, d.token, Narrow(w.grants.codes[r.code].scopes, allowed).value, allowed);
    } else {
      BurnKeeps(w.now, w.grants, r.code);
    }
  }

  lemma AuthorizeKeeps(w: World, r: AuthorizeRequest, c: CodeId, f: FamilyId)
    requires WorldInv(w) && Enabled(w, DoAuthorize(r, c, f))
    ensures WorldInv(Apply(w, DoAuthorize(r, c, f)))
  {
    match Authorize(w, r, c, f)
    case None =>
    case Some(w') => MintKeeps(w.now, w.grants, c, w'.grants.codes[c]);
  }

  /** The steps that touch neither the clock nor the grants. */
  predicate Quiet(s: Step) {
    !(s.Tick? || s.DoAuthorize? || s.DoExchange? || s.DoRefresh? || s.DoSweepCodes? || s.DoDeleteClient?)
  }

  lemma QuietSteps(w: World, s: Step)
    requires Quiet(s)
    ensures Apply(w, s).now == w.now && Apply(w, s).grants == w.grants
    ensures SettingsOk(w.dir) ==> SettingsOk(Apply(w, s).dir)
  {
  }

  /** Only the token endpoint touches the refresh store and its log; only Tick the clock. */
  lemma TokenlessSteps(w: World, s: Step)
    requires !s.DoExchange? && !s.DoRefresh?
    ensures Apply(w, s).grants.store == w.grants.store && Apply(w, s).grants.famLog == w.grants.famLog
    ensures Apply(w, s).access == w.access
    ensures Apply(w, s).now == if s.Tick? then w.now + s.dt else w.now
  {
    match s
    case DoAuthorize(_, _, _) =>
    case DoDeleteClient(_) =>
    case DoSweepCodes =>
    case DoDeleteUser(_) =>
    case _ =>
  }

  lemma TickStep(w: World, dt: nat)
    requires WorldInv(w)
    ensures WorldInv(Apply(w, Tick(dt)))
  {
    var w' := Apply(w, Tick(dt));
    assert w'.dir == w.dir && w'.grants == w.grants;
    TickKeeps(w.now, w'.now, w'.grants);
  }

  lemma SweepStep(w: World)
    requires WorldInv(w)
    ensures WorldInv(Apply(w, DoSweepCodes))
  {
    SweepKeeps(w.now, w.grants);
  }

  lemma DeleteClientStep(w: World, c: ClientId)
    requires WorldInv(w)
    ensures WorldInv(Apply(w, DoDeleteClient(c)))
  {
    CascadeKeeps(w.now, w.grants, c);
  }

  lemma QuietKeeps(w: World, s: Step)
    requires WorldInv(w) && Quiet(s)
    ensures WorldInv(Apply(w, s))
  {
    QuietSteps(w, s);
  }

  lemma StepKeeps(w: World, s: Step)
    requires WorldInv(w) && Enabled(w, s)
    ensures WorldInv(Apply(w, s))
  {
    match s
    case DoAuthorize(r, c, f) => AuthorizeKeeps(w, r, c, f);
    case DoExchange(r, d) => ExchangeKeeps(w, r, d);
    case DoRefresh(r, d) => RefreshKeeps(w, r, d);
    case Tick(dt) => TickStep(w, dt);
    case DoSweepCodes => SweepStep(w);
    case DoDeleteClient(c) => DeleteClientStep(w, c);
    case _ => QuietKeeps(w, s);
  }

  /** The invariant holds at every point of every run. */
  lemma {:induction false} RunKeeps(a: World, steps: seq<Step>, b: World)
    requires WorldInv(a) && Run(a, steps, b)
    ensures WorldInv(b)
    decreases |steps|
  {
    if steps != [] {
      StepKeeps(a, steps[0]);
      RunKeeps(Apply(a, steps[0]), steps[1..], b);
    }
  }

  lemma ReachableInv(a: World, steps: seq<Step>, b: World)
    requires Initial(a) && Run(a, steps, b)
    ensures WorldInv(b)
  {
    RunKeeps(a, steps, b);
  }

  lemma {:induction false} RunsCompose(a: World, s1: seq<Step>, b: World, s2: seq<Step>, c: World)
    requires Run(a, s1, b) && Run(b, s2, c)
    ensures Run(a, s1 + s2, c)
    decreases |s1|
  {
    if s1 == [] {
      assert s1 + s2 == s2;
    } else {
      RunsCompose(Apply(a, s1[0]), s1[1..], b, s2, c);
      assert (s1 + s2)[0] == s1[0] && (s1 + s2)[1..] == s1[1..] + s2;
    }
  }
}
