/** Over every run: exactly which refresh tokens are still unused. */
module RotationTheorems {
  import opened Prelude
  import opened Scopes
  import opened RefreshStore
  import opened AuthCodes
  import opened World
  import opened Families

  /** The deadline Create gave the token's key. */
  function FirstDeadline(i: Issue): nat {
    if Sec(i.at) < i.payload.expires then i.at + Ticks(i.payload.expires - Sec(i.at)) else i.at
  }

  ghost predicate RotatedInto(log: FamilyLog, t: TokenId, c: TokenId) {
    c in log.issued && log.issued[c].parent == Some(t)
  }

  /** A rotation of t, into c, with at least 500 ms left on t's key. */
  ghost predicate RotatedInTime(log: FamilyLog, t: TokenId, c: TokenId)
    requires t in log.issued
  {
    RotatedInto(log, t, c) && log.issued[c].at + 500 <= FirstDeadline(log.issued[t])
  }

  /** The deadline MarkUsed gives t's key at the rotation into c: the time left, rounded
      to the nearest second, counted from then. */
  ghost function MarkedDeadline(log: FamilyLog, t: TokenId, c: TokenId): nat
    requires t in log.issued && RotatedInTime(log, t, c)
  {
    log.issued[c].at + Ticks((FirstDeadline(log.issued[t]) - log.issued[c].at + 500) / 1000)
  }

  /** A stored token is flagged used exactly by a rotation in time, which also sets its
      deadline anew; it keeps its first deadline until then. */
  ghost predicate UseOk(store: Store, log: FamilyLog, t: TokenId)
    requires t in store.tokens
  {
    && t in log.issued
    && (store.tokens[t].value.used <==> exists c :: RotatedInTime(log, t, c))
    && (!store.tokens[t].value.used ==> store.tokens[t].deadline == FirstDeadline(log.issued[t]))
    && (forall c :: RotatedInTime(log, t, c) ==> store.tokens[t].deadline == MarkedDeadline(log, t, c))
  }

  ghost predicate UseInv(store: Store, log: FamilyLog) {
    && (forall t :: t in store.tokens ==> UseOk(store, log, t))
    && (forall t, c :: RotatedInto(log, t, c) ==> t in log.issued)
  }

  /** A token that no new issue descends from. */
  lemma OthersUse(store: Store, store': Store, log: FamilyLog, log': FamilyLog, t: TokenId, u: TokenId)
    requires u in store.tokens && UseOk(store, log, u) && u in store'.tokens && store'.tokens[u] == store.tokens[u]
    requires t !in log.issued && t in log'.issued && log'.issued == log.issued[t := log'.issued[t]]
    requires log'.issued[t].parent != Some(u)
    ensures UseOk(store', log', u)
  {
    forall c ensures RotatedInTime(log', u, c) <==> RotatedInTime(log, u, c) {
    }
  }

  lemma NewUse(store': Store, log: FamilyLog, log': FamilyLog, t: TokenId)
    requires t !in log.issued && t in log'.issued && log'.issued == log.issued[t := log'.issued[t]]
    requires (forall u, c :: RotatedInto(log, u, c) ==> u in log.issued) && log'.issued[t].parent != Some(t)
    requires t in store'.tokens && !store'.tokens[t].value.used
    requires store'.tokens[t].deadline == FirstDeadline(log'.issued[t])
    ensures UseOk(store', log', t)
  {
    forall c ensures !RotatedInTime(log', t, c) {
      assert c != t ==> (RotatedInto(log', t, c) <==> RotatedInto(log, t, c));
    }
  }

  lemma FoundKeepsUse(now: nat, store: Store, log: FamilyLog, c: CodeId, t: TokenId, p: Payload, allowed: seq<Scope>)
    requires UseInv(store, log) && t !in log.issued && Created(store, now, t, p).Some?
    ensures UseInv(Created(store, now, t, p).value, FoundLog(log, now, c, t, p, allowed))
  {
    var store', log' := Created(store, now, t, p).value, FoundLog(log, now, c, t, p, allowed);
    forall u | u in store'.tokens ensures UseOk(store', log', u) {
      if u == t {
        NewUse(store', log, log', t);
      } else {
        OthersUse(store, store', log, log', t, u);
      }
    }
    forall u, x | RotatedInto(log', u, x) ensures u in log'.issued {
      assert RotatedInto(log, u, x);
    }
  }

  lemma ParentUse(now: nat, store: Store, log: FamilyLog, parent: TokenId, t: TokenId, p: Payload, allowed: seq<Scope>)
    requires parent in store.tokens && UseOk(store, log, parent) && !store.tokens[parent].value.used
    requires Consumed(store, now, parent).Fresh? && t != parent && t !in store.tokens && t !in log.issued
    requires Rotated(store, now, parent, t, p).Some?
    ensures UseOk(Rotated(store, now, parent, t, p).value, LogIssue(log, now, t, Some(parent), p, allowed), parent)
  {
    var log' := LogIssue(log, now, t, Some(parent), p, allowed);
    RotatedShape(store, now, parent, t, p);
    forall c ensures RotatedInTime(log', parent, c) <==> c == t && now + 500 <= FirstDeadline(log.issued[parent]) {
      assert c != t ==> (RotatedInTime(log', parent, c) <==> RotatedInTime(log, parent, c));
    }
    assert RotatedInTime(log', parent, t) <==> now + 500 <= FirstDeadline(log.issued[parent]);
  }

  lemma RotateKeepsUse(now: nat, store: Store, log: FamilyLog, parent: TokenId, t: TokenId, p: Payload,
                       allowed: seq<Scope>)
    requires UseInv(store, log) && t !in log.issued
    requires Consumed(store, now, parent).Fresh? && Rotated(store, now, parent, t, p).Some?
    ensures UseInv(Rotated(store, now, parent, t, p).value, LogIssue(log, now, t, Some(parent), p, allowed))
  {
    var store', log' := Rotated(store, now, parent, t, p).value, LogIssue(log, now, t, Some(parent), p, allowed);
    assert UseOk(store, log, parent);
    assert t in store.tokens ==> UseOk(store, log, t);
    RotatedShape(store, now, parent, t, p);
    forall u | u in store'.tokens ensures UseOk(store', log', u) {
      if u == t {
        NewUse(store', log, log', t);
      } else if u == parent {
        ParentUse(now, store, log, parent, t, p, allowed);
      } else {
        OthersUse(store, store', log, log', t, u);
      }
    }
    forall u, x | RotatedInto(log', u, x) ensures u in log'.issued {
      assert x != t ==> RotatedInto(log, u, x);
    }
  }

  lemma RevokeKeepsUse(now: nat, store: Store, log: FamilyLog, f: FamilyId)
    requires UseInv(store, log)
    ensures UseInv(Revoked(store, now, f), RevokedLog(log, now, f))
  {
    SameIssues(log, RevokedLog(log, now, f));
    forall u | u in Revoked(store, now, f).tokens ensures UseOk(Revoked(store, now, f), RevokedLog(log, now, f), u) {
      assert UseOk(store, log, u);
    }
  }

  lemma SameIssues(log: FamilyLog, log': FamilyLog)
    requires log'.issued == log.issued
    ensures forall t, c :: RotatedInto(log', t, c) <==> RotatedInto(log, t, c)
    ensures forall t, c :: t in log.issued ==> (RotatedInTime(log', t, c) <==> RotatedInTime(log, t, c))
  {
  }

  ghost predicate WorldUse(w: World) {
    UseInv(w.grants.store, w.grants.famLog)
  }

  lemma RefreshKeepsUse(w: World, r: RefreshRequest, d: Draw)
    requires WorldUse(w) && d.token !in w.grants.famLog.issued
    ensures WorldUse(Refresh(w, r, d).1)
  {
    RefreshCases(w, r, d);
    var g := w.grants;
    if Refresh(w, r, d).0.Granted? {
      var p, allowed := Presented(w, r.token), w.dir.clients[r.client].scopes;
      var child := ChildPayload(p, w.now, Narrow(p.scopes, allowed).value);
      RotateKeepsUse(w.now, g.store, g.famLog, r.token, d.token, child, allowed);
    } else if Readable(g.store, w.now, r.token) {
      RevokeKeepsUse(w.now, g.store, g.famLog, Presented(w, r.token).family);
    }
  }

  lemma ExchangeKeepsUse(w: World, r: ExchangeRequest, d: Draw)
    requires WorldUse(w) && d.token !in w.grants.famLog.issued
    ensures WorldUse(Exchange(w, r, d).1)
  {
    ExchangeCases(w, r, d);
    var g := w.grants;
    if Exchange(w, r, d).0.Granted? {
      var row, allowed := g.codes[r.code], w.dir.clients[r.client].scopes;
      var scopes := Narrow(row.scopes, allowed).value;
      if OFFLINE_ACCESS in scopes {
        var root := RootPayload(row, w.now, w.dir.refreshTtl, scopes);
        FoundKeepsUse(w.now, g.store, g.famLog, r.code, d.token, root, allowed);
      }
    } else if r.code in g.codes {
      RevokeKeepsUse(w.now, g.store, g.famLog, g.codes[r.code].family);
    }
  }

  lemma {:induction false} RunKeepsUse(a: World, steps: seq<Step>, b: World)
    requires WorldUse(a) && Run(a, steps, b)
    ensures WorldUse(b)
    decreases |steps|
  {
    if steps != [] {
      if steps[0].DoExchange? {
        ExchangeKeepsUse(a, steps[0].xreq, steps[0].draw);
      } else if steps[0].DoRefresh? {
        RefreshKeepsUse(a, steps[0].rreq, steps[0].draw);
      } else {
        TokenlessSteps(a, steps[0]);
      }
      RunKeepsUse(Apply(a, steps[0]), steps[1..], b);
    }
  }

  /** The token was rotated in time, and the key so marked has not lapsed. */
  ghost predicate ReportsReuse(log: FamilyLog, now: nat, t: TokenId)
    requires t in log.issued
  {
    exists c :: RotatedInTime(log, t, c) && now < MarkedDeadline(log, t, c)
  }

  /** Over every run, whenever it is presented: a live token is accepted as fresh if and
      only if each of its rotations, if any, left under 500 ms on its key. */
  lemma FreshIff(a: World, steps: seq<Step>, w: World, t: TokenId)
    requires Initial(a) && Run(a, steps, w) && Readable(w.grants.store, w.now, t)
    ensures t in w.grants.famLog.issued
    ensures var log := w.grants.famLog;
            Consumed(w.grants.store, w.now, t).Fresh? <==>
              forall c :: RotatedInto(log, t, c) ==> FirstDeadline(log.issued[t]) < log.issued[c].at + 500
  {
    RunKeepsUse(a, steps, w);
    var log := w.grants.famLog;
    assert UseOk(w.grants.store, log, t);
    forall c ensures RotatedInTime(log, t, c) <==>
                       RotatedInto(log, t, c) && log.issued[c].at + 500 <= FirstDeadline(log.issued[t])
    {
    }
  }

  /** Over every run, at every instant, for every token ever issued: reported as reuse if
      and only if it is still stored, was rotated with at least 500 ms left, and the key
      marked then has not lapsed; fresh if and only if it is still stored, was not so
      rotated, and its first deadline lies ahead; unknown otherwise. An unrevoked family
      stores all its tokens. */
  lemma AnswerIff(a: World, steps: seq<Step>, w: World, t: TokenId)
    requires Initial(a) && Run(a, steps, w) && t in w.grants.famLog.issued
    ensures var log, store := w.grants.famLog, w.grants.store;
            && (Consumed(store, w.now, t).Reused? <==> t in store.tokens && ReportsReuse(log, w.now, t))
            && (Consumed(store, w.now, t).Fresh? <==>
                  && t in store.tokens && w.now < FirstDeadline(log.issued[t])
                  && forall c :: !RotatedInTime(log, t, c))
            && (log.issued[t].payload.family !in log.revoked ==> t in store.tokens)
  {
    RunKeepsUse(a, steps, w);
    StoredUnlessRevoked(a, steps, w, t);
    if t in w.grants.store.tokens {
      assert UseOk(w.grants.store, w.grants.famLog, t);
    }
  }

  lemma StoredUnlessRevoked(a: World, steps: seq<Step>, w: World, t: TokenId)
    requires Initial(a) && Run(a, steps, w) && t in w.grants.famLog.issued
    ensures w.grants.famLog.issued[t].payload.family !in w.grants.famLog.revoked ==> t in w.grants.store.tokens
  {
    ReachableInv(a, steps, w);
    assert KeptOk(w.now, w.grants.store, w.grants.famLog, t);
  }
}
