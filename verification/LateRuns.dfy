/** Runs of the server, for every refresh TTL in the validated range, in which the
    family laws fail in the last fractions of a second: deadlines are set on a
    sub-second clock from whole-second TTLs. */
module LateRuns {
  import opened Prelude
  import opened Scopes
  import opened RefreshStore
  import opened AuthCodes
  import opened SigningKeys
  import opened World
  import opened Families
  import opened FamilyTheorems
  import Secrets = ClientSecrets

  ghost predicate Reaches(a: World, w: World) {
    exists steps :: Run(a, steps, w)
  }

  lemma ReachMore(a: World, w: World, s: Step)
    requires Reaches(a, w) && Enabled(w, s)
    ensures Reaches(a, Apply(w, s))
  {
    var steps :| Run(a, steps, w);
    assert [s][1..] == [];
    assert Run(Apply(w, s), [], Apply(w, s));
    assert Run(w, [s], Apply(w, s));
    RunsCompose(a, steps, w, [s], Apply(w, s));
  }

  const SCOPES: seq<Scope> := [OPENID, OFFLINE_ACCESS]

  const CLIENT := Client(Secrets.Row(true, Some(Secrets.HashOf(7)), None, None),
                         ["authorization_code", "refresh_token"], SCOPES, ["https://rp.example/cb"])

  /** One active user, one client, one key. */
  function Setup(ttl: nat, now: nat): World {
    World(now, Directory(map[1 := true], map[1 := CLIENT], 300, ttl), NO_GRANTS,
          map[3 := KeyRow(Active, None)], {}, map[], map[], {}, map[], {})
  }

  const AUTHORIZE := AuthorizeRequest(
    1, "https://rp.example/cb", "code", "xyz", Some(S256("v")), Some(SCOPES), "", "", Some(1), None)
  const EXCHANGE := ExchangeRequest(1, 7, 10, "https://rp.example/cb", "v")

  function Row(now: nat): CodeRow {
    CodeRow(1, 1, "https://rp.example/cb", SCOPES, S256("v"), now + CODE_TTL, 20, false)
  }

  function Root(ttl: nat, now: nat): Payload {
    Payload(1, 1, SCOPES, 20, Sec(now), Sec(now) + ttl, false)
  }

  lemma ScopesKept()
    ensures Narrow(SCOPES, SCOPES) == Some(SCOPES)
  {
    var all := Elements(SCOPES);
    assert SCOPES[1..] == [OFFLINE_ACCESS] && [OFFLINE_ACCESS][1..] == [];
    assert OPENID in all && OFFLINE_ACCESS in all;
    assert Keep([OFFLINE_ACCESS], all) == [OFFLINE_ACCESS];
    assert Keep(SCOPES, all) == [OPENID] + Keep(SCOPES[1..], all);
    assert Keep(SCOPES, all) == SCOPES;
  }

  function WithCode(ttl: nat, now: nat): World {
    Setup(ttl, now).(grants := Mint(NO_GRANTS, 10, Row(now)))
  }

  lemma AuthorizeReaches(ttl: nat, now: nat)
    ensures Reaches(Setup(ttl, now), WithCode(ttl, now))
  {
    var w := Setup(ttl, now);
    assert Run(w, [], w);
    assert Enabled(w, DoAuthorize(AUTHORIZE, 10, 20));
    assert Authorize(w, AUTHORIZE, 10, 20) == Some(WithCode(ttl, now));
    ReachMore(w, w, DoAuthorize(AUTHORIZE, 10, 20));
  }

  /** The server is as set up but for grants and access tokens. */
  ghost predicate Serving(w: World, ttl: nat) {
    w == Setup(ttl, w.now).(grants := w.grants, access := w.access)
  }

  /** After an exchange at `now` of the code minted at `start`: refresh token 100 of
      family 20, and nothing else. */
  ghost predicate HasRoot(w: World, ttl: nat, start: nat, now: nat) {
    && Serving(w, ttl) && w.now == now
    && Created(EMPTY, now, 100, Root(ttl, now)) == Some(w.grants.store)
    && w.grants.famLog.issued.Keys == {100} && InFamily(w.grants.famLog, 100, 20)
    && w.access.Keys == {50}
    && CodeSpent(w, start) && w.grants.famLog.families[20].expires == Sec(now) + ttl
  }

  ghost predicate CodeSpent(w: World, start: nat) {
    && w.grants.codes == map[10 := Row(start).(used := true)] && w.grants.codeLog.deletedClients == {}
    && 20 in w.grants.famLog.families && w.grants.famLog.families[20].code == 10
  }

  lemma ExchangeFounds(ttl: nat, start: nat, wait: nat)
    requires ttl > 0 && wait < CODE_TTL
    ensures var w := WithCode(ttl, start).(now := start + wait);
            HasRoot(Exchange(w, EXCHANGE, Draw(100, 50, Some(3))).1, ttl, start, start + wait)
  {
    ScopesKept();
    CodeMayBeExchanged(ttl, start, wait);
    ExchangeCases(WithCode(ttl, start).(now := start + wait), EXCHANGE, Draw(100, 50, Some(3)));
  }

  lemma CodeMayBeExchanged(ttl: nat, start: nat, wait: nat)
    requires ttl > 0 && wait < CODE_TTL
    ensures MayExchange(WithCode(ttl, start).(now := start + wait), EXCHANGE, Draw(100, 50, Some(3)))
  {
    ScopesKept();
  }

  lemma ExchangeReaches(ttl: nat, start: nat, wait: nat) returns (w: World)
    requires ttl > 0 && wait < CODE_TTL
    ensures Reaches(Setup(ttl, start), w) && HasRoot(w, ttl, start, start + wait)
  {
    AuthorizeReaches(ttl, start);
    var a, d := Setup(ttl, start), Draw(100, 50, Some(3));
    ReachMore(a, WithCode(ttl, start), Tick(wait));
    var w1 := WithCode(ttl, start).(now := start + wait);
    ExchangeFounds(ttl, start, wait);
    ReachMore(a, w1, DoExchange(EXCHANGE, d));
    w := Exchange(w1, EXCHANGE, d).1;
  }

  const REFRESH := RefreshRequest(1, 7, 100)

  lemma RefreshRotates(w: World, ttl: nat, d: Draw)
    requires Serving(w, ttl) && Consumed(w.grants.store, w.now, 100).Fresh? && d.kid == Some(3)
    requires var p := w.grants.store.tokens[100].value;
             p.user == 1 && p.client == 1 && p.scopes == SCOPES && Sec(w.now) < p.expires
    ensures var w' := Refresh(w, REFRESH, d).1;
            var p := ChildPayload(w.grants.store.tokens[100].value, w.now, SCOPES);
            && Serving(w', ttl) && w'.now == w.now
            && Rotated(w.grants.store, w.now, 100, d.token, p) == Some(w'.grants.store)
            && w'.grants.famLog == LogIssue(w.grants.famLog, w'.now, d.token, Some(100), p, SCOPES)
            && w'.grants.codes == w.grants.codes && w'.grants.codeLog == w.grants.codeLog
            && w'.access.Keys == w.access.Keys + {d.jti}
  {
    ScopesKept();
    RefreshCases(w, REFRESH, d);
    assert MayRefresh(w, REFRESH, d);
  }

  /** dt after the exchange, a first use of token 100 before its expiry rotates it to 101. */
  lemma RotationReaches(ttl: nat, start: nat, wait: nat, dt: nat) returns (w: World)
    requires ttl > 0 && wait < CODE_TTL && Sec(start + wait + dt) < Sec(start + wait) + ttl && dt < Ticks(ttl)
    ensures Reaches(Setup(ttl, start), w) && Serving(w, ttl) && w.now == start + wait + dt
    ensures var p := Root(ttl, start + wait);
            Rotated(Created(EMPTY, start + wait, 100, p).value, w.now, 100, 101, ChildPayload(p, w.now, SCOPES)) ==
            Some(w.grants.store)
    ensures InFamily(w.grants.famLog, 100, 20) && InFamily(w.grants.famLog, 101, 20)
    ensures w.grants.famLog.issued.Keys == {100, 101} && w.access.Keys == {50, 51} && CodeSpent(w, start)
    ensures w.grants.famLog.issued[101].parent == Some(100)
    ensures w.grants.famLog.families[20].expires == Sec(start + wait) + ttl
  {
    var w0 := ExchangeReaches(ttl, start, wait);
    RootFresh(ttl, start + wait, dt);
    w := RefreshReaches(Setup(ttl, start), w0, ttl, dt, Draw(101, 51, Some(3)));
  }

  lemma RootFresh(ttl: nat, now: nat, dt: nat)
    requires dt < Ticks(ttl)
    ensures var s := Created(EMPTY, now, 100, Root(ttl, now));
            && s.Some? && Consumed(s.value, now + dt, 100) == Fresh(Root(ttl, now))
            && s.value.tokens[100].value == Root(ttl, now)
  {
  }

  lemma DelayedRefresh(a: World, w: World, ttl: nat, dt: nat, d: Draw) returns (w1: World)
    requires Reaches(a, w) && Serving(w, ttl)
    requires d.token !in w.grants.famLog.issued && d.jti !in w.access && d.kid == Some(3)
    ensures w1 == w.(now := w.now + dt)
    ensures Reaches(a, Refresh(w1, REFRESH, d).1)
  {
    w1 := w.(now := w.now + dt);
    ReachMore(a, w, Tick(dt));
    ReachMore(a, w1, DoRefresh(REFRESH, d));
  }

  lemma RefreshReaches(a: World, w: World, ttl: nat, dt: nat, d: Draw) returns (w': World)
    requires Reaches(a, w) && Serving(w, ttl) && Consumed(w.grants.store, w.now + dt, 100).Fresh?
    requires var p := w.grants.store.tokens[100].value;
             p.user == 1 && p.client == 1 && p.scopes == SCOPES && Sec(w.now + dt) < p.expires
    requires d.token !in w.grants.famLog.issued && d.jti !in w.access && d.kid == Some(3)
    ensures Reaches(a, w') && Serving(w', ttl) && w'.now == w.now + dt
    ensures var p := ChildPayload(w.grants.store.tokens[100].value, w'.now, SCOPES);
            && Rotated(w.grants.store, w'.now, 100, d.token, p) == Some(w'.grants.store)
            && w'.grants.famLog == LogIssue(w.grants.famLog, w'.now, d.token, Some(100), p, SCOPES)
    ensures w'.grants.codes == w.grants.codes && w'.grants.codeLog == w.grants.codeLog
    ensures w'.access.Keys == w.access.Keys + {d.jti}
  {
    var w1 := DelayedRefresh(a, w, ttl, dt, d);
    RefreshRotates(w1, ttl, d);
    w' := Refresh(w1, REFRESH, d).1;
  }

  /** Two different tokens of one family, both unused and live. */
  ghost predicate TwoUnused(w: World, f: FamilyId, u: TokenId, t: TokenId) {
    && InFamily(w.grants.famLog, u, f) && InFamily(w.grants.famLog, t, f) && u != t
    && Consumed(w.grants.store, w.now, u).Fresh? && Consumed(w.grants.store, w.now, t).Fresh?
  }

  /** For every valid TTL the server can get there: a rotation 300 ms before the
      family's expiry. */
  lemma LateRotationLeavesTwoUnused(ttl: nat)
    requires ValidTtls(None, Some(ttl))
    ensures Initial(Setup(ttl, 0))
    ensures exists w :: Reaches(Setup(ttl, 0), w) && TwoUnused(w, 20, 100, 101)
  {
    var w := RotationReaches(ttl, 0, 0, Ticks(ttl) - 300);
    var s := Created(EMPTY, 0, 100, Root(ttl, 0)).value;
    RotationRetiresIff(s, w.now, 100, 101, ChildPayload(Root(ttl, 0), w.now, SCOPES));
    RotatedShape(s, w.now, 100, 101, ChildPayload(Root(ttl, 0), w.now, SCOPES));
    assert TwoUnused(w, 20, 100, 101);
  }

  /** A token of a revoked family that still answers reads. */
  ghost predicate Survives(w: World, f: FamilyId, t: TokenId) {
    f in w.grants.famLog.revoked && InFamily(w.grants.famLog, t, f) && Readable(w.grants.store, w.now, t)
  }

  /** An index set refreshed at an early fraction of a second lapses before a key set at
      a late fraction: reuse reported in between revokes the family and leaves the key. */
  lemma LateRevocationMissesAKey(ttl: nat)
    requires ValidTtls(None, Some(ttl))
    ensures Initial(Setup(ttl, 900))
    ensures exists w :: Reaches(Setup(ttl, 900), w) && Survives(w, 20, 100)
  {
    var w := RotationReaches(ttl, 900, 0, 1100);
    LateStore(ttl);
    var w' := ReuseReaches(Setup(ttl, 900), w, ttl, Ticks(ttl) - 1500, Draw(102, 52, Some(3)));
    RevokedSurvives(w, w', 20, 100);
  }

  lemma RevokedSurvives(w: World, w': World, f: FamilyId, t: TokenId)
    requires w'.grants == Revoke(w.grants, w'.now, f) && InFamily(w.grants.famLog, t, f)
    requires Readable(Revoked(w.grants.store, w'.now, f), w'.now, t)
    ensures Survives(w', f, t)
  {
  }

  /** The store of that run: created at 900 ms, rotated at 2 s, revoked half a second
      after the expiry. */
  lemma LateStore(ttl: nat)
    requires ttl >= 3600
    ensures var s := Created(EMPTY, 900, 100, Root(ttl, 900)).value;
            var s1 := Rotated(s, 2000, 100, 101, ChildPayload(Root(ttl, 900), 2000, SCOPES));
            && s1.Some?
            && Consumed(s1.value, Ticks(ttl) + 500, 100).Reused?
            && s1.value.tokens[100].value.family == 20
            && Readable(Revoked(s1.value, Ticks(ttl) + 500, 20), Ticks(ttl) + 500, 100)
  {
    var s := Created(EMPTY, 900, 100, Root(ttl, 900)).value;
    assert TtlSecs(s.tokens[100], 2000) == ttl - 1;
    RotatedShape(s, 2000, 100, 101, ChildPayload(Root(ttl, 900), 2000, SCOPES));
    var s1 := Rotated(s, 2000, 100, 101, ChildPayload(Root(ttl, 900), 2000, SCOPES)).value;
    assert s1.tokens[100].deadline == Ticks(ttl) + 1000;
    assert s1.index[20].deadline == Ticks(ttl);
  }

  lemma ReuseReaches(a: World, w: World, ttl: nat, dt: nat, d: Draw) returns (w': World)
    requires Reaches(a, w) && Serving(w, ttl)
    requires Consumed(w.grants.store, w.now + dt, 100).Reused?
    requires d.token !in w.grants.famLog.issued && d.jti !in w.access && d.kid == Some(3)
    ensures Reaches(a, w') && w'.now == w.now + dt
    ensures w'.grants == Revoke(w.grants, w'.now, w.grants.store.tokens[100].value.family)
  {
    var w1 := DelayedRefresh(a, w, ttl, dt, d);
    w' := Refresh(w1, REFRESH, d).1;
  }

  /** A readable token of a family whose client exists and whose code row is gone. */
  ghost predicate Orphaned(w: World, f: FamilyId, t: TokenId) {
    && InFamily(w.grants.famLog, t, f) && Readable(w.grants.store, w.now, t)
    && Presented(w, t).client !in w.grants.codeLog.deletedClients
    && f in w.grants.famLog.families && w.grants.famLog.families[f].code !in w.grants.codes
  }

  /** With the longest TTL, a code exchanged in its last millisecond and a rotation late
      in a second: the sweep takes the row while the new key is still live, past the
      absolute expiry. */
  lemma LateSweepLosesTheRow()
    ensures Initial(Setup(MAX_REFRESH_TTL, 1))
    ensures exists w :: Reaches(Setup(MAX_REFRESH_TTL, 1), w) && Orphaned(w, 20, 101)
  {
    var a, ttl := Setup(MAX_REFRESH_TTL, 1), MAX_REFRESH_TTL;
    var w := RotationReaches(ttl, 1, 59_999, 999);
    var p := Root(ttl, 60_000);
    RotatedShape(Created(EMPTY, 60_000, 100, p).value, 60_999, 100, 101, ChildPayload(p, 60_999, SCOPES));
    var w' := SweepReaches(a, w, 604_860_002 - 60_999);
    assert w'.grants.store.tokens[101].deadline == 604_860_999;
    assert Orphaned(w', 20, 101);
  }

  lemma SweepReaches(a: World, w: World, dt: nat) returns (w': World)
    requires Reaches(a, w)
    ensures Reaches(a, w') && w'.now == w.now + dt
    ensures w'.grants == w.grants.(codes := Swept(w.grants.codes, w'.now, CODE_RETENTION))
  {
    ReachMore(a, w, Tick(dt));
    var w1 := w.(now := w.now + dt);
    ReachMore(a, w1, DoSweepCodes);
    w' := Apply(w1, DoSweepCodes);
  }

  /** Before the absolute expiry: t is fresh, and its predecessor u, rotated in time, is
      unknown, so that presenting it changes nothing. */
  ghost predicate Unnoticed(w: World, f: FamilyId, u: TokenId, t: TokenId) {
    && InFamily(w.grants.famLog, u, f) && InFamily(w.grants.famLog, t, f)
    && w.grants.famLog.issued[t].parent == Some(u)
    && f in w.grants.famLog.families && w.now < Expiry(w.grants.famLog, f)
    && Consumed(w.grants.store, w.now, u).Unknown? && Consumed(w.grants.store, w.now, t).Fresh?
    && forall c, s, d :: Refresh(w, RefreshRequest(c, s, u), d).1 == w
  }

  /** MarkUsed rounds the time left to whole seconds: after a rotation 600 ms into a second
      the presented token's key ends 400 ms before the family does. */
  lemma LateReuseGoesUnnoticed(ttl: nat)
    requires ValidTtls(None, Some(ttl))
    ensures Initial(Setup(ttl, 0))
    ensures exists w :: Reaches(Setup(ttl, 0), w) && Unnoticed(w, 20, 100, 101)
  {
    var w := RotationReaches(ttl, 0, 0, 600);
    EarlyLapse(ttl);
    var a, dt := Setup(ttl, 0), Ticks(ttl) - 900;
    ReachMore(a, w, Tick(dt));
    var w' := w.(now := w.now + dt);
    UnknownChangesNothing(w', 100);
    assert Unnoticed(w', 20, 100, 101);
  }

  lemma UnknownChangesNothing(w: World, t: TokenId)
    requires Consumed(w.grants.store, w.now, t).Unknown?
    ensures forall c, s, d :: Refresh(w, RefreshRequest(c, s, t), d).1 == w
  {
  }

  /** The store of that run, 300 ms before the expiry. */
  lemma EarlyLapse(ttl: nat)
    requires ttl >= 3600
    ensures var s := Created(EMPTY, 0, 100, Root(ttl, 0)).value;
            var s1 := Rotated(s, 600, 100, 101, ChildPayload(Root(ttl, 0), 600, SCOPES));
            && s1.Some?
            && Consumed(s1.value, Ticks(ttl) - 300, 100).Unknown?
            && Consumed(s1.value, Ticks(ttl) - 300, 101).Fresh?
  {
    var s := Created(EMPTY, 0, 100, Root(ttl, 0)).value;
    assert TtlSecs(s.tokens[100], 600) == ttl - 1;
    RotatedShape(s, 600, 100, 101, ChildPayload(Root(ttl, 0), 600, SCOPES));
    var s1 := Rotated(s, 600, 100, 101, ChildPayload(Root(ttl, 0), 600, SCOPES)).value;
    assert s1.tokens[100].deadline == Ticks(ttl) - 400;
  }
}
