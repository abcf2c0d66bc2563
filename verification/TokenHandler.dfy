/** The token endpoint and the bearer middleware as the server runs them
    (internal/authserver/token.go, bearer_middleware.go): step by step over the
    stores, each proved to be one step of World. */
module TokenHandler {
  import opened Prelude
  import opened Scopes
  import opened RefreshStore
  import opened AuthCodes
  import opened SigningKeys
  import opened RevokeBefore
  import Secrets = ClientSecrets
  import World

  ghost function SomeAnswer(keys: Keys): (answer: Option<KeyId>)
    ensures ActiveAnswer(keys, answer)
  {
    if exists k: KeyId :: IsActive(keys, k) then
      var k: KeyId :| IsActive(keys, k);
      Some(k)
    else None
  }

  /** containsString, and the loops over redirect URIs and grant types. */
  method ContainsString(slice: seq<string>, want: string) returns (found: bool)
    ensures found <==> want in slice
  {
    found := false;
    for i := 0 to |slice|
      invariant !found && want !in slice[..i]
    {
      if slice[i] == want {
        return true;
      }
    }
  }

  /** The loop over the requested scopes. */
  method AllContained(wanted: seq<string>, slice: seq<string>) returns (all: bool)
    ensures all <==> forall s :: s in wanted ==> s in slice
  {
    for i := 0 to |wanted|
      invariant forall k :: 0 <= k < i ==> wanted[k] in slice
    {
      var found := ContainsString(slice, wanted[i]);
      if !found {
        assert wanted[i] in wanted;
        return false;
      }
    }
    return true;
  }

  /** parseUint: the accumulating loop, on 64-bit words. */
  method ParseUint(s: string) returns (n: Option<nat>)
    ensures n == World.ParseUint(s)
    ensures n.None? <==> s == "" || exists i :: 0 <= i < |s| && !('0' <= s[i] <= '9')
    ensures n.Some? ==> n.value == World.Decimal(s) % 18_446_744_073_709_551_616
  {
    if s == "" {
      return None;
    }
    var acc: nat := 0;
    for i := 0 to |s|
      invariant forall k :: 0 <= k < i ==> '0' <= s[k] <= '9'
      invariant acc == World.Decimal(s[..i]) % World.UINT64
    {
      if s[i] < '0' || s[i] > '9' {
        assert s[i] in s;
        return None;
      }
      assert s[..i + 1][..i] == s[..i];
      WrapStep(World.Decimal(s[..i]), s[i] as int - '0' as int);
      acc := (acc * 10 + (s[i] as int - '0' as int)) % World.UINT64;
    }
    assert s[..|s|] == s;
    return Some(acc);
  }

  lemma WrapStep(n: nat, digit: nat)
    ensures (n % World.UINT64 * 10 + digit) % World.UINT64 == (10 * n + digit) % World.UINT64
  {
    var q, m := n / World.UINT64, n % World.UINT64;
    assert 10 * n + digit == m * 10 + digit + World.UINT64 * (10 * q);
    ModPlus(m * 10 + digit, 10 * q);
  }

  lemma {:induction false} ModPlus(a: nat, k: nat)
    ensures (a + World.UINT64 * k) % World.UINT64 == a % World.UINT64
  {
    if k > 0 {
      ModPlus(a, k - 1);
      assert a + World.UINT64 * k == a + World.UINT64 * (k - 1) + World.UINT64;
    }
  }

  class AuthServer {
    var now: nat
    var dir: World.Directory
    const refreshStore: ValkeyRefreshStore
    const codeStore: AuthCodeTable
    const keyStore: KeyTable
    const userCuts: CutoffStore
    const clientCuts: CutoffStore
    ghost var codeLog: World.CodeLog
    ghost var famLog: World.FamilyLog
    ghost var emergency: set<KeyId>
    ghost var access: map<nat, World.Access>
    ghost var userCutLog: set<(UserId, nat)>
    ghost var clientCutLog: set<(ClientId, nat)>

    ghost function View(): World.World
      reads this, refreshStore, codeStore, keyStore, userCuts, clientCuts
    {
      World.World(now, dir, World.Grants(codeStore.rows, codeLog, refreshStore.View(), famLog),
                  keyStore.rows, emergency, access,
                  userCuts.keys, userCutLog, clientCuts.keys, clientCutLog)
    }

    constructor (now: nat, dir: World.Directory)
      ensures View() == World.World(now, dir, World.NO_GRANTS, map[], {}, map[], map[], {}, map[], {})
    {
      this.now, this.dir := now, dir;
      refreshStore := new ValkeyRefreshStore();
      codeStore := new AuthCodeTable();
      keyStore := new KeyTable();
      userCuts := new CutoffStore();
      clientCuts := new CutoffStore();
      codeLog := World.NO_GRANTS.codeLog;
      famLog := World.NO_GRANTS.famLog;
      emergency, access, userCutLog, clientCutLog := {}, map[], {}, {};
    }

    /** VerifySecret and GetByID. */
    method AuthenticateClient(c: ClientId, s: Secrets.Secret) returns (client: Option<World.Client>)
      ensures client.Some? <==> World.Authenticated(View(), c, s)
      ensures client.Some? ==> client.value == dir.clients[c]
    {
      if c !in dir.clients || !Secrets.Verifies(dir.clients[c].secrets, now, s) {
        return None;
      }
      return Some(dir.clients[c]);
    }

    /** Client, redirect, response type, state, challenge and scopes of the request. */
    method CheckRequest(r: World.AuthorizeRequest) returns (scopes: Option<seq<Scope>>)
      ensures scopes.Some? <==>
              && r.client in dir.clients && dir.clients[r.client].secrets.active
              && r.redirect != "" && r.redirect in dir.clients[r.client].redirects
              && r.responseType == "code" && r.state != "" && r.challenge.Some?
              && var asked := if r.scope.Some? then r.scope.value else ["openid", "profile"];
              && OPENID in asked && forall s :: s in asked ==> s in dir.clients[r.client].scopes
      ensures scopes.Some? ==> scopes.value == if r.scope.Some? then r.scope.value else ["openid", "profile"]
    {
      if r.redirect == "" || r.client !in dir.clients || !dir.clients[r.client].secrets.active {
        return None;
      }
      var client := dir.clients[r.client];
      var registered := ContainsString(client.redirects, r.redirect);
      if !registered {
        return None;
      }
      if r.responseType != "code" || r.state == "" || r.challenge.None? {
        return None;
      }
      var asked := if r.scope.Some? then r.scope.value else ["openid", "profile"];
      var openid := ContainsString(asked, OPENID);
      if !openid {
        return None;
      }
      var allowed := AllContained(asked, client.scopes);
      return if allowed then Some(asked) else None;
    }

    /** The authorize endpoint; false is any exit without a code. */
    method HandleAuthorize(r: World.AuthorizeRequest, c: CodeId, f: FamilyId) returns (ok: bool)
      requires c !in codeStore.rows
      modifies this, codeStore
      ensures ok <==> World.Authorize(old(View()), r, c, f).Some?
      ensures View() == World.Apply(old(View()), World.DoAuthorize(r, c, f))
      ensures !ok ==> codeStore.rows == old(codeStore.rows)
      ensures ok ==>
                && r.user.Some? && r.challenge.Some?
                && var asked := if r.scope.Some? then r.scope.value else ["openid", "profile"];
                codeStore.rows == old(codeStore.rows)[
                  c := CodeRow(r.client, r.user.value, r.redirect, asked, r.challenge.value, now + 60_000, f, false)]
    {
      var scopes := CheckRequest(r);
      if scopes.None? {
        return false;
      }
      var signedIn := CheckLogin(r);
      if !signedIn {
        return false;
      }
      var row := CodeRow(r.client, r.user.value, r.redirect, scopes.value, r.challenge.value, now + CODE_TTL, f, false);
      MintCode(c, row);
      return true;
    }

    method MintCode(c: CodeId, row: CodeRow)
      requires c !in codeStore.rows
      modifies this, codeStore
      ensures View() == old(View()).(grants := World.Mint(old(View()).grants, c, row))
      ensures codeStore.rows == old(codeStore.rows)[c := row] && now == old(now)
    {
      codeStore.Insert(c, row);
      codeLog := codeLog.(minted := codeLog.minted[c := row]);
    }

    /** prompt, max_age and the session: whether the user need not log in again. */
    method CheckLogin(r: World.AuthorizeRequest) returns (ok: bool)
      ensures var age := if r.maxAge == "" then Some(0) else World.ParseUint(r.maxAge);
              ok <==> && (r.prompt == "" || r.prompt == "none") && age.Some? && r.user.Some?
                      && (age.value > 0 && r.sessionCreatedAt.Some? ==>
                            now - r.sessionCreatedAt.value <= 1000 * (if age.value > 9_223_372_036 then 9_223_372_036
                                                                      else age.value))
    {
      if r.prompt != "" && r.prompt != "none" && r.prompt != "login" {
        return false;
      }
      var maxAge := 0;
      if r.maxAge != "" {
        var secs := ParseUint(r.maxAge);
        if secs.None? {
          return false;
        }
        maxAge := if secs.value > World.MAX_AGE_CAP then World.MAX_AGE_CAP else secs.value;
      }
      var needReauth := r.user.None? || r.prompt == "login";
      if !needReauth && maxAge > 0 && r.sessionCreatedAt.Some? && now - r.sessionCreatedAt.value > maxAge * 1000 {
        needReauth := true;
      }
      return !needReauth;
    }

    /** handleCodeReplay. */
    method HandleCodeReplay(c: CodeId)
      modifies this, refreshStore
      ensures View() == old(View()).(grants := World.CodeReplay(old(View()).grants, now, c))
    {
      var family := codeStore.LookupFamilyByCodeHash(c);
      if family.None? {
        return;
      }
      RevokeFamily(family.value);
    }

    method RevokeFamily(f: FamilyId)
      modifies this, refreshStore
      ensures View() == old(View()).(grants := World.Revoke(old(View()).grants, now, f))
    {
      refreshStore.RevokeFamily(now, f);
      famLog := World.Revoke(old(View()).grants, now, f).famLog;
    }

    /** The checks that follow ConsumeOnce. */
    method VetCode(r: World.ExchangeRequest, client: World.Client, row: CodeRow) returns (verdict: World.Verdict)
      requires r.client in dir.clients && client == dir.clients[r.client]
      ensures verdict == World.Vet(dir, r, row)
    {
      if row.client != r.client || row.redirect != r.redirect {
        return World.Refused(World.InvalidGrant);
      }
      if !VerifyPkce(row.challenge, r.verifier) {
        return World.Refused(World.InvalidGrant);
      }
      if row.user !in dir.users || !dir.users[row.user] {
        return World.Refused(World.InvalidGrant);
      }
      var allows := ContainsString(client.grants, "authorization_code");
      if !allows {
        return World.Refused(World.UnauthorizedClient);
      }
      var scopes := IntersectScopesAgainstClient(row.scopes, client.scopes);
      if scopes.None? {
        return World.Refused(World.InvalidScope);
      }
      return World.Vetted(scopes.value);
    }

    /** Create for a new family, recorded in the log. */
    method IssueFirst(c: CodeId, token: TokenId, p: Payload, allowed: seq<Scope>) returns (ok: bool)
      modifies this, refreshStore
      ensures ok == World.Found(old(View()).grants, now, c, token, p, allowed).Some?
      ensures !ok ==> View() == old(View())
      ensures ok ==> View() == old(View()).(grants := World.Found(old(View()).grants, now, c, token, p, allowed).value)
    {
      ok := refreshStore.Create(now, token, p);
      if ok {
        famLog := World.LogIssue(famLog, now, token, None, p, allowed);
        famLog := famLog.(families := famLog.families[p.family := World.Family(c, token, now, p.expires)]);
      }
    }

    /** With offline_access: the first refresh token; `begin` is the code table at the
        start of the transaction, restored when Create refuses. */
    method IssueOffline(ghost w: World.World, begin: Codes, r: World.ExchangeRequest, row: CodeRow, scopes: seq<Scope>,
                        token: TokenId, jti: nat, kid: KeyId)
      returns (out: World.Outcome)
      requires r.client in w.dir.clients && r.code in begin && begin == w.grants.codes && row == begin[r.code]
      requires View() == w.(grants := World.Redeem(w.grants, r.code)) && OFFLINE_ACCESS in scopes
      modifies this, refreshStore, codeStore
      ensures (out, View()) == World.IssueTokens(w, r, World.Draw(token, jti, Some(kid)), scopes)
    {
      var p := Payload(row.user, row.client, scopes, row.family, now / 1000, now / 1000 + dir.refreshTtl, false);
      var ok := IssueFirst(r.code, token, p, dir.clients[r.client].scopes);
      if !ok {
        codeStore.rows := begin;
        codeLog := w.grants.codeLog;
        return World.ServerError;
      }
      access := access[jti := World.SignAccess(w, row.user, row.client, scopes, kid, r.code)];
      return World.Granted(jti, Some(token));
    }

    /** Sign and issue. */
    method IssueTokens(ghost w: World.World, begin: Codes, r: World.ExchangeRequest, row: CodeRow, scopes: seq<Scope>,
                       token: TokenId, jti: nat)
      returns (out: World.Outcome, kid: Option<KeyId>)
      requires r.client in w.dir.clients && r.code in begin && begin == w.grants.codes && row == begin[r.code]
      requires View() == w.(grants := World.Burn(w.grants, r.code))
      modifies this, refreshStore, codeStore
      ensures ActiveAnswer(keyStore.rows, kid)
      ensures (out, View()) == World.IssueTokens(w, r, World.Draw(token, jti, kid), scopes)
    {
      codeLog := w.grants.codeLog;
      kid := keyStore.GetActive();
      if kid.None? {
        codeStore.rows := begin;
        return World.ServerError, kid;
      }
      codeLog := codeLog.(exchanged := codeLog.exchanged + {r.code});
      if OFFLINE_ACCESS in scopes {
        out := IssueOffline(w, begin, r, row, scopes, token, jti, kid.value);
        return;
      }
      access := access[jti := World.SignAccess(w, row.user, row.client, scopes, kid.value, r.code)];
      return World.Granted(jti, None), kid;
    }

    /** handleAuthorizationCode: the code is consumed first; the later mismatch exits
        commit, the server errors roll the transaction back. */
    method HandleAuthorizationCode(r: World.ExchangeRequest, token: TokenId, jti: nat)
      returns (out: World.Outcome, ghost draw: World.Draw)
      modifies this, refreshStore, codeStore
      ensures draw.token == token && draw.jti == jti && ActiveAnswer(keyStore.rows, draw.kid)
      ensures (out, View()) == World.Exchange(old(View()), r, draw)
    {
      draw := World.Draw(token, jti, SomeAnswer(keyStore.rows));
      if r.redirect == "" || r.verifier == "" {
        return World.InvalidRequest, draw;
      }
      var client := AuthenticateClient(r.client, r.secret);
      if client.None? {
        return World.InvalidClient, draw;
      }
      var begin := codeStore.rows;
      var row := codeStore.ConsumeOnce(now, r.code);
      if row.None? {
        HandleCodeReplay(r.code);
        return World.InvalidGrant, draw;
      }
      codeLog := codeLog.(burnt := codeLog.burnt + {r.code});
      var verdict := VetCode(r, client.value, row.value);
      if verdict.Refused? {
        return verdict.error, draw;
      }
      var kid;
      out, kid := IssueTokens(old(View()), begin, r, row.value, verdict.scopes, token, jti);
      draw := draw.(kid := kid);
    }

    /** handleRefreshToken: the successor is created before the presented token is
        marked. */
    method HandleRefreshToken(r: World.RefreshRequest, token: TokenId, jti: nat)
      returns (out: World.Outcome, ghost draw: World.Draw)
      modifies this, refreshStore
      ensures draw.token == token && draw.jti == jti && ActiveAnswer(keyStore.rows, draw.kid)
      ensures (out, View()) == World.Refresh(old(View()), r, draw)
    {
      draw := World.Draw(token, jti, SomeAnswer(keyStore.rows));
      var client := AuthenticateClient(r.client, r.secret);
      if client.None? {
        return World.InvalidClient, draw;
      }
      var consumed := refreshStore.Consume(now, r.token);
      if consumed.Unknown? {
        return World.InvalidGrant, draw;
      }
      var p := consumed.payload;
      if consumed.Reused? {
        RevokeFamily(p.family);
        return World.InvalidGrant, draw;
      }
      if p.client != r.client {
        return World.InvalidGrant, draw;
      }
      var allows := ContainsString(client.value.grants, "refresh_token");
      if !allows {
        return World.UnauthorizedClient, draw;
      }
      var scopes := IntersectScopesAgainstClient(p.scopes, client.value.scopes);
      if scopes.None? {
        return World.InvalidScope, draw;
      }
      if p.user !in dir.users {
        return World.InvalidGrant, draw;
      }
      if !dir.users[p.user] {
        RevokeFamily(p.family);
        return World.InvalidGrant, draw;
      }
      var cutoff := userCuts.RevokeBeforeGet(now, p.user);
      if cutoff.Some? && p.createdAt < cutoff.value {
        RevokeFamily(p.family);
        return World.InvalidGrant, draw;
      }
      var kid := keyStore.GetActive();
      draw := draw.(kid := kid);
      if kid.None? {
        return World.ServerError, draw;
      }
      var child := Payload(p.user, p.client, scopes.value, p.family, now / 1000, p.expires, false);
      var ok := refreshStore.Create(now, token, child);
      if !ok {
        return World.InvalidGrant, draw;
      }
      refreshStore.MarkUsed(now, r.token);
      ghost var code := World.CodeOf(famLog, p.family);
      access := access[jti := World.SignAccess(old(View()), p.user, p.client, scopes.value, kid.value, code)];
      famLog := World.LogIssue(famLog, now, token, Some(r.token), child, client.value.scopes);
      return World.Granted(jti, Some(token)), draw;
    }

    /** BearerAuth once the signature has been verified: the chain of tests in order. */
    method BearerAuth(a: World.Access) returns (ok: bool)
      ensures ok == World.BearerAccepts(View(), a)
      ensures var sec := now / 1000;
              ok <==>
                && a.kid in keyStore.rows && keyStore.rows[a.kid].status != Retired
                && (a.exp > 0 ==> sec <= a.exp + 30) && (a.iat > 0 ==> a.iat <= sec + 30)
                && a.user in dir.users && dir.users[a.user]
                && (a.user in userCuts.keys && now < userCuts.keys[a.user].deadline ==>
                      userCuts.keys[a.user].value <= a.iat)
                && (a.client in clientCuts.keys && now < clientCuts.keys[a.client].deadline ==>
                      clientCuts.keys[a.client].value <= a.iat)
    {
      var known := keyStore.LookupPublishable(a.kid);
      if !known {
        return false;
      }
      var sec := now / 1000;
      if a.exp > 0 && sec > a.exp + World.CLOCK_SKEW {
        return false;
      }
      if a.iat > 0 && sec + World.CLOCK_SKEW < a.iat {
        return false;
      }
      if a.user !in dir.users || !dir.users[a.user] {
        return false;
      }
      var cutoff := userCuts.RevokeBeforeGet(now, a.user);
      if cutoff.Some? && a.iat < cutoff.value {
        return false;
      }
      var clientCutoff := clientCuts.RevokeBeforeGet(now, a.client);
      if clientCutoff.Some? && a.iat < clientCutoff.value {
        return false;
      }
      return true;
    }
  }
}
