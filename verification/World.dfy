/** The authorization server as a state machine: everything the token endpoints, the
    admin handlers and the sweepers read and write, plus a log of what was ever
    issued. One handler call is one step. */
module World {
  import opened Prelude
  import opened Scopes
  import opened RefreshStore
  import opened AuthCodes
  import opened SigningKeys
  import opened RevokeBefore
  import Secrets = ClientSecrets

  datatype Client = Client(secrets: Secrets.Row, grants: seq<string>, scopes: seq<Scope>, redirects: seq<string>)

  /** users maps an id to "status is active". */
  datatype Directory = Directory(
    users: map<UserId, bool>, clients: map<ClientId, Client>, accessTtl: nat, refreshTtl: nat)

  /** A refresh token as handed out at instant `at`, when `allowed` was the client's scope
      list. */
  datatype Issue = Issue(payload: Payload, parent: Option<TokenId>, allowed: seq<Scope>, rank: nat, at: nat)

  datatype Family = Family(code: CodeId, root: TokenId, exchangedAt: nat, expires: nat)

  /** An access token's claims, its kid, and the code it goes back to. */
  datatype Access = Access(
    user: UserId, client: ClientId, scopes: seq<Scope>, kid: KeyId, iat: nat, exp: nat, signedAt: nat, code: CodeId)

  /** History, which the server never reads: codes minted, and what became of them. */
  datatype CodeLog = CodeLog(minted: Codes, exchanged: set<CodeId>, burnt: set<CodeId>, deletedClients: set<ClientId>)

  /** History of refresh tokens; `revoked` keeps the instant of the first RevokeFamily. */
  datatype FamilyLog = FamilyLog(
    issued: map<TokenId, Issue>, count: nat,
    families: map<FamilyId, Family>, heads: map<FamilyId, TokenId>, revoked: map<FamilyId, nat>)

  datatype Grants = Grants(codes: Codes, codeLog: CodeLog, store: Store, famLog: FamilyLog)

  datatype World = World(
    now: nat, dir: Directory, grants: Grants,
    keys: Keys, emergency: set<KeyId>, access: map<nat, Access>,
    userCuts: Cutoffs, userCutLog: set<(UserId, nat)>,
    clientCuts: Cutoffs, clientCutLog: set<(ClientId, nat)>)

  datatype Outcome =
    | InvalidRequest | InvalidClient | InvalidGrant | UnauthorizedClient | InvalidScope | ServerError
    | Granted(jti: nat, refresh: Option<TokenId>)

  /** Random values a step draws, and the row GetActive answered. */
  datatype Draw = Draw(token: TokenId, jti: nat, kid: Option<KeyId>)

  /** The query of GET /authorize and the session it arrives with. No scope is the
      default scope; no challenge is a missing one or a method other than S256; an
      empty prompt or max_age is an absent one. */
  datatype AuthorizeRequest = AuthorizeRequest(
    client: ClientId, redirect: string, responseType: string, state: string, challenge: Option<Challenge>,
    scope: Option<seq<Scope>>, prompt: string, maxAge: string,
    user: Option<UserId>, sessionCreatedAt: Option<nat>)

  datatype ExchangeRequest = ExchangeRequest(
    client: ClientId, secret: Secrets.Secret, code: CodeId, redirect: string, verifier: string)

  datatype RefreshRequest = RefreshRequest(client: ClientId, secret: Secrets.Secret, token: TokenId)

  const MAX_ACCESS_TTL: nat := 3600
  const MAX_REFRESH_TTL: nat := 604_800
  const CLOCK_SKEW: nat := 30

  /** VerifySecret followed by GetByID. */
  predicate Authenticated(w: World, c: ClientId, s: Secrets.Secret) {
    c in w.dir.clients && Secrets.Verifies(w.dir.clients[c].secrets, w.now, s)
  }

  predicate UserActive(d: Directory, u: UserId) {
    u in d.users && d.users[u]
  }

  // ----- grants: transitions on codes, refresh store and log -----

  function Mint(g: Grants, c: CodeId, row: CodeRow): Grants {
    g.(codes := g.codes[c := row], codeLog := g.codeLog.(minted := g.codeLog.minted[c := row]))
  }

  /** The code is spent, and the request ends in an error. */
  function Burn(g: Grants, c: CodeId): Grants
    requires c in g.codes
  {
    g.(codes := Spend(g.codes, c), codeLog := g.codeLog.(burnt := g.codeLog.burnt + {c}))
  }

  /** The code is spent on a success. */
  function Redeem(g: Grants, c: CodeId): Grants
    requires c in g.codes
  {
    g.(codes := Spend(g.codes, c), codeLog := g.codeLog.(exchanged := g.codeLog.exchanged + {c}))
  }

  function RootPayload(row: CodeRow, now: nat, refreshTtl: nat, scopes: seq<Scope>): Payload {
    Payload(row.user, row.client, scopes, row.family, Sec(now), Sec(now) + refreshTtl, false)
  }

  function LogIssue(log: FamilyLog, now: nat, t: TokenId, parent: Option<TokenId>, p: Payload,
                    allowed: seq<Scope>): FamilyLog {
    log.(issued := log.issued[t := Issue(p, parent, allowed, log.count, now)], count := log.count + 1,
         heads := log.heads[p.family := t])
  }

  /** What a family's first token leaves in the log. */
  function FoundLog(log: FamilyLog, now: nat, c: CodeId, t: TokenId, p: Payload, allowed: seq<Scope>): FamilyLog {
    var log' := LogIssue(log, now, t, None, p, allowed);
    log'.(families := log'.families[p.family := Family(c, t, now, p.expires)])
  }

  /** The first token of a family. */
  function Found(g: Grants, now: nat, c: CodeId, t: TokenId, p: Payload, allowed: seq<Scope>): Option<Grants> {
    match Created(g.store, now, t, p)
    case None => None
    case Some(store) => Some(g.(store := store, famLog := FoundLog(g.famLog, now, c, t, p, allowed)))
  }

  function Rotate(g: Grants, now: nat, parent: TokenId, child: TokenId, p: Payload,
                  allowed: seq<Scope>): Option<Grants> {
    match Rotated(g.store, now, parent, child, p)
    case None => None
    case Some(store) => Some(g.(store := store, famLog := LogIssue(g.famLog, now, child, Some(parent), p, allowed)))
  }

  function RevokedLog(log: FamilyLog, now: nat, f: FamilyId): FamilyLog {
    log.(revoked := if f in log.revoked then log.revoked else log.revoked[f := now])
  }

  function Revoke(g: Grants, now: nat, f: FamilyId): Grants {
    g.(store := Revoked(g.store, now, f), famLog := RevokedLog(g.famLog, now, f))
  }

  /** handleCodeReplay: spent, expired and unknown codes all end here. */
  function CodeReplay(g: Grants, now: nat, c: CodeId): Grants {
    if c in g.codes then Revoke(g, now, g.codes[c].family) else g
  }

  function SweepCodes(g: Grants, now: nat): Grants {
    g.(codes := Swept(g.codes, now, CODE_RETENTION))
  }

  /** DELETE on clients cascades to the client's codes. */
  function CascadeClient(g: Grants, c: ClientId): Grants {
    g.(codes := map k | k in g.codes && g.codes[k].client != c :: g.codes[k],
       codeLog := g.codeLog.(deletedClients := g.codeLog.deletedClients + {c}))
  }

  // ----- handlers -----

  const UINT64: nat := 0x1_0000_0000_0000_0000
  /** The longest max_age, in seconds, that fits a time.Duration. */
  const MAX_AGE_CAP: nat := 9_223_372_036

  /** The number a string of digits denotes. */
  function Decimal(s: string): nat {
    if s == "" then 0
    else 10 * Decimal(s[..|s| - 1]) + (if '0' <= s[|s| - 1] <= '9' then s[|s| - 1] as int - '0' as int else 0)
  }

  /** parseUint: digits only, and 64-bit wrap-around. */
  function ParseUint(s: string): Option<nat> {
    if s == "" || exists c :: c in s && !('0' <= c <= '9') then None else Some(Decimal(s) % UINT64)
  }

  /** No session, prompt=login, or a session older than max_age. */
  predicate NeedsReauth(r: AuthorizeRequest, now: nat, maxAge: nat) {
    || r.user.None? || r.prompt == "login"
    || (maxAge > 0 && r.sessionCreatedAt.Some? && now - r.sessionCreatedAt.value > Ticks(maxAge))
  }

  /** GET /authorize: None is any exit without a code, an error or a new login. */
  function Authorize(w: World, r: AuthorizeRequest, c: CodeId, f: FamilyId): Option<World> {
    if r.client !in w.dir.clients || !w.dir.clients[r.client].secrets.active then None
    else
      var client := w.dir.clients[r.client];
      var scopes := if r.scope.Some? then r.scope.value else ["openid", "profile"];
      var age := if r.maxAge == "" then Some(0) else ParseUint(r.maxAge);
      if r.redirect == "" || r.redirect !in client.redirects then None
      else if r.responseType != "code" || r.state == "" || r.challenge.None? then None
      else if OPENID !in scopes || exists s :: s in scopes && s !in client.scopes then None
      else if r.prompt !in ["", "none", "login"] || age.None? then None
      else if NeedsReauth(r, w.now, if age.value > MAX_AGE_CAP then MAX_AGE_CAP else age.value) then None
      else
        var row := CodeRow(r.client, r.user.value, r.redirect, scopes, r.challenge.value, w.now + CODE_TTL, f, false);
        Some(w.(grants := Mint(w.grants, c, row)))
  }

  function SignAccess(w: World, user: UserId, client: ClientId, scopes: seq<Scope>, kid: KeyId, code: CodeId): Access {
    Access(user, client, scopes, kid, Sec(w.now), Sec(w.now) + w.dir.accessTtl, w.now, code)
  }

  datatype Verdict = Refused(error: Outcome) | Vetted(scopes: seq<Scope>)

  /** The checks on a consumed code: client, redirect, PKCE, user, grant type, scopes. */
  function Vet(dir: Directory, r: ExchangeRequest, row: CodeRow): Verdict
    requires r.client in dir.clients
  {
    if row.client != r.client || row.redirect != r.redirect then Refused(InvalidGrant)
    else if !VerifyPkce(row.challenge, r.verifier) then Refused(InvalidGrant)
    else if !UserActive(dir, row.user) then Refused(InvalidGrant)
    else if "authorization_code" !in dir.clients[r.client].grants then Refused(UnauthorizedClient)
    else match Narrow(row.scopes, dir.clients[r.client].scopes)
      case None => Refused(InvalidScope)
      case Some(scopes) => Vetted(scopes)
  }

  /** Signing and, with offline_access, the first refresh token; a server error rolls
      the consumed code back. */
  function IssueTokens(w: World, r: ExchangeRequest, d: Draw, scopes: seq<Scope>): (Outcome, World)
    requires r.client in w.dir.clients && r.code in w.grants.codes
  {
    var g, row := w.grants, w.grants.codes[r.code];
    if d.kid.None? then (ServerError, w)
    else
      var access := w.access[d.jti := SignAccess(w, row.user, row.client, scopes, d.kid.value, r.code)];
      if OFFLINE_ACCESS !in scopes then
        (Granted(d.jti, None), w.(grants := Redeem(g, r.code), access := access))
      else
        match Found(Redeem(g, r.code), w.now, r.code, d.token, RootPayload(row, w.now, w.dir.refreshTtl, scopes),
                    w.dir.clients[r.client].scopes)
        case None => (ServerError, w)
        case Some(g') => (Granted(d.jti, Some(d.token)), w.(grants := g', access := access))
  }

  /** POST /token, grant_type=authorization_code. */
  function Exchange(w: World, r: ExchangeRequest, d: Draw): (Outcome, World) {
    var g := w.grants;
    if r.redirect == "" || r.verifier == "" then (InvalidRequest, w)
    else if !Authenticated(w, r.client, r.secret) then (InvalidClient, w)
    else if !Consumable(g.codes, w.now, r.code) then (InvalidGrant, w.(grants := CodeReplay(g, w.now, r.code)))
    else
      var row := g.codes[r.code];
      var spent := w.(grants := Burn(g, r.code));
      match Vet(w.dir, r, row)
      case Refused(error) => (error, spent)
      case Vetted(scopes) => IssueTokens(w, r, d, scopes)
  }

  function ChildPayload(p: Payload, now: nat, scopes: seq<Scope>): Payload {
    Payload(p.user, p.client, scopes, p.family, Sec(now), p.expires, false)
  }

  /** The code a logged refresh token goes back to. */
  function CodeOf(log: FamilyLog, f: FamilyId): CodeId {
    if f in log.families then log.families[f].code else 0
  }

  /** POST /token, grant_type=refresh_token. */
  function Refresh(w: World, r: RefreshRequest, d: Draw): (Outcome, World) {
    var g := w.grants;
    if !Authenticated(w, r.client, r.secret) then (InvalidClient, w)
    else match Consumed(g.store, w.now, r.token)
      case Unknown => (InvalidGrant, w)
      case Reused(p) => (InvalidGrant, w.(grants := Revoke(g, w.now, p.family)))
      case Fresh(p) =>
        var client := w.dir.clients[r.client];
        var revoked := w.(grants := Revoke(g, w.now, p.family));
        if p.client != r.client then (InvalidGrant, w)
        else if "refresh_token" !in client.grants then (UnauthorizedClient, w)
        else match Narrow(p.scopes, client.scopes)
          case None => (InvalidScope, w)
          case Some(scopes) =>
            if p.user !in w.dir.users then (InvalidGrant, w)
            else if !w.dir.users[p.user] then (InvalidGrant, revoked)
            else if Blocks(w.userCuts, w.now, p.user, p.createdAt) then (InvalidGrant, revoked)
            else if d.kid.None? then (ServerError, w)
            else match Rotate(g, w.now, r.token, d.token, ChildPayload(p, w.now, scopes), client.scopes)
              case None => (InvalidGrant, w)
              case Some(g') =>
                (Granted(d.jti, Some(d.token)),
                 w.(grants := g',
                    access := w.access[d.jti := SignAccess(w, p.user, p.client, scopes, d.kid.value,
                                                           CodeOf(g.famLog, p.family))]))
  }

  function Presented(w: World, t: TokenId): Payload
    requires t in w.grants.store.tokens
  {
    w.grants.store.tokens[t].value
  }

  /** What an exchange checks; an access-only exchange needs no refresh TTL. */
  ghost predicate MayExchange(w: World, r: ExchangeRequest, d: Draw) {
    && r.redirect != ""
    && Authenticated(w, r.client, r.secret)
    && Consumable(w.grants.codes, w.now, r.code)
    && var row := w.grants.codes[r.code];
    && row.client == r.client && row.redirect == r.redirect && VerifyPkce(row.challenge, r.verifier)
    && UserActive(w.dir, row.user)
    && "authorization_code" in w.dir.clients[r.client].grants
    && Narrow(row.scopes, w.dir.clients[r.client].scopes).Some?
    && d.kid.Some?
    && (OFFLINE_ACCESS in Narrow(row.scopes, w.dir.clients[r.client].scopes).value ==> w.dir.refreshTtl > 0)
  }

  /** The code was not meant for this request: another client, redirect or verifier, a
      user who is gone or disabled, or a client that lost the grant type or every scope. */
  ghost predicate Mismatch(dir: Directory, r: ExchangeRequest, row: CodeRow)
    requires r.client in dir.clients
  {
    || row.client != r.client || row.redirect != r.redirect || row.challenge != S256(r.verifier)
    || row.user !in dir.users || !dir.users[row.user]
    || "authorization_code" !in dir.clients[r.client].grants
    || Narrow(row.scopes, dir.clients[r.client].scopes).None?
  }

  /** All parameters present, and the client authenticates. */
  ghost predicate Admitted(w: World, r: ExchangeRequest) {
    r.redirect != "" && r.verifier != "" && Authenticated(w, r.client, r.secret)
  }

  /** An exchange redeems its code, and tokens come out, exactly when every check passes.
      Otherwise nothing is signed, and a code that cannot be consumed is replayed, a
      consumed one that does not match is spent, and in every other case (a request that
      is not admitted, a server error) the grants stay as they are. */
  lemma ExchangeCases(w: World, r: ExchangeRequest, d: Draw)
    ensures var (out, w') := Exchange(w, r, d);
            var g := w.grants;
            && w' == w.(grants := w'.grants, access := w'.access)
            && (out.Granted? <==> MayExchange(w, r, d))
            && (out.Granted? ==>
                  var row, allowed := g.codes[r.code], w.dir.clients[r.client].scopes;
                  var scopes := Narrow(row.scopes, allowed).value;
                  && out == Granted(d.jti, if OFFLINE_ACCESS in scopes then Some(d.token) else None)
                  && w'.access == w.access[d.jti := SignAccess(w, row.user, row.client, scopes, d.kid.value, r.code)]
                  && (OFFLINE_ACCESS !in scopes ==> w'.grants == Redeem(g, r.code))
                  && (OFFLINE_ACCESS in scopes ==>
                        Found(Redeem(g, r.code), w.now, r.code, d.token,
                              RootPayload(row, w.now, w.dir.refreshTtl, scopes), allowed)
                        == Some(w'.grants)))
            && (!out.Granted? ==>
                  && w'.access == w.access
                  && w'.grants ==
                     if !Admitted(w, r) then g
                     else if !Consumable(g.codes, w.now, r.code) then CodeReplay(g, w.now, r.code)
                     else if Mismatch(w.dir, r, g.codes[r.code]) then Burn(g, r.code)
                     else g)
  {
  }

  /** What a refresh checks. */
  ghost predicate MayRefresh(w: World, r: RefreshRequest, d: Draw) {
    && Authenticated(w, r.client, r.secret)
    && Consumed(w.grants.store, w.now, r.token).Fresh?
    && var p := Presented(w, r.token);
    && p.client == r.client
    && "refresh_token" in w.dir.clients[r.client].grants
    && Narrow(p.scopes, w.dir.clients[r.client].scopes).Some?
    && UserActive(w.dir, p.user)
    && !Blocks(w.userCuts, w.now, p.user, p.createdAt)
    && d.kid.Some?
    && Sec(w.now) < p.expires
  }

  /** A refresh that is refused in earnest: a reported reuse, or a fresh token that fits its
      client while its user is disabled or was cut. */
  ghost predicate MustRevoke(w: World, r: RefreshRequest) {
    && Authenticated(w, r.client, r.secret)
    && Readable(w.grants.store, w.now, r.token)
    && var p := Presented(w, r.token);
    && (|| p.used
        || (&& p.client == r.client && "refresh_token" in w.dir.clients[r.client].grants
            && Narrow(p.scopes, w.dir.clients[r.client].scopes).Some?
            && p.user in w.dir.users
            && (!w.dir.users[p.user] || Blocks(w.userCuts, w.now, p.user, p.createdAt))))
  }

  /** A refresh rotates exactly when every check passes. Otherwise nothing is signed, and
      the presented token's family is revoked if it must be, and only then. */
  lemma RefreshCases(w: World, r: RefreshRequest, d: Draw)
    ensures var (out, w') := Refresh(w, r, d);
            var g := w.grants;
            && w' == w.(grants := w'.grants, access := w'.access)
            && (out.Granted? <==> MayRefresh(w, r, d))
            && (out.Granted? ==>
                  var p, allowed := Presented(w, r.token), w.dir.clients[r.client].scopes;
                  var scopes := Narrow(p.scopes, allowed).value;
                  && out == Granted(d.jti, Some(d.token))
                  && Rotate(g, w.now, r.token, d.token, ChildPayload(p, w.now, scopes), allowed) == Some(w'.grants)
                  && w'.access == w.access[d.jti := SignAccess(w, p.user, p.client, scopes, d.kid.value,
                                                               CodeOf(g.famLog, p.family))])
            && (!out.Granted? ==>
                  && w'.access == w.access
                  && w'.grants == if MustRevoke(w, r) then Revoke(g, w.now, Presented(w, r.token).family) else g)
  {
  }

  /** Each error of the code grant against its own condition. */
  lemma ExchangeErrors(w: World, r: ExchangeRequest, d: Draw)
    ensures var out := Exchange(w, r, d).0;
            var known := && r.client in w.dir.clients
                         && Secrets.Verifies(w.dir.clients[r.client].secrets, w.now, r.secret);
            && (out == InvalidRequest <==> r.redirect == "" || r.verifier == "")
            && (out == InvalidClient <==> r.redirect != "" && r.verifier != "" && !known)
            && (Admitted(w, r) && Consumable(w.grants.codes, w.now, r.code) ==>
                  var row, client := w.grants.codes[r.code], w.dir.clients[r.client];
                  var foreign := || row.client != r.client || row.redirect != r.redirect
                                 || row.challenge != S256(r.verifier);
                  var idle := row.user !in w.dir.users || !w.dir.users[row.user];
                  && (out == InvalidGrant <==> foreign || idle)
                  && (out == UnauthorizedClient <==> !foreign && !idle && "authorization_code" !in client.grants)
                  && (out == InvalidScope <==>
                        && !foreign && !idle && "authorization_code" in client.grants
                        && Narrow(row.scopes, client.scopes).None?))
            && (Admitted(w, r) && !Consumable(w.grants.codes, w.now, r.code) ==> out == InvalidGrant)
  {
  }

  /** Each error of the refresh grant against its own condition. */
  lemma RefreshErrors(w: World, r: RefreshRequest, d: Draw)
    ensures var out := Refresh(w, r, d).0;
            var known := && r.client in w.dir.clients
                         && Secrets.Verifies(w.dir.clients[r.client].secrets, w.now, r.secret);
            && (out == InvalidClient <==> !known)
            && (known && !Consumed(w.grants.store, w.now, r.token).Fresh? ==> out == InvalidGrant)
            && (known && Consumed(w.grants.store, w.now, r.token).Fresh? ==>
                  var p, client := Presented(w, r.token), w.dir.clients[r.client];
                  && (p.client != r.client ==> out == InvalidGrant)
                  && (out == UnauthorizedClient <==> p.client == r.client && "refresh_token" !in client.grants)
                  && (out == InvalidScope <==>
                        && p.client == r.client && "refresh_token" in client.grants
                        && Narrow(p.scopes, client.scopes).None?))
  {
  }

  /** The acceptance test of BearerAuth, after the signature has been verified. */
  predicate BearerAccepts(w: World, a: Access) {
    && Publishable(w.keys, a.kid)
    && !(a.exp > 0 && Sec(w.now) > a.exp + CLOCK_SKEW)
    && !(a.iat > 0 && Sec(w.now) + CLOCK_SKEW < a.iat)
    && UserActive(w.dir, a.user)
    && !Blocks(w.userCuts, w.now, a.user, a.iat)
    && !Blocks(w.clientCuts, w.now, a.client, a.iat)
  }

  function CutUser(w: World, u: UserId): World {
    w.(userCuts := SetNow(w.userCuts, w.now, u), userCutLog := w.userCutLog + {(u, w.now)})
  }

  function SetUser(w: World, u: UserId, active: bool): World {
    w.(dir := w.dir.(users := w.dir.users[u := active]))
  }

  /** DELETE on users is refused by the foreign key while a code row names the user. */
  function DeleteUser(w: World, u: UserId): World {
    if exists c :: c in w.grants.codes && w.grants.codes[c].user == u then w
    else w.(dir := w.dir.(users := w.dir.users - {u}))
  }

  function DeleteClient(w: World, c: ClientId): World {
    if c !in w.dir.clients then w
    else w.(dir := w.dir.(clients := w.dir.clients - {c}),
            grants := CascadeClient(w.grants, c),
            clientCuts := SetNow(w.clientCuts, w.now, c),
            clientCutLog := w.clientCutLog + {(c, w.now)})
  }

  predicate ValidTtls(access: Option<nat>, refresh: Option<nat>) {
    && (access.Some? ==> 300 <= access.value <= MAX_ACCESS_TTL)
    && (refresh.Some? ==> 3600 <= refresh.value <= MAX_REFRESH_TTL)
  }

  /** PATCH /api/settings/tokens: out of range is rejected whole. */
  function PatchTokens(w: World, access: Option<nat>, refresh: Option<nat>): World {
    if !ValidTtls(access, refresh) then w
    else w.(dir := w.dir.(
              accessTtl := if access.Some? then access.value else w.dir.accessTtl,
              refreshTtl := if refresh.Some? then refresh.value else w.dir.refreshTtl))
  }

  function RotateKey(w: World, current: Option<KeyId>, newId: KeyId): World {
    if current.None? then w else w.(keys := RotatedKeys(w.keys, w.now, current.value, newId))
  }

  function EmergencyRetire(w: World, k: KeyId): World {
    w.(keys := EmergencyRetired(w.keys, k),
       emergency := if EmergencyOutcome(w.keys, k) == Done then w.emergency + {k} else w.emergency)
  }

  // ----- steps and runs -----

  datatype Step =
    | Tick(dt: nat)
    | DoAuthorize(areq: AuthorizeRequest, code: CodeId, family: FamilyId)
    | DoExchange(xreq: ExchangeRequest, draw: Draw)
    | DoRefresh(rreq: RefreshRequest, draw: Draw)
    | DoSweepCodes
    | DoBootstrap(answer: Option<KeyId>, newId: KeyId)
    | DoRotateKey(answer: Option<KeyId>, newId: KeyId)
    | DoSweepKeys
    | DoEmergencyRetire(kid: KeyId)
    | DoCutUser(user: UserId)        // reset password, reset MFA, terminate all sessions, ...
    | DoDisableUser(user: UserId)
    | DoPutUser(user: UserId)        // create or enable
    | DoDeleteUser(user: UserId)
    | DoPutClient(client: ClientId, record: Client)  // create, patch, rotate secret, disable, enable
    | DoDeleteClient(client: ClientId)
    | DoPatchTokens(access: Option<nat>, refresh: Option<nat>)

  function Apply(w: World, s: Step): World {
    match s
    case Tick(dt) => w.(now := w.now + dt)
    case DoAuthorize(r, c, f) => (match Authorize(w, r, c, f) case None => w case Some(w') => w')
    case DoExchange(r, d) => Exchange(w, r, d).1
    case DoRefresh(r, d) => Refresh(w, r, d).1
    case DoSweepCodes => w.(grants := SweepCodes(w.grants, w.now))
    case DoBootstrap(a, k) => w.(keys := Bootstrapped(w.keys, a, k))
    case DoRotateKey(a, k) => RotateKey(w, a, k)
    case DoSweepKeys => w.(keys := SweptKeys(w.keys, w.now))
    case DoEmergencyRetire(k) => EmergencyRetire(w, k)
    case DoCutUser(u) => CutUser(w, u)
    case DoDisableUser(u) => if u in w.dir.users then CutUser(SetUser(w, u, false), u) else w
    case DoPutUser(u) => SetUser(w, u, true)
    case DoDeleteUser(u) => DeleteUser(w, u)
    case DoPutClient(c, rec) => w.(dir := w.dir.(clients := w.dir.clients[c := rec]))
    case DoDeleteClient(c) => DeleteClient(w, c)
    case DoPatchTokens(a, r) => PatchTokens(w, a, r)
  }

  /** Random ids are new, GetActive answers truthfully, deleted client ids do not come back. */
  ghost predicate Enabled(w: World, s: Step) {
    match s
    case DoAuthorize(_, c, f) =>
      && c !in w.grants.codeLog.minted
      && forall k :: k in w.grants.codeLog.minted ==> w.grants.codeLog.minted[k].family != f
    case DoExchange(_, d) => d.token !in w.grants.famLog.issued && d.jti !in w.access && ActiveAnswer(w.keys, d.kid)
    case DoRefresh(_, d) => d.token !in w.grants.famLog.issued && d.jti !in w.access && ActiveAnswer(w.keys, d.kid)
    case DoBootstrap(a, k) => k !in w.keys && ActiveAnswer(w.keys, a)
    case DoRotateKey(a, k) => k !in w.keys && ActiveAnswer(w.keys, a)
    case DoPutClient(c, _) => c !in w.grants.codeLog.deletedClients
    case _ => true
  }

  const NO_GRANTS := Grants(map[], CodeLog(map[], {}, {}, {}), EMPTY, FamilyLog(map[], 0, map[], map[], map[]))

  /** First boot: nothing issued, settings in their validated ranges, one key. */
  ghost predicate Initial(w: World) {
    && w.grants == NO_GRANTS
    && ValidTtls(Some(w.dir.accessTtl), Some(w.dir.refreshTtl))
    && (exists k: KeyId :: w.keys == map[k := KeyRow(Active, None)])
    && w.emergency == {} && w.access == map[]
    && w.userCuts == map[] && w.userCutLog == {}
    && w.clientCuts == map[] && w.clientCutLog == {}
  }

  /** `steps` leads from `a` to `b`. */
  ghost predicate Run(a: World, steps: seq<Step>, b: World)
    decreases |steps|
  {
    if steps == [] then a == b
    else Enabled(a, steps[0]) && Run(Apply(a, steps[0]), steps[1..], b)
  }
}
