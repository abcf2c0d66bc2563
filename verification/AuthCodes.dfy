/** The authorization_codes table (internal/authserver/authcode_store.go) and the
    nightly sweep over it (internal/server/sweeper.go). */
module AuthCodes {
  import opened Prelude
  import opened Scopes
  import opened RefreshStore

  type CodeId = nat

  /** An S256 code challenge; hashing is injective, so it determines its verifier. */
  datatype Challenge = S256(verifier: string)

  datatype CodeRow = CodeRow(
    client: ClientId, user: UserId, redirect: string, scopes: seq<Scope>,
    challenge: Challenge, expiresAt: nat, family: FamilyId, used: bool)

  type Codes = map<CodeId, CodeRow>

  /** authCodeTTL: 60 s. */
  const CODE_TTL: nat := 60_000
  /** INTERVAL '7 days'. */
  const CODE_RETENTION: nat := 604_800_000

  predicate VerifyPkce(challenge: Challenge, verifier: string) {
    verifier != "" && challenge == S256(verifier)
  }

  /** WHERE code_hash = $1 AND NOT used AND expires_at > now() */
  predicate Consumable(codes: Codes, now: nat, c: CodeId) {
    c in codes && !codes[c].used && now < codes[c].expiresAt
  }

  function Spend(codes: Codes, c: CodeId): Codes
    requires c in codes
  {
    codes[c := codes[c].(used := true)]
  }

  /** The rows a sweep keeps, for a given retention past code expiry. */
  function Swept(codes: Codes, now: nat, retention: nat): Codes {
    map c | c in codes && !(codes[c].expiresAt + retention < now) :: codes[c]
  }

  class AuthCodeTable {
    var rows: Codes

    constructor ()
      ensures rows == map[]
    {
      rows := map[];
    }

    method Insert(c: CodeId, row: CodeRow)
      requires c !in rows
      modifies this
      ensures rows == old(rows)[c := row]
    {
      rows := rows[c := row];
    }

    /** UPDATE ... RETURNING: at most one call ever gets the row. */
    method ConsumeOnce(now: nat, c: CodeId) returns (row: Option<CodeRow>)
      modifies this
      ensures row.Some? <==> Consumable(old(rows), now, c)
      ensures row.Some? ==> row.value == old(rows)[c] && rows == Spend(old(rows), c)
      ensures row.None? ==> rows == old(rows)
      ensures !Consumable(rows, now, c)
    {
      if c !in rows || rows[c].used || rows[c].expiresAt <= now {
        return None;
      }
      row := Some(rows[c]);
      rows := rows[c := rows[c].(used := true)];
    }

    method LookupFamilyByCodeHash(c: CodeId) returns (f: Option<FamilyId>)
      ensures f == if c in rows then Some(rows[c].family) else None
    {
      if c in rows {
        return Some(rows[c].family);
      }
      return None;
    }

    /** DELETE ... WHERE expires_at < now() - INTERVAL '7 days'. */
    method Sweep(now: nat)
      modifies this
      ensures rows == Swept(old(rows), now, CODE_RETENTION)
    {
      rows := map c | c in rows && now <= rows[c].expiresAt + CODE_RETENTION :: rows[c];
    }
  }
}
