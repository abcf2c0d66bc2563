/** Refresh tokens in Valkey (internal/oidc/refresh_store.go): one key per token,
    named by the token's hash, and one index set per family. A token stands for
    its hash, which is injective. */
module RefreshStore {
  import opened Prelude
  import opened Scopes

  type TokenId = nat
  type FamilyId = nat
  type UserId = nat
  type ClientId = nat

  datatype Payload = Payload(
    user: UserId, client: ClientId, scopes: seq<Scope>, family: FamilyId,
    createdAt: nat, expires: nat, used: bool)

  datatype Store = Store(tokens: map<TokenId, Cell<Payload>>, index: map<FamilyId, Cell<set<TokenId>>>)

  datatype Consumption = Unknown | Reused(payload: Payload) | Fresh(payload: Payload)

  const EMPTY := Store(map[], map[])

  /** SMEMBERS on the family's index set. */
  function Members(s: Store, now: nat, f: FamilyId): set<TokenId> {
    if f in s.index && Live(s.index[f], now) then s.index[f].value else {}
  }

  predicate Readable(s: Store, now: nat, t: TokenId) {
    t in s.tokens && Live(s.tokens[t], now)
  }

  /** The TTL command: the remaining time, rounded to the nearest second. */
  function TtlSecs(c: Cell<Payload>, now: nat): nat
    requires Live(c, now)
  {
    (c.deadline - now + 500) / 1000
  }

  /** Create: None when the absolute expiry has been reached. */
  function Created(s: Store, now: nat, t: TokenId, p: Payload): Option<Store> {
    if p.expires <= Sec(now) then None
    else
      var deadline := now + Ticks(p.expires - Sec(now));
      Some(Store(
             s.tokens[t := Cell(p.(used := false), deadline)],
             s.index[p.family := Cell(Members(s, now, p.family) + {t}, deadline)]))
  }

  function Consumed(s: Store, now: nat, t: TokenId): Consumption {
    if !Readable(s, now, t) then Unknown
    else if s.tokens[t].value.used then Reused(s.tokens[t].value)
    else Fresh(s.tokens[t].value)
  }

  /** MarkUsed: a key whose TTL answer is zero is left as it is. */
  function Marked(s: Store, now: nat, t: TokenId): Store {
    if !Readable(s, now, t) || TtlSecs(s.tokens[t], now) == 0 || s.tokens[t].value.used then s
    else s.(tokens := s.tokens[t := Cell(s.tokens[t].value.(used := true), now + Ticks(TtlSecs(s.tokens[t], now)))])
  }

  /** RevokeFamily: delete every indexed token and the index itself. */
  function Revoked(s: Store, now: nat, f: FamilyId): Store {
    Store(s.tokens - Members(s, now, f), s.index - {f})
  }

  /** Rotation as the refresh grant performs it: Create the child, then MarkUsed the parent. */
  function Rotated(s: Store, now: nat, parent: TokenId, child: TokenId, p: Payload): Option<Store> {
    match Created(s, now, child, p)
    case None => None
    case Some(s') => Some(Marked(s', now, parent))
  }

  class ValkeyRefreshStore {
    var tokens: map<TokenId, Cell<Payload>>
    var index: map<FamilyId, Cell<set<TokenId>>>

    ghost function View(): Store
      reads this
    {
      Store(tokens, index)
    }

    constructor ()
      ensures View() == EMPTY
    {
      tokens, index := map[], map[];
    }

    /** SET the token, SADD it to the family set, EXPIRE the set: one TTL for both. */
    method Create(now: nat, t: TokenId, p: Payload) returns (ok: bool)
      modifies this
      ensures ok == Created(old(View()), now, t, p).Some?
      ensures View() == if ok then Created(old(View()), now, t, p).value else old(View())
    {
      if p.expires <= Sec(now) {
        return false;
      }
      var ttl := Ticks(p.expires - Sec(now));
      var members := if p.family in index && Live(index[p.family], now) then index[p.family].value else {};
      tokens := tokens[t := Cell(p.(used := false), now + ttl)];
      index := index[p.family := Cell(members + {t}, now + ttl)];
      return true;
    }

    method Consume(now: nat, t: TokenId) returns (c: Consumption)
      ensures c == Consumed(View(), now, t)
    {
      if t !in tokens || !Live(tokens[t], now) {
        return Unknown;
      }
      var p := tokens[t].value;
      if p.used {
        return Reused(p);
      }
      return Fresh(p);
    }

    method MarkUsed(now: nat, t: TokenId)
      modifies this
      ensures View() == Marked(old(View()), now, t)
    {
      if t !in tokens || !Live(tokens[t], now) {
        return;
      }
      var ttl := TtlSecs(tokens[t], now);
      if ttl == 0 {
        return;
      }
      var p := tokens[t].value;
      if p.used {
        return;
      }
      tokens := tokens[t := Cell(p.(used := true), now + Ticks(ttl))];
    }

    /** The loop queues one DEL per member of the index set. */
    method RevokeFamily(now: nat, f: FamilyId)
      modifies this
      ensures View() == Revoked(old(View()), now, f)
    {
      var hashes := if f in index && Live(index[f], now) then index[f].value else {};
      var queue := hashes;
      while queue != {}
        invariant queue <= hashes
        invariant index == old(index)
        invariant tokens == old(tokens) - (hashes - queue)
        decreases queue
      {
        var h :| h in queue;
        assert hashes - (queue - {h}) == (hashes - queue) + {h};
        tokens := tokens - {h};
        queue := queue - {h};
      }
      assert hashes - {} == hashes;
      index := index - {f};
    }
  }

  /** Exactly when rotation retires the presented token: MarkUsed takes effect if
      and only if at least half a second is left on the key. */
  lemma RotationRetiresIff(s: Store, now: nat, parent: TokenId, child: TokenId, p: Payload)
    requires Consumed(s, now, parent).Fresh? && child != parent
    requires Rotated(s, now, parent, child, p).Some?
    ensures var s' := Rotated(s, now, parent, child, p).value;
            Consumed(s', now, parent).Reused? <==> now + 500 <= s.tokens[parent].deadline
    ensures Consumed(Rotated(s, now, parent, child, p).value, now, child) == Fresh(p.(used := false))
  {
    var c := s.tokens[parent];
    assert TtlSecs(c, now) == 0 <==> c.deadline - now < 500;
  }
}
