/** The signing_keys table and its lifecycle (internal/signingkeys). */
module SigningKeys {
  import opened Prelude

  type KeyId = nat

  datatype Status = Active | Retiring | Retired

  datatype KeyRow = KeyRow(status: Status, rotatedAt: Option<nat>)

  type Keys = map<KeyId, KeyRow>

  /** 15 min + 24 h + 30 s: how long a demoted key keeps being published. */
  const RETIRE_WINDOW: nat := 87_330_000

  predicate IsActive(keys: Keys, k: KeyId) {
    k in keys && keys[k].status == Active
  }

  predicate Publishable(keys: Keys, k: KeyId) {
    k in keys && keys[k].status != Retired
  }

  ghost predicate ExactlyOneActive(keys: Keys) {
    exists a :: IsActive(keys, a) && forall k :: IsActive(keys, k) ==> k == a
  }

  /** GetActive may answer any active row (LIMIT 1); None is its no-rows error. */
  ghost predicate ActiveAnswer(keys: Keys, answer: Option<KeyId>) {
    match answer
    case Some(k) => IsActive(keys, k)
    case None => forall k :: !IsActive(keys, k)
  }

  /** WHERE status = 'retiring' AND rotated_at < cutoff, cutoff = now - RETIRE_WINDOW. */
  predicate Retirable(row: KeyRow, now: nat) {
    row.status == Retiring && row.rotatedAt.Some? && row.rotatedAt.value + RETIRE_WINDOW < now
  }

  function SweptRow(row: KeyRow, now: nat): KeyRow {
    if Retirable(row, now) then row.(status := Retired) else row
  }

  function SweptKeys(keys: Keys, now: nat): Keys {
    map k | k in keys :: SweptRow(keys[k], now)
  }

  /** Rotate: demote the current key, insert the new one, then sweep. */
  function RotatedKeys(keys: Keys, now: nat, current: KeyId, newId: KeyId): Keys {
    SweptKeys(keys[current := KeyRow(Retiring, Some(now))][newId := KeyRow(Active, None)], now)
  }

  datatype RetireOutcome = NotFound | CannotRetireActive | AlreadyRetired | Done

  function EmergencyOutcome(keys: Keys, k: KeyId): RetireOutcome {
    if k !in keys then NotFound
    else match keys[k].status
      case Active => CannotRetireActive
      case Retired => AlreadyRetired
      case Retiring => Done
  }

  function EmergencyRetired(keys: Keys, k: KeyId): Keys {
    if EmergencyOutcome(keys, k) == Done then keys[k := keys[k].(status := Retired)] else keys
  }

  function Bootstrapped(keys: Keys, answer: Option<KeyId>, newId: KeyId): Keys {
    if answer.Some? then keys else keys[newId := KeyRow(Active, None)]
  }

  /** active → retiring → retired, never back, and rows are never deleted. */
  predicate Forward(before: Status, after: Status) {
    match before
    case Active => true
    case Retiring => after != Active
    case Retired => after == Retired
  }

  /** A demoted key is published for 24 h 15 min 30 s, and the next sweep then retires it;
      other rows are left alone. */
  lemma SweptRowExact(row: KeyRow, now: nat)
    ensures row.status == Retiring && row.rotatedAt.Some? ==>
              SweptRow(row, now) == if now <= row.rotatedAt.value + ((24 * 60 + 15) * 60 + 30) * 1000 then row
                                    else KeyRow(Retired, row.rotatedAt)
    ensures row.status != Retiring || row.rotatedAt.None? ==> SweptRow(row, now) == row
  {
  }

  /** Each answer of the emergency retirement against its own condition. */
  lemma EmergencyExact(keys: Keys, k: KeyId)
    ensures EmergencyOutcome(keys, k) == NotFound <==> k !in keys
    ensures EmergencyOutcome(keys, k) == CannotRetireActive <==> k in keys && keys[k].status == Active
    ensures EmergencyOutcome(keys, k) == AlreadyRetired <==> k in keys && keys[k].status == Retired
    ensures EmergencyRetired(keys, k) ==
            if k in keys && keys[k].status == Retiring then keys[k := KeyRow(Retired, keys[k].rotatedAt)] else keys
  {
  }

  /** Bootstrapping a table without an active key leaves exactly one, and another table
      as it is. */
  lemma BootstrapExact(keys: Keys, answer: Option<KeyId>, newId: KeyId)
    requires ActiveAnswer(keys, answer) && newId !in keys
    ensures answer.None? ==> ExactlyOneActive(Bootstrapped(keys, answer, newId))
    ensures answer.Some? ==> Bootstrapped(keys, answer, newId) == keys
  {
    var keys' := Bootstrapped(keys, answer, newId);
    if answer.None? {
      assert IsActive(keys', newId);
      forall k: KeyId | IsActive(keys', k) ensures k == newId {
        assert k != newId ==> IsActive(keys, k);
      }
    }
  }

  /** A rotation: the current key is demoted and stamped, the new one active, and of the
      others only what a sweep would retire is touched. */
  lemma RotationExact(keys: Keys, now: nat, current: KeyId, newId: KeyId)
    requires current in keys && newId !in keys
    ensures var keys' := RotatedKeys(keys, now, current, newId);
            && keys'.Keys == keys.Keys + {newId}
            && keys'[current] == KeyRow(Retiring, Some(now)) && keys'[newId] == KeyRow(Active, None)
            && forall k :: k in keys && k != current ==> keys'[k] == SweptRow(keys[k], now)
  {
  }

  class KeyTable {
    var rows: Keys

    constructor ()
      ensures rows == map[]
    {
      rows := map[];
    }

    method GetActive() returns (answer: Option<KeyId>)
      ensures ActiveAnswer(rows, answer)
    {
      if k :| k in rows && rows[k].status == Active {
        return Some(k);
      }
      return None;
    }

    method MarkRetiring(now: nat, k: KeyId)
      modifies this
      ensures rows == if IsActive(old(rows), k) then old(rows)[k := KeyRow(Retiring, Some(now))] else old(rows)
    {
      if k in rows && rows[k].status == Active {
        rows := rows[k := KeyRow(Retiring, Some(now))];
      }
    }

    method MarkRetired(k: KeyId)
      modifies this
      ensures rows == EmergencyRetired(old(rows), k)
    {
      if k in rows && rows[k].status == Retiring {
        rows := rows[k := rows[k].(status := Retired)];
      }
    }

    method ListRetirable(now: nat) returns (ids: set<KeyId>)
      ensures ids == set k | k in rows && Retirable(rows[k], now)
    {
      ids := set k | k in rows && rows[k].status == Retiring && rows[k].rotatedAt.Some?
                     && rows[k].rotatedAt.value + RETIRE_WINDOW < now;
    }

    /** One MarkRetired transaction per retirable id. */
    method RetireSweep(now: nat)
      modifies this
      ensures rows == SweptKeys(old(rows), now)
    {
      var ids := ListRetirable(now);
      var todo := ids;
      while todo != {}
        invariant todo <= ids && ids <= old(rows).Keys
        invariant rows == map k | k in old(rows) ::
                    if k in ids - todo then old(rows)[k].(status := Retired) else old(rows)[k]
        decreases todo
      {
        var k :| k in todo;
        MarkRetired(k);
        todo := todo - {k};
      }
    }

    /** The id the new row gets is random; `newId` is that id. */
    method Rotate(now: nat, newId: KeyId) returns (current: Option<KeyId>)
      requires newId !in rows
      modifies this
      ensures ActiveAnswer(old(rows), current)
      ensures rows == if current.Some? then RotatedKeys(old(rows), now, current.value, newId) else old(rows)
    {
      current := GetActive();
      if current.None? {
        return;
      }
      MarkRetiring(now, current.value);
      rows := rows[newId := KeyRow(Active, None)];
      RetireSweep(now);
    }

    method EmergencyRetire(k: KeyId) returns (outcome: RetireOutcome)
      modifies this
      ensures outcome == EmergencyOutcome(old(rows), k)
      ensures rows == EmergencyRetired(old(rows), k)
    {
      if k !in rows {
        return NotFound;
      }
      match rows[k].status {
        case Active => return CannotRetireActive;
        case Retired => return AlreadyRetired;
        case Retiring =>
          MarkRetired(k);
          return Done;
      }
    }

    method Bootstrap(newId: KeyId) returns (ghost answer: Option<KeyId>)
      requires newId !in rows
      modifies this
      ensures ActiveAnswer(old(rows), answer)
      ensures rows == Bootstrapped(old(rows), answer, newId)
    {
      var current := GetActive();
      answer := current;
      if current.Some? {
        return;
      }
      rows := rows[newId := KeyRow(Active, None)];
    }

    /** The lookup BearerAuth performs over ListPublishable. */
    method LookupPublishable(kid: KeyId) returns (found: bool)
      ensures found == Publishable(rows, kid)
    {
      var keys := set k | k in rows && rows[k].status != Retired;
      found := false;
      while keys != {}
        invariant found ==> Publishable(rows, kid)
        invariant !found && Publishable(rows, kid) ==> kid in keys
        decreases keys
      {
        var k :| k in keys;
        if k == kid {
          return true;
        }
        keys := keys - {k};
      }
    }
  }
}
