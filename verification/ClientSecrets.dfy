/** Client secrets and their rotation with overlap (internal/clients/store.go). */
module ClientSecrets {
  import opened Prelude

  type Secret = nat

  /** Argon2id output; a hash verifies against exactly the secret it was made from. */
  datatype Hash = HashOf(secret: Secret)

  datatype Row = Row(active: bool, current: Option<Hash>, previous: Option<Hash>, previousExpiresAt: Option<nat>)

  /** clientSecretOverlapTTL: 24 h. */
  const OVERLAP: nat := 86_400_000

  predicate VerifyPassword(s: Secret, h: Hash) {
    h == HashOf(s)
  }

  /** VerifySecret: current first, then previous while the overlap is open. */
  predicate Verifies(row: Row, now: nat, s: Secret) {
    && row.active
    && (|| (row.current.Some? && VerifyPassword(s, row.current.value))
        || (&& row.previous.Some? && row.previousExpiresAt.Some? && now < row.previousExpiresAt.value
            && VerifyPassword(s, row.previous.value)))
  }

  datatype Event = Rotate(secret: Secret) | Disable | Enable | Tick(dt: nat)

  datatype State = State(now: nat, row: Row)

  function Apply(st: State, e: Event): State {
    match e
    case Rotate(s) =>
      st.(row := st.row.(previous := st.row.current, previousExpiresAt := Some(st.now + OVERLAP),
                         current := Some(HashOf(s))))
    case Disable => st.(row := st.row.(active := false))
    case Enable => st.(row := st.row.(active := true))
    case Tick(dt) => st.(now := st.now + dt)
  }

  /** A client as created: active, one secret. */
  function Initial(now: nat, s: Secret): State {
    State(now, Row(true, Some(HashOf(s)), None, None))
  }

  function RunAll(st: State, es: seq<Event>): State {
    if es == [] then st else Apply(RunAll(st, es[..|es| - 1]), es[|es| - 1])
  }

  /** The secrets the client was ever given, oldest first. */
  function History(s: Secret, es: seq<Event>): (h: seq<Secret>)
    ensures h != []
  {
    if es == [] then [s]
    else
      var h := History(s, es[..|es| - 1]);
      if es[|es| - 1].Rotate? then h + [es[|es| - 1].secret] else h
  }

  function Elapsed(es: seq<Event>): nat {
    if es == [] then 0
    else Elapsed(es[..|es| - 1]) + (if es[|es| - 1].Tick? then es[|es| - 1].dt else 0)
  }

  /** Time since the last rotation, None while there has been none. */
  function SinceRotation(es: seq<Event>): Option<nat> {
    if es == [] then None
    else match es[|es| - 1]
      case Rotate(_) => Some(0)
      case Tick(dt) =>
        (match SinceRotation(es[..|es| - 1])
         case None => None
         case Some(d) => Some(d + dt))
      case _ => SinceRotation(es[..|es| - 1])
  }

  /** Whether the last Disable/Enable, if any, was not a Disable. */
  function ActiveAfter(es: seq<Event>): bool {
    if es == [] then true
    else match es[|es| - 1]
      case Disable => false
      case Enable => true
      case _ => ActiveAfter(es[..|es| - 1])
  }

  lemma {:induction false} RowMatchesHistory(now: nat, s: Secret, es: seq<Event>)
    ensures var st := RunAll(Initial(now, s), es);
            var h := History(s, es);
            && st.now == now + Elapsed(es)
            && st.row.active == ActiveAfter(es)
            && st.row.current == Some(HashOf(h[|h| - 1]))
            && (|h| == 1 <==> SinceRotation(es).None?)
            && (|h| == 1 ==> st.row.previous.None?)
            && (|h| >= 2 ==> && st.row.previous == Some(HashOf(h[|h| - 2]))
                             && st.row.previousExpiresAt == Some(st.now - SinceRotation(es).value + OVERLAP))
  {
    if es != [] {
      RowMatchesHistory(now, s, es[..|es| - 1]);
    }
  }

  /** After any run, an active client accepts exactly its newest secret, plus the one
      before it while less than 24 h have passed since the last rotation; a
      disabled client accepts nothing. */
  lemma AcceptedSecrets(now: nat, first: Secret, es: seq<Event>, s: Secret)
    ensures var st := RunAll(Initial(now, first), es);
            var h := History(first, es);
            Verifies(st.row, st.now, s) <==>
              && ActiveAfter(es)
              && (|| s == h[|h| - 1]
                  || (&& |h| >= 2 && s == h[|h| - 2]
                      && SinceRotation(es).Some? && SinceRotation(es).value < 86_400_000))
  {
    RowMatchesHistory(now, first, es);
  }

  class ClientRow {
    var row: Row

    constructor (secret: Secret)
      ensures row == Initial(0, secret).row
    {
      row := Row(true, Some(HashOf(secret)), None, None);
    }

    method RotateSecret(now: nat, newHash: Hash)
      modifies this
      ensures row == Apply(State(now, old(row)), Rotate(newHash.secret)).row
    {
      var expiresAt := now + OVERLAP;
      row := row.(previous := row.current, previousExpiresAt := Some(expiresAt));
      row := row.(current := Some(newHash));
    }

    /** False is ErrClientNotFound: already disabled. */
    method Disable() returns (ok: bool)
      modifies this
      ensures ok == old(row.active) && row == old(row).(active := false)
    {
      ok := row.active;
      if ok {
        row := row.(active := false);
      }
    }

    method Enable() returns (ok: bool)
      modifies this
      ensures ok == !old(row.active) && row == old(row).(active := true)
    {
      ok := !row.active;
      if ok {
        row := row.(active := true);
      }
    }

    method VerifySecret(now: nat, s: Secret) returns (ok: bool)
      ensures ok == Verifies(row, now, s)
    {
      if !row.active {
        return false;
      }
      if row.current.Some? && VerifyPassword(s, row.current.value) {
        return true;
      }
      if row.previous.Some? && row.previousExpiresAt.Some? && now < row.previousExpiresAt.value {
        return VerifyPassword(s, row.previous.value);
      }
      return false;
    }
  }
}
