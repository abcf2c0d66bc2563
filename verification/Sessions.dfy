/** Login sessions in Valkey (internal/session/store.go): one key per session with a
    sliding TTL, and one index set per user, sliding along. The index is what bulk
    revocation and listing rely on. */
module Sessions {
  import opened Prelude

  type Token = nat
  type UserId = nat
  type Ttl = t: nat | t > 0 witness 1

  datatype Session = Session(
    user: UserId, createdAt: nat, lastSeenAt: nat, ip: string, agent: string, pendingReturnTo: string)

  type Keys = map<Token, Cell<Session>>

  datatype Store = Store(sessions: Keys, index: map<UserId, Cell<set<Token>>>)

  predicate Readable(keys: Keys, now: nat, t: Token) {
    t in keys && Live(keys[t], now)
  }

  /** SMEMBERS. */
  function Members(s: Store, now: nat, u: UserId): set<Token> {
    if u in s.index && Live(s.index[u], now) then s.index[u].value else {}
  }

  // ----- what the store does -----

  function Created(s: Store, now: nat, ttl: Ttl, t: Token, sess: Session): Store {
    Store(s.sessions[t := Cell(sess, now + ttl)],
          s.index[sess.user := Cell(Members(s, now, sess.user) + {t}, now + ttl)])
  }

  /** EXPIRE: a missing key stays missing. */
  function Expire(s: Store, now: nat, ttl: Ttl, u: UserId): Store {
    if u in s.index && Live(s.index[u], now) then s.(index := s.index[u := s.index[u].(deadline := now + ttl)]) else s
  }

  /** Get: touches the session and slides both TTLs. */
  function Fetched(s: Store, now: nat, ttl: Ttl, t: Token): Store {
    if !Readable(s.sessions, now, t) then s
    else
      var sess := s.sessions[t].value.(lastSeenAt := now);
      Expire(s.(sessions := s.sessions[t := Cell(sess, now + ttl)]), now, ttl, sess.user)
  }

  /** SREM: a set that becomes empty is removed. */
  function Unindexed(s: Store, now: nat, u: UserId, t: Token): Store {
    if t !in Members(s, now, u) then s
    else if s.index[u].value == {t} then s.(index := s.index - {u})
    else s.(index := s.index[u := s.index[u].(value := s.index[u].value - {t})])
  }

  /** Delete trusts the caller's user id for the index. */
  function Deleted(s: Store, now: nat, u: UserId, t: Token): Store {
    Unindexed(s.(sessions := s.sessions - {t}), now, u, t)
  }

  function Listed(s: Store, now: nat, u: UserId): map<Token, Session> {
    map t | t in Members(s, now, u) && Readable(s.sessions, now, t) :: s.sessions[t].value
  }

  /** ClearPendingReturnTo: SET ... KEEPTTL. */
  function Cleared(s: Store, now: nat, t: Token): Store {
    if !Readable(s.sessions, now, t) || s.sessions[t].value.pendingReturnTo == "" then s
    else s.(sessions := s.sessions[t := s.sessions[t].(value := s.sessions[t].value.(pendingReturnTo := ""))])
  }

  function Purged(s: Store, now: nat, u: UserId): Store {
    Store(s.sessions - Members(s, now, u), s.index - {u})
  }

  class ValkeyStore {
    var sessions: Keys
    var index: map<UserId, Cell<set<Token>>>
    const ttl: Ttl

    ghost function View(): Store
      reads this
    {
      Store(sessions, index)
    }

    constructor (ttl: Ttl)
      ensures View() == Store(map[], map[]) && this.ttl == ttl
    {
      this.ttl := ttl;
      sessions, index := map[], map[];
    }

    method CreateWithPendingReturnTo(now: nat, t: Token, user: UserId, ip: string, agent: string, returnTo: string)
      modifies this
      ensures View() == Created(old(View()), now, ttl, t, Session(user, now, now, ip, agent, returnTo))
    {
      var sess := Session(user, now, now, ip, agent, returnTo);
      sessions := sessions[t := Cell(sess, now + ttl)];
      var members := if user in index && Live(index[user], now) then index[user].value else {};
      index := index[user := Cell(members + {t}, now + ttl)];
    }

    method Get(now: nat, t: Token) returns (sess: Option<Session>)
      modifies this
      ensures View() == Fetched(old(View()), now, ttl, t)
      ensures sess == if Readable(old(sessions), now, t) then Some(sessions[t].value) else None
    {
      if t !in sessions || sessions[t].deadline <= now {
        return None;
      }
      var s := sessions[t].value.(lastSeenAt := now);
      sessions := sessions[t := Cell(s, now + ttl)];
      if s.user in index && now < index[s.user].deadline {
        index := index[s.user := Cell(index[s.user].value, now + ttl)];
      }
      return Some(s);
    }

    method Delete(now: nat, user: UserId, t: Token)
      modifies this
      ensures View() == Deleted(old(View()), now, user, t)
    {
      sessions := sessions - {t};
      if user in index && now < index[user].deadline && t in index[user].value {
        var rest := index[user].value - {t};
        if rest == {} {
          assert index[user].value == {t};
          index := index - {user};
        } else {
          index := index[user := Cell(rest, index[user].deadline)];
        }
      }
    }

    /** One GET per member; members whose session has lapsed are skipped. */
    method ListByUser(now: nat, user: UserId) returns (out: seq<(Token, Session)>)
      ensures forall i :: 0 <= i < |out| ==>
                            out[i].0 in Listed(View(), now, user) && out[i].1 == Listed(View(), now, user)[out[i].0]
      ensures forall t :: t in Listed(View(), now, user) ==> exists i :: 0 <= i < |out| && out[i].0 == t
      ensures forall i, j :: 0 <= i < j < |out| ==> out[i].0 != out[j].0
    {
      var tokens := if user in index && now < index[user].deadline then index[user].value else {};
      var queue := tokens;
      out := [];
      while queue != {}
        invariant queue <= tokens
        invariant forall i :: 0 <= i < |out| ==>
                                && out[i].0 in tokens - queue
                                && Readable(sessions, now, out[i].0) && out[i].1 == sessions[out[i].0].value
        invariant forall t :: t in tokens - queue && Readable(sessions, now, t) ==>
                                exists i :: 0 <= i < |out| && out[i].0 == t
        invariant forall i, j :: 0 <= i < j < |out| ==> out[i].0 != out[j].0
        decreases queue
      {
        var t :| t in queue;
        ghost var before := out;
        if t in sessions && now < sessions[t].deadline {
          out := out + [(t, sessions[t].value)];
        }
        forall x | x in tokens - (queue - {t}) && Readable(sessions, now, x)
          ensures exists i :: 0 <= i < |out| && out[i].0 == x
        {
          if x == t {
            assert out[|out| - 1].0 == x;
          } else {
            var i :| 0 <= i < |before| && before[i].0 == x;
            assert out[i].0 == x;
          }
        }
        queue := queue - {t};
      }
    }

    method ClearPendingReturnTo(now: nat, t: Token) returns (found: bool)
      modifies this
      ensures found == Readable(old(sessions), now, t)
      ensures View() == Cleared(old(View()), now, t)
    {
      if t !in sessions || sessions[t].deadline <= now {
        return false;
      }
      if sessions[t].value.pendingReturnTo != "" {
        sessions := sessions[t := Cell(sessions[t].value.(pendingReturnTo := ""), sessions[t].deadline)];
      }
      return true;
    }

    /** One DEL per member, then the set itself. */
    method DeleteAllForUser(now: nat, user: UserId)
      modifies this
      ensures View() == Purged(old(View()), now, user)
    {
      var tokens := if user in index && now < index[user].deadline then index[user].value else {};
      var queue := tokens;
      while queue != {}
        invariant queue <= tokens && index == old(index)
        invariant sessions == old(sessions) - (tokens - queue)
        decreases queue
      {
        var t :| t in queue;
        assert tokens - (queue - {t}) == (tokens - queue) + {t};
        sessions := sessions - {t};
        queue := queue - {t};
      }
      assert tokens - {} == tokens;
      index := index - {user};
    }
  }

  // ----- the reference: no index, sessions found by their own user id -----

  datatype Op =
    | Tick(dt: nat)
    | Create(t: Token, sess: Session)
    | Get(t: Token)
    | Delete(u: UserId, t: Token)
    | Clear(t: Token)
    | DeleteAll(u: UserId)

  /** The machine: clock, store, and the user each token was ever issued to. */
  datatype State = State(now: nat, store: Store, issued: map<Token, UserId>)

  function Apply(s: State, ttl: Ttl, op: Op): State {
    match op
    case Tick(dt) => s.(now := s.now + dt)
    case Create(t, sess) => s.(store := Created(s.store, s.now, ttl, t, sess), issued := s.issued[t := sess.user])
    case Get(t) => s.(store := Fetched(s.store, s.now, ttl, t))
    case Delete(u, t) => s.(store := Deleted(s.store, s.now, u, t))
    case Clear(t) => s.(store := Cleared(s.store, s.now, t))
    case DeleteAll(u) => s.(store := Purged(s.store, s.now, u))
  }

  /** Tokens are random: never issued before. */
  predicate Enabled(s: State, op: Op) {
    op.Create? ==> op.t !in s.issued
  }

  const EMPTY := State(0, Store(map[], map[]), map[])

  ghost predicate Run(a: State, ttl: Ttl, ops: seq<Op>, b: State)
    decreases |ops|
  {
    if ops == [] then a == b
    else Enabled(a, ops[0]) && Run(Apply(a, ttl, ops[0]), ttl, ops[1..], b)
  }

  /** The keys that answer reads. */
  function Alive(keys: Keys, now: nat): Keys {
    map t | t in keys && Live(keys[t], now) :: keys[t]
  }

  function OfUser(keys: Keys, u: UserId): Keys {
    map t | t in keys && keys[t].value.user == u :: keys[t]
  }

  /** The reference step on the live sessions alone. */
  function Ideal(keys: Keys, now: nat, ttl: Ttl, op: Op): Keys {
    match op
    case Tick(dt) => Alive(keys, now + dt)
    case Create(t, sess) => keys[t := Cell(sess, now + ttl)]
    case Get(t) => if t in keys then keys[t := Cell(keys[t].value.(lastSeenAt := now), now + ttl)] else keys
    case Delete(_, t) => keys - {t}
    case Clear(t) => if t in keys then keys[t := keys[t].(value := keys[t].value.(pendingReturnTo := ""))] else keys
    case DeleteAll(u) => keys - OfUser(keys, u).Keys
  }

  /** Replays a run on the reference. */
  function IdealRun(keys: Keys, now: nat, ttl: Ttl, ops: seq<Op>): Keys
    decreases |ops|
  {
    if ops == [] then keys
    else IdealRun(Ideal(keys, now, ttl, ops[0]), if ops[0].Tick? then now + ops[0].dt else now, ttl, ops[1..])
  }

  // ----- the invariant -----

  /** A live session is indexed under its own user, by a set that outlives it. */
  ghost predicate Indexed(s: State, t: Token)
    requires t in s.store.sessions
  {
    var c := s.store.sessions[t];
    && t in s.issued && s.issued[t] == c.value.user
    && (Live(c, s.now) ==>
          && c.value.user in s.store.index
          && t in s.store.index[c.value.user].value
          && c.deadline <= s.store.index[c.value.user].deadline)
  }

  ghost predicate Inv(s: State, ttl: Ttl) {
    && (forall t :: t in s.store.sessions ==> Indexed(s, t))
    && (forall t :: t in s.store.sessions ==> s.store.sessions[t].deadline <= s.now + ttl)
    && (forall u, t :: u in s.store.index && t in s.store.index[u].value ==> t in s.issued && s.issued[t] == u)
  }

  lemma CreateKeeps(s: State, ttl: Ttl, t: Token, sess: Session)
    requires Inv(s, ttl) && t !in s.issued
    ensures Inv(Apply(s, ttl, Create(t, sess)), ttl)
  {
    var s' := Apply(s, ttl, Create(t, sess));
    forall x | x in s'.store.sessions ensures Indexed(s', x) {
      assert x != t ==> Indexed(s, x);
    }
  }

  lemma GetKeeps(s: State, ttl: Ttl, t: Token)
    requires Inv(s, ttl)
    ensures Inv(Apply(s, ttl, Get(t)), ttl)
  {
    var s' := Apply(s, ttl, Get(t));
    assert t in s.store.sessions ==> Indexed(s, t);
    forall x | x in s'.store.sessions ensures Indexed(s', x) {
      assert Indexed(s, x);
    }
  }

  lemma DeleteKeeps(s: State, ttl: Ttl, u: UserId, t: Token)
    requires Inv(s, ttl)
    ensures Inv(Apply(s, ttl, Delete(u, t)), ttl)
  {
    var s' := Apply(s, ttl, Delete(u, t));
    forall x | x in s'.store.sessions ensures Indexed(s', x) {
      assert Indexed(s, x);
    }
  }

  lemma PurgeKeeps(s: State, ttl: Ttl, u: UserId)
    requires Inv(s, ttl)
    ensures Inv(Apply(s, ttl, DeleteAll(u)), ttl)
  {
    var s' := Apply(s, ttl, DeleteAll(u));
    forall x | x in s'.store.sessions ensures Indexed(s', x) {
      assert Indexed(s, x);
    }
  }

  lemma StepKeeps(s: State, ttl: Ttl, op: Op)
    requires Inv(s, ttl) && Enabled(s, op)
    ensures Inv(Apply(s, ttl, op), ttl)
  {
    match op
    case Create(t, sess) => CreateKeeps(s, ttl, t, sess);
    case Get(t) => GetKeeps(s, ttl, t);
    case Delete(u, t) => DeleteKeeps(s, ttl, u, t);
    case DeleteAll(u) => PurgeKeeps(s, ttl, u);
    case _ =>
      var s' := Apply(s, ttl, op);
      forall x | x in s'.store.sessions ensures Indexed(s', x) {
        assert Indexed(s, x);
      }
  }

  /** SMEMBERS followed by GET yields exactly the live sessions of the user. */
  lemma MembersCover(s: State, ttl: Ttl, u: UserId, t: Token)
    requires Inv(s, ttl) && Readable(s.store.sessions, s.now, t)
    ensures t in Members(s.store, s.now, u) <==> s.store.sessions[t].value.user == u
  {
    assert Indexed(s, t);
  }

  lemma PurgeRefines(s: State, ttl: Ttl, u: UserId)
    requires Inv(s, ttl)
    ensures Alive(Purged(s.store, s.now, u).sessions, s.now) ==
            Ideal(Alive(s.store.sessions, s.now), s.now, ttl, DeleteAll(u))
  {
    forall t | Readable(s.store.sessions, s.now, t)
      ensures t in Members(s.store, s.now, u) <==> s.store.sessions[t].value.user == u
    {
      MembersCover(s, ttl, u, t);
    }
  }

  /** Only bulk deletion depends on the index. */
  lemma UnindexedRefines(s: State, ttl: Ttl, op: Op)
    requires !op.DeleteAll?
    ensures Alive(Apply(s, ttl, op).store.sessions, Apply(s, ttl, op).now)
         == Ideal(Alive(s.store.sessions, s.now), s.now, ttl, op)
  {
    var keys, now := s.store.sessions, s.now;
    match op
    case Tick(dt) =>
    case Create(t, sess) =>
      assert Apply(s, ttl, op).store.sessions == keys[t := Cell(sess, now + ttl)];
    case Get(t) =>
      assert Readable(keys, now, t) <==> t in Alive(keys, now);
      assert Apply(s, ttl, op).store.sessions ==
             if Readable(keys, now, t) then keys[t := Cell(keys[t].value.(lastSeenAt := now), now + ttl)] else keys;
    case Delete(u, t) =>
      assert Apply(s, ttl, op).store.sessions == keys - {t};
    case Clear(t) =>
      assert Readable(keys, now, t) <==> t in Alive(keys, now);
  }

  lemma StepRefines(s: State, ttl: Ttl, op: Op)
    requires Inv(s, ttl)
    ensures Alive(Apply(s, ttl, op).store.sessions, Apply(s, ttl, op).now)
         == Ideal(Alive(s.store.sessions, s.now), s.now, ttl, op)
  {
    if op.DeleteAll? {
      PurgeRefines(s, ttl, op.u);
    } else {
      UnindexedRefines(s, ttl, op);
    }
  }

  lemma {:induction false} RunRefines(a: State, ttl: Ttl, ops: seq<Op>, b: State)
    requires Inv(a, ttl) && Run(a, ttl, ops, b)
    ensures Inv(b, ttl)
    ensures Alive(b.store.sessions, b.now) == IdealRun(Alive(a.store.sessions, a.now), a.now, ttl, ops)
    decreases |ops|
  {
    if ops != [] {
      StepKeeps(a, ttl, ops[0]);
      StepRefines(a, ttl, ops[0]);
      RunRefines(Apply(a, ttl, ops[0]), ttl, ops[1..], b);
    }
  }

  // ----- main results -----

  /** After every run the indexed store answers as the index-free reference: the same
      live sessions, and ListByUser(u) lists exactly those of u. */
  lemma IndexAgrees(ttl: Ttl, ops: seq<Op>, s: State, u: UserId)
    requires Run(EMPTY, ttl, ops, s)
    ensures Alive(s.store.sessions, s.now) == IdealRun(map[], 0, ttl, ops)
    ensures Listed(s.store, s.now, u) ==
            map t | t in OfUser(Alive(s.store.sessions, s.now), u) :: s.store.sessions[t].value
  {
    RunRefines(EMPTY, ttl, ops, s);
    assert Alive(EMPTY.store.sessions, 0) == map[];
    forall t | Readable(s.store.sessions, s.now, t)
      ensures t in Members(s.store, s.now, u) <==> s.store.sessions[t].value.user == u
    {
      MembersCover(s, ttl, u, t);
    }
  }

  /** A token that no longer answers reads never does again. */
  lemma {:induction false} GoneStaysGone(a: State, ttl: Ttl, ops: seq<Op>, b: State, t: Token)
    requires Run(a, ttl, ops, b)
    requires t in a.issued && !Readable(a.store.sessions, a.now, t)
    ensures t in b.issued && !Readable(b.store.sessions, b.now, t)
    decreases |ops|
  {
    if ops != [] {
      GoneStaysGone(Apply(a, ttl, ops[0]), ttl, ops[1..], b, t);
    }
  }

  /** After DeleteAllForUser(u) no session issued to u before is ever returned again,
      and the sessions of other users are untouched. */
  lemma PurgeIsFinal(ttl: Ttl, before: seq<Op>, a: State, u: UserId, after: seq<Op>, b: State, t: Token)
    requires Run(EMPTY, ttl, before, a)
    requires Run(Apply(a, ttl, DeleteAll(u)), ttl, after, b)
    ensures t in a.issued && a.issued[t] == u ==> !Readable(b.store.sessions, b.now, t)
    ensures Readable(a.store.sessions, a.now, t) && a.store.sessions[t].value.user != u ==>
              var purged := Apply(a, ttl, DeleteAll(u));
              Readable(purged.store.sessions, purged.now, t) && purged.store.sessions[t] == a.store.sessions[t]
  {
    RunRefines(EMPTY, ttl, before, a);
    if Readable(a.store.sessions, a.now, t) {
      assert Indexed(a, t);
      MembersCover(a, ttl, u, t);
    }
    if t in a.issued && a.issued[t] == u {
      GoneStaysGone(Apply(a, ttl, DeleteAll(u)), ttl, after, b, t);
    }
  }

  /** Deleting under the session's own user id leaves no trace of the token. */
  lemma DeleteIsClean(s: State, ttl: Ttl, u: UserId, t: Token)
    ensures var s' := Apply(s, ttl, Delete(u, t));
            && t !in s'.store.sessions && t !in Members(s'.store, s'.now, u)
            && (forall x :: x != t ==> (x in Members(s'.store, s'.now, u) <==> x in Members(s.store, s.now, u)))
  {
  }

  /** Deleting under the wrong user id leaves a stale index entry, and nothing else. */
  lemma MismatchedDeleteLeavesStaleEntry(ttl: Ttl)
    ensures var sess := Session(1, 0, 0, "", "", "");
            var s := Apply(Apply(EMPTY, ttl, Create(9, sess)), ttl, Delete(2, 9));
            && 9 in Members(s.store, s.now, 1)
            && Listed(s.store, s.now, 1) == map[]
  {
  }
}
