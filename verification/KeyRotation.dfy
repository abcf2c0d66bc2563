/** Concurrent key rotations (internal/signingkeys/handler.go): the statements of the
    transactions interleave. Nothing locks the active row between GetActive and
    MarkRetiring, and no index forbids two active keys. */
module KeyRotation {
  import opened Prelude
  import opened SigningKeys

  type TxId = nat

  /** `matched`: whether the guarded UPDATE of MarkRetiring found its row still active. */
  datatype Phase =
    | Begun
    | HasRead(current: KeyId)
    | HasMarked(current: KeyId, matched: bool)
    | HasInserted(current: KeyId, matched: bool, newId: KeyId)

  datatype Tx = Tx(startedAt: nat, phase: Phase)

  /** `keys` is the committed table; `stale` counts the committed rotations whose UPDATE
      matched no row. */
  datatype State = State(
    now: nat, keys: Keys, locks: map<KeyId, TxId>, txs: map<TxId, Tx>, drawn: set<KeyId>, stale: nat)

  datatype Step =
    | Tick(dt: nat)
    | Begin(t: TxId)
    | Read(t: TxId, k: KeyId)
    | Mark(t: TxId)
    | Insert(t: TxId, newId: KeyId)
    | Commit(t: TxId)
    | Rollback(t: TxId)
    | Sweep
    | Emergency(k: KeyId)

  function Put(s: State, t: TxId, p: Phase): State
    requires t in s.txs
  {
    s.(txs := s.txs[t := s.txs[t].(phase := p)])
  }

  function Ended(s: State, t: TxId): State {
    s.(locks := map k | k in s.locks && s.locks[k] != t :: s.locks[k], txs := s.txs - {t})
  }

  /** GetActive answers any active row; an UPDATE waits for a locked row; ids are new. */
  predicate Enabled(s: State, st: Step) {
    match st
    case Begin(t) => t !in s.txs
    case Read(t, k) => t in s.txs && s.txs[t].phase.Begun? && IsActive(s.keys, k)
    case Mark(t) => t in s.txs && s.txs[t].phase.HasRead? && s.txs[t].phase.current !in s.locks
    case Insert(t, newId) => t in s.txs && s.txs[t].phase.HasMarked? && newId !in s.drawn
    case Commit(t) => t in s.txs && s.txs[t].phase.HasInserted?
    case Rollback(t) => t in s.txs
    case _ => true
  }

  /** rotated_at is now(), the start of the transaction. */
  function Committed(keys: Keys, tx: Tx): Keys
    requires tx.phase.HasInserted?
  {
    var p := tx.phase;
    var demoted := if p.matched then keys[p.current := KeyRow(Retiring, Some(tx.startedAt))] else keys;
    demoted[p.newId := KeyRow(Active, None)]
  }

  function Apply(s: State, st: Step): State
    requires Enabled(s, st)
  {
    match st
    case Tick(dt) => s.(now := s.now + dt)
    case Begin(t) => s.(txs := s.txs[t := Tx(s.now, Begun)])
    case Read(t, k) => Put(s, t, HasRead(k))
    case Mark(t) =>
      var k := s.txs[t].phase.current;
      if IsActive(s.keys, k) then Put(s.(locks := s.locks[k := t]), t, HasMarked(k, true))
      else Put(s, t, HasMarked(k, false))
    case Insert(t, newId) =>
      Put(s.(drawn := s.drawn + {newId}), t, HasInserted(s.txs[t].phase.current, s.txs[t].phase.matched, newId))
    case Commit(t) =>
      var stale := if s.txs[t].phase.matched then s.stale else s.stale + 1;
      Ended(s.(keys := Committed(s.keys, s.txs[t]), stale := stale), t)
    case Rollback(t) => Ended(s, t)
    case Sweep => s.(keys := SweptKeys(s.keys, s.now))
    case Emergency(k) => s.(keys := EmergencyRetired(s.keys, k))
  }

  function FirstBoot(k: KeyId): State {
    State(0, map[k := KeyRow(Active, None)], map[], map[], {k}, 0)
  }

  ghost predicate Run(a: State, steps: seq<Step>, b: State)
    decreases |steps|
  {
    if steps == [] then a == b
    else Enabled(a, steps[0]) && Run(Apply(a, steps[0]), steps[1..], b)
  }

  function ActiveSet(keys: Keys): set<KeyId> {
    set k | k in keys && keys[k].status == Active
  }

  // ----- the invariant -----

  /** A matched row stays active, and locked, until its transaction ends; an inserted id
      is nobody else's. */
  ghost predicate TxOk(s: State, t: TxId)
    requires t in s.txs
  {
    var p := s.txs[t].phase;
    && ((p.HasMarked? || p.HasInserted?) && p.matched ==>
          IsActive(s.keys, p.current) && p.current in s.locks && s.locks[p.current] == t)
    && (p.HasInserted? ==> p.newId in s.drawn && p.newId !in s.keys)
  }

  ghost predicate OwnIds(s: State) {
    forall t, r :: t in s.txs && r in s.txs && t != r && s.txs[t].phase.HasInserted? && s.txs[r].phase.HasInserted? ==>
                     s.txs[t].phase.newId != s.txs[r].phase.newId
  }

  ghost predicate Inv(s: State) {
    && |ActiveSet(s.keys)| == 1 + s.stale
    && s.keys.Keys <= s.drawn && OwnIds(s)
    && (forall t :: t in s.txs ==> TxOk(s, t))
  }

  /** Statements that leave the committed table alone. */
  lemma StatementKeeps(s: State, st: Step)
    requires Inv(s) && Enabled(s, st)
    requires st.Tick? || st.Begin? || st.Read? || st.Mark? || st.Insert? || st.Rollback?
    ensures Inv(Apply(s, st))
  {
    var s' := Apply(s, st);
    assert s'.keys == s.keys;
    forall t | t in s'.txs ensures TxOk(s', t) {
      assert t in s.txs ==> TxOk(s, t);
    }
  }

  lemma CommittedCount(keys: Keys, tx: Tx)
    requires tx.phase.HasInserted? && tx.phase.newId !in keys
    requires tx.phase.matched ==> IsActive(keys, tx.phase.current)
    ensures |ActiveSet(Committed(keys, tx))| == |ActiveSet(keys)| + (if tx.phase.matched then 0 else 1)
  {
    var p, before := tx.phase, ActiveSet(keys);
    if p.matched {
      assert ActiveSet(Committed(keys, tx)) == (before - {p.current}) + {p.newId};
    } else {
      assert ActiveSet(Committed(keys, tx)) == before + {p.newId};
    }
  }

  lemma CommitKeeps(s: State, t: TxId)
    requires Inv(s) && Enabled(s, Commit(t))
    ensures Inv(Apply(s, Commit(t)))
  {
    var s' := Apply(s, Commit(t));
    assert TxOk(s, t);
    CommittedCount(s.keys, s.txs[t]);
    forall r | r in s'.txs ensures TxOk(s', r) {
      assert TxOk(s, r);
    }
  }

  /** Sweeping and emergency retirement touch no active key. */
  lemma RetireKeeps(s: State, st: Step)
    requires Inv(s) && (st.Sweep? || st.Emergency?)
    ensures Inv(Apply(s, st))
  {
    var s' := Apply(s, st);
    assert s'.keys.Keys == s.keys.Keys;
    assert forall k :: IsActive(s'.keys, k) <==> IsActive(s.keys, k);
    assert ActiveSet(s'.keys) == ActiveSet(s.keys);
    forall t | t in s'.txs ensures TxOk(s', t) {
      assert TxOk(s, t);
    }
  }

  lemma StepKeeps(s: State, st: Step)
    requires Inv(s) && Enabled(s, st)
    ensures Inv(Apply(s, st))
  {
    match st
    case Commit(t) => CommitKeeps(s, t);
    case Sweep => RetireKeeps(s, st);
    case Emergency(_) => RetireKeeps(s, st);
    case _ => StatementKeeps(s, st);
  }

  lemma {:induction false} RunKeeps(a: State, steps: seq<Step>, b: State)
    requires Inv(a) && Run(a, steps, b)
    ensures Inv(b)
    decreases |steps|
  {
    if steps != [] {
      StepKeeps(a, steps[0]);
      RunKeeps(Apply(a, steps[0]), steps[1..], b);
    }
  }

  // ----- main results -----

  /** Over every interleaving: one active key, plus one for each committed rotation whose
      UPDATE found the key it had read already demoted. So there is exactly one active
      key if and only if every committed rotation's UPDATE matched its row. */
  lemma ActiveKeysCounted(k: KeyId, steps: seq<Step>, s: State)
    requires Run(FirstBoot(k), steps, s)
    ensures |ActiveSet(s.keys)| == 1 + s.stale
    ensures ExactlyOneActive(s.keys) <==> s.stale == 0
  {
    var a := FirstBoot(k);
    assert ActiveSet(a.keys) == {k};
    RunKeeps(a, steps, s);
    OneActiveIffSingleton(s.keys);
  }

  lemma OneActiveIffSingleton(keys: Keys)
    ensures ExactlyOneActive(keys) <==> |ActiveSet(keys)| == 1
  {
    var active := ActiveSet(keys);
    assert forall k: KeyId :: k in active <==> IsActive(keys, k);
    if ExactlyOneActive(keys) {
      var a: KeyId :| IsActive(keys, a) && forall k: KeyId :: IsActive(keys, k) ==> k == a;
      assert active == {a};
    }
    if |active| == 1 {
      var a: KeyId :| a in active;
      assert |active - {a}| == 0;
      assert forall k: KeyId :: IsActive(keys, k) && k != a ==> k in active - {a};
      assert IsActive(keys, a) && forall k: KeyId :: IsActive(keys, k) ==> k == a;
    }
  }

  ghost predicate Reaches(a: State, s: State) {
    exists steps :: Run(a, steps, s)
  }

  lemma {:induction false} RunMore(a: State, steps: seq<Step>, s: State, st: Step)
    requires Run(a, steps, s) && Enabled(s, st)
    ensures Run(a, steps + [st], Apply(s, st))
    decreases |steps|
  {
    if steps == [] {
      assert [st][1..] == [] && [] + [st] == [st];
      assert Run(Apply(s, st), [], Apply(s, st));
    } else {
      RunMore(Apply(a, steps[0]), steps[1..], s, st);
      assert (steps + [st])[1..] == steps[1..] + [st];
    }
  }

  lemma Go(a: State, s: State, st: Step) returns (s': State)
    requires Reaches(a, s) && Enabled(s, st)
    ensures s' == Apply(s, st) && Reaches(a, s')
  {
    var steps :| Run(a, steps, s);
    RunMore(a, steps, s, st);
    s' := Apply(s, st);
  }

  lemma Reads(a: State, s: State, t: TxId, k: KeyId) returns (s': State)
    requires Reaches(a, s) && t !in s.txs && IsActive(s.keys, k)
    ensures Reaches(a, s') && s' == s.(txs := s.txs[t := Tx(s.now, HasRead(k))])
  {
    var s1 := Go(a, s, Begin(t));
    s' := Go(a, s1, Read(t, k));
  }

  /** From the read to the commit, undisturbed. */
  lemma Finishes(a: State, s: State, t: TxId, newId: KeyId) returns (s': State)
    requires Reaches(a, s) && t in s.txs && s.txs[t].phase.HasRead? && s.locks == map[] && newId !in s.drawn
    ensures Reaches(a, s') && s'.locks == map[] && s'.drawn == s.drawn + {newId} && s'.txs == s.txs - {t}
    ensures var k, matched := s.txs[t].phase.current, IsActive(s.keys, s.txs[t].phase.current);
            && s'.keys == Committed(s.keys, Tx(s.txs[t].startedAt, HasInserted(k, matched, newId)))
            && s'.stale == if matched then s.stale else s.stale + 1
  {
    var s1 := Go(a, s, Mark(t));
    var s2 := Go(a, s1, Insert(t, newId));
    s' := Go(a, s2, Commit(t));
    assert s'.locks.Keys == {};
    assert s'.txs == s.txs - {t};
  }

  /** Two administrators rotate at once: both read the same key, the second UPDATE matches
      no row, and both insert. */
  lemma ConcurrentRotationsLeaveTwo(k: KeyId, x: KeyId, y: KeyId)
    requires x != k && y != k && x != y
    ensures exists s :: Reaches(FirstBoot(k), s) && |ActiveSet(s.keys)| == 2
  {
    var a := FirstBoot(k);
    assert Run(a, [], a);
    var s1 := Reads(a, a, 1, k);
    var s2 := Reads(a, s1, 2, k);
    var s3 := Finishes(a, s2, 1, x);
    assert !IsActive(s3.keys, k) && 2 in s3.txs && s3.txs[2] == s2.txs[2];
    var s4 := Finishes(a, s3, 2, y);
    var steps :| Run(a, steps, s4);
    ActiveKeysCounted(k, steps, s4);
  }
}
