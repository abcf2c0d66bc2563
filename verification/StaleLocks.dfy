/** A run of the last-admin protocol that ends without an active super_admin: locks that
    waited hold rows of an old snapshot only. */
module StaleLocks {
  import opened LastAdmin

  ghost predicate Reaches(a: State, s: State) {
    exists steps :: Run(a, steps, s)
  }

  lemma {:induction false} RunMore(a: State, steps: seq<Step>, s: State, st: Step)
    requires Run(a, steps, s) && Enabled(s, st)
    ensures Run(a, steps + [st], Apply(s, st))
    decreases |steps|
  {
    if steps == [] {
      assert [st][1..] == [] && [] + [st] == [st];
      assert Run(Apply(s, st), [], Apply(s, st));
    } else {
      RunMore(Apply(a, steps[0]), steps[1..], s, st);
      assert (steps + [st])[1..] == steps[1..] + [st];
    }
  }

  lemma Go(a: State, s: State, st: Step) returns (s': State)
    requires Reaches(a, s) && Enabled(s, st)
    ensures s' == Apply(s, st) && Reaches(a, s')
  {
    var steps :| Run(a, steps, s);
    RunMore(a, steps, s, st);
    s' := Apply(s, st);
  }

  /** A new transaction that has issued its SELECT ... FOR UPDATE. */
  lemma Asks(a: State, s: State, t: TxId, k: Kind, u: UserId) returns (s': State)
    requires Reaches(a, s) && t !in s.txs
    ensures Reaches(a, s')
    ensures s' == s.(txs := s.txs[t := Tx(k, u, Waiting(Supers(s.users), Supers(s.users), {}, {}))])
  {
    var s1 := Go(a, s, Begin(t, k, u));
    s' := Go(a, s1, Request(t));
  }

  lemma Reach(a: State, s: State, t: TxId, u: UserId) returns (s': State)
    requires Reaches(a, s) && t in s.txs && s.txs[t].phase.Waiting? && u in s.txs[t].phase.todo && u !in s.locks
    ensures Reaches(a, s') && s'.users == s.users
    ensures s'.locks == if Super(s.users, u) then s.locks[u := t] else s.locks
    ensures t in s'.txs && s'.txs == s.txs[t := s.txs[t].(phase := s'.txs[t].phase)] && s'.txs[t].phase.Waiting?
    ensures s'.txs[t].phase.todo == s.txs[t].phase.todo - {u}
    ensures s'.txs[t].phase.got == if Super(s.users, u) then s.txs[t].phase.got + {u} else s.txs[t].phase.got
  {
    s' := Go(a, s, LockRow(t, u));
  }

  /** Rows 1 and 2 of its snapshot are gone: it ends up with no lock. */
  lemma TakesNone(a: State, s: State, t: TxId) returns (s': State)
    requires Reaches(a, s) && t in s.txs && s.txs[t].phase == QUEUED
    requires 1 !in s.locks && 2 !in s.locks && !Super(s.users, 1) && !Super(s.users, 2)
    ensures Reaches(a, s') && s'.users == s.users && s'.locks == s.locks
    ensures s'.txs == s.txs[t := s.txs[t].(phase := Locked({}))]
  {
    var s1 := Reach(a, s, t, 1);
    var s2 := Reach(a, s1, t, 2);
    s' := Acquires(a, s2, t);
  }

  lemma Acquires(a: State, s: State, t: TxId) returns (s': State)
    requires Reaches(a, s) && t in s.txs && s.txs[t].phase.Waiting? && s.txs[t].phase.todo == {}
    ensures Reaches(a, s') && s'.users == s.users && s'.locks == s.locks
    ensures s'.txs == s.txs[t := s.txs[t].(phase := Locked(s.txs[t].phase.got))]
  {
    s' := Go(a, s, Acquire(t));
  }

  /** Read, mutate and count of a super_admin target, with another one active. */
  lemma Counts(a: State, s: State, t: TxId, other: UserId) returns (s': State)
    requires Reaches(a, s) && t in s.txs && s.txs[t].phase.Locked?
    requires Super(s.users, s.txs[t].target) && (s.txs[t].target in s.locks ==> s.locks[s.txs[t].target] == t)
    requires ActiveSuper(s.users, other) && other != s.txs[t].target
    ensures Reaches(a, s') && s'.users == s.users && s'.locks == s.locks[s.txs[t].target := t]
    ensures s'.txs.Keys == s.txs.Keys && forall r :: r in s.txs && r != t ==> s'.txs[r] == s.txs[r]
    ensures s'.txs[t].kind == s.txs[t].kind && s'.txs[t].target == s.txs[t].target && CanCommit(s'.txs[t])
  {
    var s1 := Go(a, s, Read(t));
    var s2 := Go(a, s1, Mutate(t));
    s' := Go(a, s2, Count(t));
    var after := Mutated(s.users, s.txs[t].kind, s.txs[t].target);
    assert ActiveSuper(after, other);
    RemainingPositive(after);
  }

  lemma Promotion(a: State, s: State, u: UserId) returns (s': State)
    requires Reaches(a, s) && u in s.users && u !in s.locks
    ensures Reaches(a, s') && s' == s.(users := s.users[u := s.users[u].(role := SuperAdmin)])
  {
    s' := Go(a, s, Update(u, SuperAdmin));
  }

  /** A commit that ends its transaction. */
  lemma Commits(a: State, s: State, t: TxId) returns (s': State)
    requires Reaches(a, s) && t in s.txs && s.txs[t].target in s.users && CanCommit(s.txs[t])
    ensures Reaches(a, s')
    ensures s'.users == Mutated(s.users, s.txs[t].kind, s.txs[t].target)
    ensures s'.txs == s.txs - {t}
    ensures forall u :: u in s'.locks <==> u in s.locks && s.locks[u] != t
    ensures forall u :: u in s'.locks ==> s'.locks[u] == s.locks[u]
  {
    s' := Go(a, s, Commit(t));
  }

  const ADMIN := User(SuperAdmin, true)
  const QUEUED := Waiting({1, 2}, {1, 2}, {}, {})

  /** Two super_admins, two plain users. */
  const FOUR: Users := map[1 := ADMIN, 2 := ADMIN, 3 := User(Plain, true), 4 := User(Plain, true)]

  /** Transaction 1 holds both super_admin rows. */
  lemma FirstHolds(a: State) returns (s: State)
    requires a == State(FOUR, map[], map[])
    ensures Reaches(a, s) && s.users == FOUR
    ensures s.locks == map[1 := 1, 2 := 1] && s.txs == map[1 := Tx(Delete, 1, Locked({1, 2}))]
  {
    assert Run(a, [], a);
    assert Supers(FOUR) == {1, 2};
    var s1 := Asks(a, a, 1, Delete, 1);
    var s2 := Reach(a, s1, 1, 1);
    var s3 := Reach(a, s2, 1, 2);
    assert s3.txs[1].phase.got == {1, 2};
    s := Acquires(a, s3, 1);
  }

  /** Transactions 2, 3 and 4 queue behind it, and users 3 and 4 are promoted. */
  lemma OthersQueue(a: State, s: State) returns (s': State)
    requires Reaches(a, s) && Supers(s.users) == {1, 2} && s.txs.Keys == {1}
    requires 3 in s.users && 4 in s.users && 3 !in s.locks && 4 !in s.locks
    ensures Reaches(a, s') && s'.locks == s.locks && s'.txs.Keys == {1, 2, 3, 4}
    ensures s'.users == s.users[3 := s.users[3].(role := SuperAdmin)][4 := s.users[4].(role := SuperAdmin)]
    ensures s'.txs[1] == s.txs[1] && s'.txs[2] == Tx(Delete, 2, QUEUED)
    ensures s'.txs[3] == Tx(Disable, 3, QUEUED) && s'.txs[4] == Tx(Disable, 4, QUEUED)
  {
    var s1 := Asks(a, s, 2, Delete, 2);
    var s2 := Asks(a, s1, 3, Disable, 3);
    var s3 := Asks(a, s2, 4, Disable, 4);
    var s4 := Promotion(a, s3, 3);
    s' := Promotion(a, s4, 4);
  }

  /** From the lock to the commit of a transaction nobody else interferes with. */
  lemma Completes(a: State, s: State, t: TxId, other: UserId) returns (s': State)
    requires Reaches(a, s) && t in s.txs && s.txs[t].phase.Locked?
    requires Super(s.users, s.txs[t].target) && forall u :: u in s.locks ==> s.locks[u] == t
    requires ActiveSuper(s.users, other) && other != s.txs[t].target
    ensures Reaches(a, s') && s'.users == Mutated(s.users, s.txs[t].kind, s.txs[t].target)
    ensures s'.locks == map[] && s'.txs == s.txs - {t}
  {
    var s1 := Counts(a, s, t, other);
    s' := Commits(a, s1, t);
    assert s'.locks.Keys == {};
    assert s'.txs == s.txs - {t};
  }

  /** Transaction 1 deletes the first old super_admin ... */
  lemma FirstLeaves(a: State, s: State) returns (s': State)
    requires Reaches(a, s) && s.users == map[1 := ADMIN, 2 := ADMIN, 3 := ADMIN, 4 := ADMIN]
    requires s.locks == map[1 := 1, 2 := 1] && 1 in s.txs && s.txs[1] == Tx(Delete, 1, Locked({1, 2}))
    ensures Reaches(a, s') && s'.users == map[2 := ADMIN, 3 := ADMIN, 4 := ADMIN]
    ensures s'.locks == map[] && s'.txs == s.txs - {1}
  {
    s' := Completes(a, s, 1, 3);
  }

  /** ... and transaction 2 the second. */
  lemma SecondLeaves(a: State, s: State) returns (s': State)
    requires Reaches(a, s) && s.users == map[2 := ADMIN, 3 := ADMIN, 4 := ADMIN]
    requires s.locks == map[] && 2 in s.txs && s.txs[2] == Tx(Delete, 2, QUEUED)
    ensures Reaches(a, s') && s'.users == map[3 := ADMIN, 4 := ADMIN]
    ensures s'.locks == map[] && s'.txs == s.txs - {2}
  {
    var s1 := SecondLocks(a, s);
    s' := Completes(a, s1, 2, 3);
    assert s'.txs == s.txs - {2};
  }

  lemma SecondLocks(a: State, s: State) returns (s': State)
    requires Reaches(a, s) && !Super(s.users, 1) && Super(s.users, 2)
    requires s.locks == map[] && 2 in s.txs && s.txs[2].phase == QUEUED
    ensures Reaches(a, s') && s'.users == s.users && s'.locks == map[2 := 2]
    ensures s'.txs == s.txs[2 := s.txs[2].(phase := Locked({2}))]
  {
    var s1 := Reach(a, s, 2, 1);
    var s2 := Reach(a, s1, 2, 2);
    assert s2.txs[2].phase.got == {2};
    s' := Acquires(a, s2, 2);
  }

  /** Transactions 3 and 4 hold no old row, and each counts the other's target. */
  lemma BothCount(a: State, s: State) returns (s': State)
    requires Reaches(a, s) && s.users == map[3 := ADMIN, 4 := ADMIN] && s.locks == map[]
    requires s.txs.Keys == {3, 4} && s.txs[3] == Tx(Disable, 3, QUEUED) && s.txs[4] == Tx(Disable, 4, QUEUED)
    ensures Reaches(a, s') && s'.users == s.users && s'.txs.Keys == {3, 4}
    ensures s'.txs[3].kind == s'.txs[4].kind == Disable && s'.txs[3].target == 3 && s'.txs[4].target == 4
    ensures CanCommit(s'.txs[3]) && CanCommit(s'.txs[4])
  {
    var s1 := TakesNone(a, s, 3);
    var s2 := Counts(a, s1, 3, 4);
    var s3 := TakesNone(a, s2, 4);
    s' := Counts(a, s3, 4, 3);
  }

  /** Under READ COMMITTED a waiting lock keeps its snapshot: two super_admins leave, two
      accounts promoted meanwhile are in nobody's snapshot, and the transactions that
      disable them hold no lock, count each other's target, and both commit. */
  lemma StaleLocksLeaveNoAdmin()
    ensures SomeAdmin(FOUR)
    ensures exists s :: Reaches(State(FOUR, map[], map[]), s) && !SomeAdmin(s.users)
  {
    assert ActiveSuper(FOUR, 1);
    var a := State(FOUR, map[], map[]);
    var s1 := FirstHolds(a);
    assert Supers(FOUR) == {1, 2};
    var s2 := OthersQueue(a, s1);
    var s3 := FirstLeaves(a, s2);
    var s4 := SecondLeaves(a, s3);
    var s5 := BothCount(a, s4);
    var s6 := BothCommit(a, s5);
  }

  lemma BothCommit(a: State, s: State) returns (s': State)
    requires Reaches(a, s) && s.users == map[3 := ADMIN, 4 := ADMIN] && s.txs.Keys == {3, 4}
    requires s.txs[3].kind == s.txs[4].kind == Disable && s.txs[3].target == 3 && s.txs[4].target == 4
    requires CanCommit(s.txs[3]) && CanCommit(s.txs[4])
    ensures Reaches(a, s') && !SomeAdmin(s'.users)
  {
    var s1 := Commits(a, s, 3);
    s' := Commits(a, s1, 4);
    assert forall u :: u in s'.users ==> !s'.users[u].active;
  }
}
