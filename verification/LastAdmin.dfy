/** The last-active-super_admin protocol (internal/users/handler.go): Disable and Delete
    lock every super_admin row, read the target, mutate, count, and commit or roll
    back; the steps of concurrent transactions interleave freely. */
module LastAdmin {

  type UserId = nat
  type TxId = nat

  datatype Role = SuperAdmin | Plain
  datatype User = User(role: Role, active: bool)
  type Users = map<UserId, User>

  predicate Super(users: Users, u: UserId) {
    u in users && users[u].role == SuperAdmin
  }

  predicate ActiveSuper(users: Users, u: UserId) {
    Super(users, u) && users[u].active
  }

  /** remainingActiveSuperAdmins. */
  function Remaining(users: Users): nat {
    |set u | u in users && ActiveSuper(users, u)|
  }

  ghost predicate SomeAdmin(users: Users) {
    exists u :: ActiveSuper(users, u)
  }

  lemma RemainingPositive(users: Users)
    ensures Remaining(users) > 0 <==> SomeAdmin(users)
  {
    var admins := set u | u in users && ActiveSuper(users, u);
    if u :| ActiveSuper(users, u) {
      assert u in admins;
    } else {
      assert admins == {};
    }
  }

  datatype Kind = Disable | Delete

  function Mutated(users: Users, k: Kind, target: UserId): Users
    requires target in users
  {
    match k
    case Disable => users[target := users[target].(active := false)]
    case Delete => users - {target}
  }

  /** A disabled account keeps its row and role and is inactive; a deleted one has no row;
      no other account changes. */
  lemma MutationExact(users: Users, k: Kind, target: UserId)
    requires target in users
    ensures var users' := Mutated(users, k, target);
            && (target in users' <==> k == Disable)
            && (k == Disable ==> users'[target].role == users[target].role && !users'[target].active)
            && (forall u :: u != target ==> (u in users' <==> u in users) && (u in users ==> users'[u] == users[u]))
  {
  }

  // ----- the handlers, run alone -----

  class UsersHandler {
    var users: Users

    constructor (first: UserId)
      ensures users == map[first := User(SuperAdmin, true)]
    {
      users := map[first := User(SuperAdmin, true)];
    }

    /** Disable and Delete: false is USER_NOT_FOUND or LAST_ADMIN_LOCKOUT, rolled back.
        Refused exactly when the target is unknown or the last active super_admin. */
    method Remove(k: Kind, target: UserId) returns (ok: bool)
      requires SomeAdmin(users)
      modifies this
      ensures ok <==> target in old(users) && exists u :: ActiveSuper(old(users), u) && u != target
      ensures users == if ok then Mutated(old(users), k, target) else old(users)
      ensures ok && k == Disable ==> users == old(users)[target := User(old(users)[target].role, false)]
      ensures ok && k == Delete ==> target !in users && users == old(users) - {target}
      ensures SomeAdmin(users)
    {
      var begin := users;
      if target !in users {
        return false;
      }
      var existing := users[target];
      match k {
        case Disable => users := users[target := existing.(active := false)];
        case Delete => users := users - {target};
      }
      RemainingPositive(users);
      assert forall u :: ActiveSuper(users, u) <==> ActiveSuper(begin, u) && u != target;
      if existing.role == SuperAdmin && Remaining(users) == 0 {
        users := begin;
        return false;
      }
      return true;
    }

    /** A role change; demotion is checked as above. */
    method Update(target: UserId, role: Role) returns (ok: bool)
      requires SomeAdmin(users)
      modifies this
      ensures ok <==> target in old(users) &&
                      (ActiveSuper(old(users), target) && role == Plain ==>
                         exists u :: ActiveSuper(old(users), u) && u != target)
      ensures users == if ok then old(users)[target := old(users)[target].(role := role)] else old(users)
      ensures SomeAdmin(users)
    {
      var begin := users;
      if target !in users {
        return false;
      }
      var demoting := users[target].role == SuperAdmin && role != SuperAdmin;
      users := users[target := users[target].(role := role)];
      RemainingPositive(users);
      assert forall u :: u != target ==> (ActiveSuper(users, u) <==> ActiveSuper(begin, u));
      assert !demoting ==> forall u :: ActiveSuper(begin, u) ==> ActiveSuper(users, u);
      if demoting && Remaining(users) == 0 {
        users := begin;
        return false;
      }
      return true;
    }
  }

  // ----- interleaved transactions -----

  /** SELECT ... FOR UPDATE takes a snapshot when it is issued, then goes through the
      super_admin rows of that snapshot one by one, waiting for each: a row that is still
      one is locked, one that is no longer one is passed over (`missed`). `locked`: the
      rows it ended up with. `role`: what the read returned. */
  datatype Phase =
    | Begun
    | Waiting(snapshot: set<UserId>, todo: set<UserId>, got: set<UserId>, missed: set<UserId>)
    | Locked(locked: set<UserId>)
    | HasRead(locked: set<UserId>, role: Role)
    | HasMutated(locked: set<UserId>, role: Role)
    | HasCounted(locked: set<UserId>, role: Role, n: nat)

  datatype Tx = Tx(kind: Kind, target: UserId, phase: Phase)

  /** `users` is the committed table, `locks` the owner of each row lock. */
  datatype State = State(users: Users, locks: map<UserId, TxId>, txs: map<TxId, Tx>)

  datatype Step =
    | Begin(t: TxId, kind: Kind, target: UserId)
    | Request(t: TxId)
    | LockRow(t: TxId, u: UserId)
    | Acquire(t: TxId)
    | Read(t: TxId)
    | Mutate(t: TxId)
    | Count(t: TxId)
    | Commit(t: TxId)
    | Rollback(t: TxId)
    | Create(u: UserId, role: Role)
    | Enable(u: UserId)
    | Update(u: UserId, role: Role)

  function Supers(users: Users): set<UserId> {
    set u | u in users && users[u].role == SuperAdmin
  }

  function Put(s: State, t: TxId, p: Phase): State
    requires t in s.txs
  {
    s.(txs := s.txs[t := s.txs[t].(phase := p)])
  }

  function Ended(s: State, t: TxId): State {
    s.(locks := map u | u in s.locks && s.locks[u] != t :: s.locks[u], txs := s.txs - {t})
  }

  function SetRole(s: State, u: UserId, role: Role): State
    requires u in s.users
  {
    s.(users := s.users[u := s.users[u].(role := role)])
  }

  predicate CanCommit(tx: Tx) {
    || (tx.phase.HasMutated? && tx.phase.role != SuperAdmin)
    || (tx.phase.HasCounted? && tx.phase.n > 0)
  }

  /** When a step can run; a step that would wait for a row lock cannot yet. */
  predicate Enabled(s: State, st: Step) {
    match st
    case Begin(t, _, _) => t !in s.txs
    case Request(t) => t in s.txs && s.txs[t].phase.Begun?
    case LockRow(t, u) => t in s.txs && s.txs[t].phase.Waiting? && u in s.txs[t].phase.todo && u !in s.locks
    case Acquire(t) => t in s.txs && s.txs[t].phase.Waiting? && s.txs[t].phase.todo == {}
    case Read(t) => t in s.txs && s.txs[t].phase.Locked? && s.txs[t].target in s.users
    case Mutate(t) =>
      && t in s.txs && s.txs[t].phase.HasRead? && s.txs[t].target in s.users
      && (s.txs[t].target in s.locks ==> s.locks[s.txs[t].target] == t)
    case Count(t) =>
      && t in s.txs && s.txs[t].phase.HasMutated?
      && s.txs[t].phase.role == SuperAdmin && s.txs[t].target in s.users
    case Commit(t) => t in s.txs && s.txs[t].target in s.users && CanCommit(s.txs[t])
    case Rollback(t) => t in s.txs
    case Create(u, _) => u !in s.users && u !in s.locks
    case Enable(u) => u in s.users && u !in s.locks
    case Update(u, role) =>
      && u in s.users && u !in s.locks
      && (s.users[u].role == SuperAdmin && role != SuperAdmin ==> forall v :: v in Supers(s.users) ==> v !in s.locks)
  }

  function Apply(s: State, st: Step): State
    requires Enabled(s, st)
  {
    match st
    case Begin(t, k, u) => s.(txs := s.txs[t := Tx(k, u, Begun)])
    case Request(t) => Put(s, t, Waiting(Supers(s.users), Supers(s.users), {}, {}))
    case LockRow(t, u) =>
      var p := s.txs[t].phase;
      if Super(s.users, u) then Put(s.(locks := s.locks[u := t]), t, p.(todo := p.todo - {u}, got := p.got + {u}))
      else Put(s, t, p.(todo := p.todo - {u}, missed := p.missed + {u}))
    case Acquire(t) => Put(s, t, Locked(s.txs[t].phase.got))
    case Read(t) => Put(s, t, HasRead(s.txs[t].phase.locked, s.users[s.txs[t].target].role))
    case Mutate(t) =>
      Put(s.(locks := s.locks[s.txs[t].target := t]), t, HasMutated(s.txs[t].phase.locked, s.txs[t].phase.role))
    case Count(t) =>
      var n := Remaining(Mutated(s.users, s.txs[t].kind, s.txs[t].target));
      Put(s, t, HasCounted(s.txs[t].phase.locked, s.txs[t].phase.role, n))
    case Commit(t) => Ended(s.(users := Mutated(s.users, s.txs[t].kind, s.txs[t].target)), t)
    case Rollback(t) => Ended(s, t)
    case Create(u, role) => s.(users := s.users[u := User(role, true)])
    case Enable(u) => s.(users := s.users[u := s.users[u].(active := true)])
    case Update(u, role) =>
      if s.users[u].role == SuperAdmin && role != SuperAdmin && Remaining(SetRole(s, u, role).users) == 0 then s
      else SetRole(s, u, role)
  }

  /** What the other handlers do to the table, and that a commit does what its transaction
      staged. */
  lemma TableSteps(s: State, st: Step)
    requires Enabled(s, st)
    ensures st.Create? ==> Apply(s, st).users == s.users[st.u := User(st.role, true)]
    ensures st.Enable? ==> Apply(s, st).users == s.users[st.u := User(s.users[st.u].role, true)]
    ensures st.Commit? ==> Apply(s, st).users == Mutated(s.users, s.txs[st.t].kind, s.txs[st.t].target)
    ensures st.Update? && (st.role == SuperAdmin || s.users[st.u].role != SuperAdmin) ==>
              Apply(s, st).users == s.users[st.u := User(st.role, s.users[st.u].active)]
    ensures !st.Create? && !st.Enable? && !st.Update? && !st.Commit? ==> Apply(s, st).users == s.users
  {
  }

  ghost predicate Run(a: State, steps: seq<Step>, b: State)
    decreases |steps|
  {
    if steps == [] then a == b
    else Enabled(a, steps[0]) && Run(Apply(a, steps[0]), steps[1..], b)
  }

  // ----- what holds in every run: who holds which rows -----

  /** A row this transaction locked is still a committed super_admin. */
  ghost predicate Holds(s: State, t: TxId, u: UserId) {
    u in s.locks && s.locks[u] == t && Super(s.users, u)
  }

  function Held(p: Phase): set<UserId> {
    match p
    case Begun => {}
    case Waiting(_, _, got, _) => got
    case _ => p.locked
  }

  /** Each row of the snapshot is still to come, taken, or passed over. */
  ghost predicate SplitOk(p: Phase)
    requires p.Waiting?
  {
    && p.snapshot == p.todo + p.got + p.missed
    && p.todo !! p.got && p.todo !! p.missed && p.got !! p.missed
  }

  ghost predicate LocksOk(s: State, t: TxId)
    requires t in s.txs
  {
    var tx := s.txs[t];
    && (forall u :: u in Held(tx.phase) ==> Holds(s, t, u))
    && (tx.phase.Waiting? ==> SplitOk(tx.phase))
    && (tx.phase.HasMutated? || tx.phase.HasCounted? ==> tx.target in s.locks && s.locks[tx.target] == t)
  }

  ghost predicate LockInv(s: State) {
    forall t :: t in s.txs ==> LocksOk(s, t)
  }

  /** Rows locked by r, and r's own record, are left alone. */
  lemma LocksUndisturbed(s: State, s': State, r: TxId)
    requires r in s.txs && r in s'.txs && s'.txs[r] == s.txs[r] && LocksOk(s, r)
    requires forall u :: u in s.locks && s.locks[u] == r ==> u in s'.locks && s'.locks[u] == r
    requires forall u :: u in s.locks && s.locks[u] == r && u in s.users ==> u in s'.users && s'.users[u] == s.users[u]
    ensures LocksOk(s', r)
  {
    forall u | u in Held(s.txs[r].phase) ensures Holds(s', r, u) {
      assert Holds(s, r, u);
    }
  }

  lemma OwnLocksOk(s: State, st: Step)
    requires LockInv(s) && Enabled(s, st)
    requires st.Request? || st.LockRow? || st.Acquire? || st.Read? || st.Mutate? || st.Count?
    ensures LocksOk(Apply(s, st), st.t)
  {
    var s', t := Apply(s, st), st.t;
    assert LocksOk(s, t);
    forall u | u in Held(s'.txs[t].phase) ensures Holds(s', t, u) {
      assert u in Held(s.txs[t].phase) ==> Holds(s, t, u);
    }
  }

  lemma StepKeepsLocks(s: State, st: Step)
    requires LockInv(s) && Enabled(s, st)
    ensures LockInv(Apply(s, st))
  {
    var s' := Apply(s, st);
    forall r | r in s'.txs ensures LocksOk(s', r) {
      if r in s.txs && s'.txs[r] == s.txs[r] {
        if st.Commit? {
          assert LocksOk(s, st.t);
        }
        LocksUndisturbed(s, s', r);
      } else if !st.Begin? {
        OwnLocksOk(s, st);
      }
    }
  }

  lemma {:induction false} RunKeepsLocks(a: State, steps: seq<Step>, b: State)
    requires LockInv(a) && Run(a, steps, b)
    ensures LockInv(b)
    decreases |steps|
  {
    if steps != [] {
      StepKeepsLocks(a, steps[0]);
      RunKeepsLocks(Apply(a, steps[0]), steps[1..], b);
    }
  }

  /** Every current super_admin was one when the lock was requested, and still when its
      row was reached. */
  ghost predicate Current(s: State, t: TxId)
    requires t in s.txs && s.txs[t].phase.Waiting?
  {
    forall u :: u in Supers(s.users) ==> u in s.txs[t].phase.snapshot && u !in s.txs[t].phase.missed
  }

  /** In every run: the lock ends up holding all super_admin rows exactly then. */
  lemma AcquireTakesAllIff(users: Users, steps: seq<Step>, s: State, t: TxId)
    requires Run(State(users, map[], map[]), steps, s) && Enabled(s, Acquire(t))
    ensures Apply(s, Acquire(t)).txs[t].phase.locked == Supers(s.users) <==> Current(s, t)
    ensures Apply(s, Acquire(t)).txs[t].phase.locked <= Supers(s.users)
  {
    RunKeepsLocks(State(users, map[], map[]), steps, s);
    TakenIsSuper(s, t);
  }

  lemma TakenIsSuper(s: State, t: TxId)
    requires LockInv(s) && Enabled(s, Acquire(t))
    ensures s.txs[t].phase.got <= Supers(s.users)
    ensures s.txs[t].phase.got == Supers(s.users) <==> Current(s, t)
    ensures forall u :: u in s.txs[t].phase.got ==> u in s.locks && s.locks[u] == t
  {
    var p := s.txs[t].phase;
    assert LocksOk(s, t);
    forall u | u in p.got ensures u in Supers(s.users) && u in p.snapshot && u in s.locks && s.locks[u] == t {
      assert Holds(s, t, u);
    }
  }

  // ----- orderly runs keep an active super_admin -----

  /** A run in which every lock is complete when it is acquired. */
  ghost predicate OrderlyRun(a: State, steps: seq<Step>, b: State)
    decreases |steps|
  {
    if steps == [] then a == b
    else
      && Enabled(a, steps[0])
      && (steps[0].Acquire? ==> Current(a, steps[0].t))
      && OrderlyRun(Apply(a, steps[0]), steps[1..], b)
  }

  predicate PastLock(p: Phase) {
    !p.Begun? && !p.Waiting?
  }

  /** A transaction past its lock holds an active super_admin; what it read of a locked
      target still stands; a positive count of a super_admin target leaves another. */
  ghost predicate TxOk(s: State, t: TxId)
    requires t in s.txs
  {
    var tx := s.txs[t];
    PastLock(tx.phase) ==>
      && (exists a :: a in tx.phase.locked && ActiveSuper(s.users, a))
      && (tx.target in tx.phase.locked && !tx.phase.Locked? ==> tx.phase.role == SuperAdmin)
      && (tx.phase.HasCounted? && tx.phase.n > 0 ==> exists a :: a != tx.target && ActiveSuper(s.users, a))
  }

  ghost predicate Exclusive(s: State) {
    forall t, r :: t in s.txs && r in s.txs && PastLock(s.txs[t].phase) && PastLock(s.txs[r].phase) ==> t == r
  }

  ghost predicate Inv(s: State) {
    && LockInv(s) && SomeAdmin(s.users) && Exclusive(s)
    && (forall t :: t in s.txs ==> TxOk(s, t))
  }

  /** A transaction past its lock holds a current super_admin row. */
  lemma LockExcludes(s: State, t: TxId) returns (a: UserId)
    requires LockInv(s) && t in s.txs && PastLock(s.txs[t].phase) && TxOk(s, t)
    ensures a in Supers(s.users) && a in s.locks && s.locks[a] == t && ActiveSuper(s.users, a)
  {
    a :| a in s.txs[t].phase.locked && ActiveSuper(s.users, a);
    assert LocksOk(s, t) && Holds(s, t, a);
  }

  lemma AcquireKeeps(s: State, t: TxId)
    requires Inv(s) && Enabled(s, Acquire(t)) && Current(s, t)
    ensures Inv(Apply(s, Acquire(t)))
  {
    var s' := Apply(s, Acquire(t));
    TakenIsSuper(s, t);
    forall r | r in s.txs && PastLock(s.txs[r].phase) ensures false {
      var a := LockExcludes(s, r);
    }
    StepKeepsLocks(s, Acquire(t));
    var a :| ActiveSuper(s.users, a);
    assert a in s'.txs[t].phase.locked;
  }

  /** The other transactions: nothing they look at has moved, or active super_admins only
      grew in number. */
  lemma OthersOk(s: State, s': State, r: TxId)
    requires r in s.txs && r in s'.txs && s'.txs[r] == s.txs[r] && TxOk(s, r)
    requires PastLock(s.txs[r].phase) ==> forall u :: ActiveSuper(s.users, u) ==> ActiveSuper(s'.users, u)
    ensures TxOk(s', r)
  {
  }

  lemma OwnStepKeeps(s: State, st: Step)
    requires Inv(s) && Enabled(s, st) && (st.Request? || st.LockRow? || st.Read? || st.Mutate?)
    ensures Inv(Apply(s, st))
  {
    var s', t := Apply(s, st), st.t;
    StepKeepsLocks(s, st);
    assert TxOk(s, t) && LocksOk(s, t);
    if st.Read? && s.txs[t].target in s.txs[t].phase.locked {
      assert Holds(s, t, s.txs[t].target);
    }
    assert TxOk(s', t);
    forall r | r in s'.txs ensures TxOk(s', r) {
      if r != t {
        OthersOk(s, s', r);
      }
    }
  }

  lemma CountKeeps(s: State, t: TxId)
    requires Inv(s) && Enabled(s, Count(t))
    ensures Inv(Apply(s, Count(t)))
  {
    var s', tx := Apply(s, Count(t)), s.txs[t];
    StepKeepsLocks(s, Count(t));
    assert TxOk(s, t);
    var after := Mutated(s.users, tx.kind, tx.target);
    RemainingPositive(after);
    if a :| ActiveSuper(after, a) {
      assert a != tx.target && ActiveSuper(s.users, a);
    }
    forall r | r in s'.txs ensures TxOk(s', r) {
      if r != t {
        OthersOk(s, s', r);
      }
    }
  }

  /** A commit leaves an active super_admin: counted, or held and not the target. */
  lemma CommitLeavesAdmin(s: State, t: TxId)
    requires Inv(s) && Enabled(s, Commit(t))
    ensures SomeAdmin(Apply(s, Commit(t)).users)
  {
    var tx := s.txs[t];
    assert TxOk(s, t);
    var a :| ActiveSuper(s.users, a) && a != tx.target;
    assert ActiveSuper(Apply(s, Commit(t)).users, a);
  }

  lemma EndKeeps(s: State, st: Step)
    requires Inv(s) && Enabled(s, st) && (st.Commit? || st.Rollback?)
    ensures Inv(Apply(s, st))
  {
    var s', t := Apply(s, st), st.t;
    StepKeepsLocks(s, st);
    if st.Commit? {
      CommitLeavesAdmin(s, t);
    }
    forall r | r in s'.txs ensures TxOk(s', r) {
      OthersOk(s, s', r);
    }
  }

  lemma OutsideKeeps(s: State, st: Step)
    requires Inv(s) && Enabled(s, st) && (st.Create? || st.Enable? || st.Update?)
    ensures Inv(Apply(s, st))
  {
    var s' := Apply(s, st);
    StepKeepsLocks(s, st);
    forall r | r in s.txs ensures TxOk(s', r) {
      if st.Update? && PastLock(s.txs[r].phase) {
        var a := LockExcludes(s, r);
      }
      OthersOk(s, s', r);
    }
    RemainingPositive(s'.users);
    var a :| ActiveSuper(s.users, a);
    if !ActiveSuper(s'.users, a) {
      assert Remaining(s'.users) > 0;
    }
  }

  lemma StepKeeps(s: State, st: Step)
    requires Inv(s) && Enabled(s, st) && (st.Acquire? ==> Current(s, st.t))
    ensures Inv(Apply(s, st))
  {
    match st
    case Begin(t, k, u) =>
      StepKeepsLocks(s, st);
      forall r | r in Apply(s, st).txs ensures TxOk(Apply(s, st), r) {
        if r != t {
          OthersOk(s, Apply(s, st), r);
        }
      }
    case Acquire(t) => AcquireKeeps(s, t);
    case Count(t) => CountKeeps(s, t);
    case Commit(_) => EndKeeps(s, st);
    case Rollback(_) => EndKeeps(s, st);
    case Create(_, _) => OutsideKeeps(s, st);
    case Enable(_) => OutsideKeeps(s, st);
    case Update(_, _) => OutsideKeeps(s, st);
    case _ => OwnStepKeeps(s, st);
  }

  lemma {:induction false} OrderlyKeeps(a: State, steps: seq<Step>, b: State)
    requires Inv(a) && OrderlyRun(a, steps, b)
    ensures Inv(b)
    decreases |steps|
  {
    if steps != [] {
      StepKeeps(a, steps[0]);
      OrderlyKeeps(Apply(a, steps[0]), steps[1..], b);
    }
  }

  /** Over every interleaving in which each lock is complete when acquired, every
      committed state has an active super_admin, and at most one transaction at a time
      is between its lock and its end. */
  lemma AlwaysAnActiveAdmin(users: Users, steps: seq<Step>, s: State)
    requires SomeAdmin(users) && OrderlyRun(State(users, map[], map[]), steps, s)
    ensures SomeAdmin(s.users) && Remaining(s.users) >= 1
    ensures Exclusive(s)
  {
    OrderlyKeeps(State(users, map[], map[]), steps, s);
    RemainingPositive(s.users);
  }

  // ----- a condition on the steps alone: nobody is promoted while a lock is awaited -----

  predicate Promotes(s: State, st: Step) {
    || (st.Create? && st.role == SuperAdmin)
    || (st.Update? && st.role == SuperAdmin && !Super(s.users, st.u))
  }

  ghost predicate QuietRun(a: State, steps: seq<Step>, b: State)
    decreases |steps|
  {
    if steps == [] then a == b
    else
      && Enabled(a, steps[0])
      && (Promotes(a, steps[0]) ==> forall t :: t in a.txs ==> !a.txs[t].phase.Waiting?)
      && QuietRun(Apply(a, steps[0]), steps[1..], b)
  }

  /** No current super_admin has escaped a lock that is being awaited. */
  ghost predicate Complete(s: State) {
    forall t :: t in s.txs && s.txs[t].phase.Waiting? ==> Supers(s.users) <= s.txs[t].phase.todo + s.txs[t].phase.got
  }

  lemma QuietStep(s: State, st: Step)
    requires Complete(s) && LockInv(s) && Enabled(s, st)
    requires Promotes(s, st) ==> forall t :: t in s.txs ==> !s.txs[t].phase.Waiting?
    ensures Complete(Apply(s, st))
    ensures st.Acquire? ==> Current(s, st.t)
  {
    var s' := Apply(s, st);
    if !Promotes(s, st) {
      assert forall u :: Super(s'.users, u) ==> Super(s.users, u);
    }
    if st.Acquire? {
      assert LocksOk(s, st.t);
    }
  }

  lemma {:induction false} QuietIsOrderly(a: State, steps: seq<Step>, b: State)
    requires Complete(a) && LockInv(a) && QuietRun(a, steps, b)
    ensures OrderlyRun(a, steps, b)
    decreases |steps|
  {
    if steps != [] {
      QuietStep(a, steps[0]);
      StepKeepsLocks(a, steps[0]);
      QuietIsOrderly(Apply(a, steps[0]), steps[1..], b);
    }
  }

  /** So it is enough that no account becomes super_admin while a lock is awaited. */
  lemma QuietPromotionsAreSafe(users: Users, steps: seq<Step>, s: State)
    requires SomeAdmin(users) && QuietRun(State(users, map[], map[]), steps, s)
    ensures SomeAdmin(s.users)
  {
    QuietIsOrderly(State(users, map[], map[]), steps, s);
    AlwaysAnActiveAdmin(users, steps, s);
  }
}
