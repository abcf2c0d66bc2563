/** The login lockout: guarded updates of a user row (internal/users/store.go) under
    concurrent logins (internal/auth/handler.go). PostgreSQL's now() is the start of
    the transaction, so every login carries its own stamp. */
module Lockout {
  import opened Prelude

  type Threshold = t: nat | t > 0 witness 1
  type Duration = d: nat | d > 0 witness 1

  datatype Policy = Policy(threshold: Threshold, duration: Duration)

  datatype Row = Row(failed: nat, lockedUntil: Option<nat>)

  const CLEAN := Row(0, None)

  /** WHERE ... (locked_until IS NULL OR locked_until < now()) */
  predicate Open(row: Row, txNow: nat) {
    row.lockedUntil.None? || row.lockedUntil.value < txNow
  }

  function Incremented(row: Row, txNow: nat, p: Policy): Row {
    if !Open(row, txNow) then row
    else Row(row.failed + 1, if row.failed + 1 >= p.threshold then Some(txNow + p.duration) else row.lockedUntil)
  }

  /** RETURNING ... AS just_locked. */
  predicate JustLocked(row: Row, txNow: nat) {
    row.lockedUntil.Some? && row.lockedUntil.value > txNow
  }

  class UserRow {
    var failed: nat
    var lockedUntil: Option<nat>

    ghost function View(): Row
      reads this
    {
      Row(failed, lockedUntil)
    }

    constructor ()
      ensures View() == CLEAN
    {
      failed, lockedUntil := 0, None;
    }

    /** None is ErrAlreadyLocked. The lock is reported exactly from the threshold on. */
    method IncrementFailedLogins(txNow: nat, p: Policy) returns (result: Option<(nat, bool)>)
      modifies this
      ensures View() == Incremented(old(View()), txNow, p)
      ensures result.Some? <==> Open(old(View()), txNow)
      ensures result.Some? ==> result.value.0 == failed && (result.value.1 <==> failed >= p.threshold)
      ensures result.Some? ==> (result.value.1 <==> JustLocked(View(), txNow))
    {
      if lockedUntil.Some? && txNow <= lockedUntil.value {
        return None;
      }
      if failed + 1 >= p.threshold {
        lockedUntil := Some(txNow + p.duration);
      }
      failed := failed + 1;
      return Some((failed, lockedUntil.Some? && lockedUntil.value > txNow));
    }

    /** False is ErrAlreadyLocked. */
    method ResetFailedLogins(txNow: nat) returns (ok: bool)
      modifies this
      ensures ok <==> Open(old(View()), txNow)
      ensures View() == if ok then CLEAN else old(View())
    {
      if lockedUntil.Some? && txNow <= lockedUntil.value {
        return false;
      }
      failed, lockedUntil := 0, None;
      return true;
    }

    method ClearLockoutForPasswordChange()
      modifies this
      ensures View() == CLEAN
    {
      failed, lockedUntil := 0, None;
    }
  }

  // ----- concurrent logins -----

  type RequestId = nat

  /** A login transaction: begun, then past the handler's own look at locked_until. */
  datatype Phase = Begun(txNow: nat) | Admitted(txNow: nat)

  /** `counted` holds the stamps of the failures counted since the counter was last
      zeroed, `reports` whether each was reported as account.locked; `logins` the
      stamps of all successful resets. */
  datatype State = State(
    now: nat, row: Row, pending: map<RequestId, Phase>, counted: seq<nat>, reports: seq<bool>, logins: seq<nat>)

  datatype Step =
    | Tick(dt: nat)
    | Begin(id: RequestId)
    | Look(id: RequestId)
    | Wrong(id: RequestId, policy: Policy)
    | Right(id: RequestId)
    | PasswordChange

  function Apply(s: State, st: Step): State {
    match st
    case Tick(dt) => s.(now := s.now + dt)
    case Begin(id) => s.(pending := s.pending[id := Begun(s.now)])
    case Look(id) =>
      if id !in s.pending then s
      else if s.row.lockedUntil.Some? && s.row.lockedUntil.value > s.now then s.(pending := s.pending - {id})
      else s.(pending := s.pending[id := Admitted(s.pending[id].txNow)])
    case Wrong(id, p) =>
      if id !in s.pending || s.pending[id].Begun? then s
      else
        var t := s.pending[id].txNow;
        var s' := s.(pending := s.pending - {id});
        if !Open(s.row, t) then s'
        else
          var row := Incremented(s.row, t, p);
          s'.(row := row, counted := s.counted + [t], reports := s.reports + [JustLocked(row, t)])
    case Right(id) =>
      if id !in s.pending || s.pending[id].Begun? then s
      else
        var t := s.pending[id].txNow;
        var s' := s.(pending := s.pending - {id});
        if Open(s.row, t) then s'.(row := CLEAN, counted := [], reports := [], logins := s.logins + [t]) else s'
    case PasswordChange => s.(row := CLEAN, counted := [], reports := [])
  }

  predicate Enabled(s: State, st: Step) {
    st.Begin? ==> st.id !in s.pending
  }

  ghost predicate Run(a: State, steps: seq<Step>, b: State)
    decreases |steps|
  {
    if steps == [] then a == b
    else Enabled(a, steps[0]) && Run(Apply(a, steps[0]), steps[1..], b)
  }

  const START := State(0, CLEAN, map[], [], [], [])

  ghost predicate FixedPolicy(steps: seq<Step>, p: Policy) {
    forall i :: 0 <= i < |steps| && steps[i].Wrong? ==> steps[i].policy == p
  }

  /** Transactions start in the past. */
  ghost predicate Stamped(s: State) {
    forall id :: id in s.pending ==> s.pending[id].txNow <= s.now
  }

  /** From the threshold on each counted stamp lies more than a duration after the one before. */
  ghost predicate Gap(counted: seq<nat>, p: Policy, i: nat)
    requires 0 < i < |counted|
  {
    p.threshold <= i ==> counted[i] > counted[i - 1] + p.duration
  }

  ghost predicate Inv(s: State, p: Policy) {
    && Stamped(s)
    && |s.counted| == s.row.failed && |s.reports| == s.row.failed
    && s.row.lockedUntil ==
       (if s.row.failed >= p.threshold then Some(s.counted[s.row.failed - 1] + p.duration) else None)
    && (forall i :: 0 < i < |s.counted| ==> Gap(s.counted, p, i))
    && (forall i :: 0 <= i < |s.reports| ==> (s.reports[i] <==> i + 1 >= p.threshold))
  }

  lemma StepKeeps(s: State, p: Policy, st: Step)
    requires Inv(s, p) && (st.Wrong? ==> st.policy == p)
    ensures Inv(Apply(s, st), p)
  {
    var s' := Apply(s, st);
    forall i | 0 < i < |s'.counted| ensures Gap(s'.counted, p, i) {
      if i < |s.counted| {
        assert Gap(s.counted, p, i);
      }
    }
  }

  lemma {:induction false} RunKeeps(a: State, p: Policy, steps: seq<Step>, b: State)
    requires Inv(a, p) && FixedPolicy(steps, p) && Run(a, steps, b)
    ensures Inv(b, p)
    decreases |steps|
  {
    if steps != [] {
      StepKeeps(a, p, steps[0]);
      RunKeeps(Apply(a, steps[0]), p, steps[1..], b);
    }
  }

  lemma {:induction false} GapsAdd(counted: seq<nat>, p: Policy, n: nat)
    requires p.threshold < n <= |counted|
    requires forall i :: 0 < i < |counted| ==> Gap(counted, p, i)
    ensures counted[n - 1] > counted[p.threshold - 1] + (n - p.threshold) * p.duration
  {
    assert Gap(counted, p, n - 1);
    if n > p.threshold + 1 {
      GapsAdd(counted, p, n - 1);
      assert (n - p.threshold) * p.duration == (n - 1 - p.threshold) * p.duration + p.duration;
    }
  }

  // ----- main results -----

  /** Brute-force bound, over every interleaving of logins: among the failures counted
      since the counter was last zeroed, the n-th (n > threshold) comes more than
      (n - threshold) durations after the threshold-th; and the lock is reported on
      exactly the threshold-th and every later one. */
  lemma BruteForceBound(p: Policy, steps: seq<Step>, s: State, n: nat)
    requires Run(START, steps, s) && FixedPolicy(steps, p) && 0 < n <= |s.counted|
    ensures n > p.threshold ==> s.counted[n - 1] > s.counted[p.threshold - 1] + (n - p.threshold) * p.duration
    ensures |s.reports| == |s.counted| == s.row.failed
    ensures s.reports[n - 1] <==> n >= p.threshold
  {
    RunKeeps(START, p, steps, s);
    if n > p.threshold {
      GapsAdd(s.counted, p, n);
    }
  }

  /** Fewer failures than the threshold since the counter was last zeroed, or the lock the
      last one set is past at instant t. */
  ghost predicate Unlocked(s: State, p: Policy, t: nat) {
    var n := |s.counted|;
    n < p.threshold || s.counted[n - 1] + p.duration < t
  }

  /** A login is stamped when it begins and keeps its stamp; a password change clears the
      lock and the counter. */
  lemma StampsAndClears(s: State, id: RequestId)
    ensures id in Apply(s, Begin(id)).pending && Apply(s, Begin(id)).pending[id] == Begun(s.now)
    ensures id in s.pending && id in Apply(s, Look(id)).pending ==>
              Apply(s, Look(id)).pending[id] == Admitted(s.pending[id].txNow)
    ensures Apply(s, PasswordChange).row == Row(0, None) && Apply(s, PasswordChange).counted == []
  {
  }

  /** Over every interleaving, exactly what an admitted login does: with the right password
      it succeeds and zeroes the counter iff the account is not locked for its transaction;
      with a wrong one it is counted iff so; otherwise the row stays. A login that looks at
      a lock still running is turned away before its password is checked. */
  lemma LoginExact(p: Policy, steps: seq<Step>, s: State, id: RequestId)
    requires Run(START, steps, s) && FixedPolicy(steps, p) && id in s.pending
    ensures s.pending[id].Admitted? ==>
              var t := s.pending[id].txNow;
              var right, wrong := Apply(s, Right(id)), Apply(s, Wrong(id, p));
              && (Unlocked(s, p, t) ==> right.logins == s.logins + [t] && right.row == Row(0, None))
              && (!Unlocked(s, p, t) ==> right.logins == s.logins && right.row == s.row)
              && (Unlocked(s, p, t) ==> wrong.counted == s.counted + [t] && wrong.row.failed == s.row.failed + 1)
              && (!Unlocked(s, p, t) ==> wrong.counted == s.counted && wrong.row == s.row)
    ensures id in Apply(s, Look(id)).pending <==>
              |s.counted| < p.threshold || s.counted[|s.counted| - 1] + p.duration <= s.now
  {
    RunKeeps(START, p, steps, s);
  }

  lemma {:induction false} RunStamped(a: State, steps: seq<Step>, b: State)
    requires Stamped(a) && Run(a, steps, b)
    ensures Stamped(b) && a.now <= b.now
    decreases |steps|
  {
    if steps != [] {
      RunStamped(Apply(a, steps[0]), steps[1..], b);
    }
  }

  ghost predicate NoPasswordChange(steps: seq<Step>) {
    forall i :: 0 <= i < |steps| ==> !steps[i].PasswordChange?
  }

  lemma {:induction false} LockHolds(a: State, steps: seq<Step>, b: State)
    requires Stamped(a) && Run(a, steps, b) && NoPasswordChange(steps)
    requires a.row.lockedUntil.Some? && b.now <= a.row.lockedUntil.value
    ensures b.row == a.row && b.logins == a.logins && b.counted == a.counted
    decreases |steps|
  {
    if steps != [] {
      var a' := Apply(a, steps[0]);
      RunStamped(a', steps[1..], b);
      LockHolds(a', steps[1..], b);
    }
  }

  /** Lock persistence, under any policies and interleavings: until locked_until has
      passed, nothing but a password change touches the counter or the lock, and no
      login succeeds, not even one that looked at the row before it was locked. */
  lemma LockPersists(before: seq<Step>, a: State, during: seq<Step>, b: State)
    requires Run(START, before, a) && Run(a, during, b) && NoPasswordChange(during)
    requires a.row.lockedUntil.Some? && b.now <= a.row.lockedUntil.value
    ensures b.row == a.row && b.logins == a.logins && b.counted == a.counted
  {
    RunStamped(START, before, a);
    LockHolds(a, during, b);
  }
}
