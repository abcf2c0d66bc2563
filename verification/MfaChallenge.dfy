/** The attempt counter of one MFA challenge token (internal/auth/handler.go,
    internal/auth/mfa.go) under every interleaving of single Valkey commands:
    HSET and EXPIRE by the login, HINCRBY, HGET and DEL by the challenge requests,
    expiry, and re-creation of a vanished hash by HINCRBY. */
module MfaChallenge {
  import opened Prelude

  type RequestId = nat
  type UserId = nat

  const ATTEMPTS: int := 5
  const CHALLENGE_TTL: nat := 120_000

  /** A hash re-created by HINCRBY has no user_id and no expiry. */
  datatype Hash = Hash(user: Option<UserId>, attempts: int, deadline: Option<nat>)

  datatype Phase =
    | Decremented(remaining: int)        // HINCRBY answered, HGET to come
    | Verifying(remaining: int)          // credentials are being checked
    | Deleting                           // DEL to come
    | Done

  /** `granted`: requests whose HINCRBY answered 0 or more; `verified`: requests that
      reached credential verification. */
  datatype State = State(
    now: nat, hash: Option<Hash>, created: bool,
    requests: map<RequestId, Phase>, granted: map<RequestId, int>, verified: set<RequestId>)

  datatype Step =
    | Tick(dt: nat)
    | HSet(user: UserId)
    | Expire
    | HIncrBy(r: RequestId)
    | HGet(r: RequestId)
    | Verdict(r: RequestId, ok: bool, recovery: bool)
    | Del(r: RequestId)

  /** The hash as Valkey shows it. */
  function Visible(s: State): Option<Hash> {
    if s.hash.Some? && s.hash.value.deadline.Some? && s.hash.value.deadline.value <= s.now then None else s.hash
  }

  function Decrement(h: Option<Hash>): Hash {
    match h
    case None => Hash(None, -1, None)
    case Some(h) => h.(attempts := h.attempts - 1)
  }

  function Apply(s: State, st: Step): State {
    match st
    case Tick(dt) => s.(now := s.now + dt)
    case HSet(u) =>
      var deadline := if Visible(s).Some? then Visible(s).value.deadline else None;
      s.(hash := Some(Hash(Some(u), ATTEMPTS, deadline)), created := true)
    case Expire =>
      if Visible(s).None? then s
      else s.(hash := Some(Visible(s).value.(deadline := Some(s.now + CHALLENGE_TTL))))
    case HIncrBy(r) =>
      var h := Decrement(Visible(s));
      if h.attempts < 0 then s.(hash := Some(h), requests := s.requests[r := Deleting])
      else s.(hash := Some(h), requests := s.requests[r := Decremented(h.attempts)],
              granted := s.granted[r := h.attempts])
    case HGet(r) =>
      if r !in s.requests || !s.requests[r].Decremented? then s
      else if Visible(s).None? || Visible(s).value.user.None? then s.(requests := s.requests[r := Done])
      else s.(requests := s.requests[r := Verifying(s.requests[r].remaining)], verified := s.verified + {r})
    case Verdict(r, ok, recovery) =>
      if r !in s.requests || !s.requests[r].Verifying? then s
      else if ok || (s.requests[r].remaining == 0 && !recovery) then s.(requests := s.requests[r := Deleting])
      else s.(requests := s.requests[r := Done])
    case Del(r) =>
      if r !in s.requests || !s.requests[r].Deleting? then s
      else s.(hash := None, requests := s.requests[r := Done])
  }

  /** The token is random, so one login creates the hash, once; a request decrements once. */
  predicate Enabled(s: State, st: Step) {
    && (st.HSet? ==> !s.created)
    && (st.HIncrBy? ==> st.r !in s.requests)
  }

  ghost predicate Run(a: State, steps: seq<Step>, b: State)
    decreases |steps|
  {
    if steps == [] then a == b
    else Enabled(a, steps[0]) && Run(Apply(a, steps[0]), steps[1..], b)
  }

  const START := State(0, None, false, map[], map[], {})

  /** Answers are handed out downwards, never twice. */
  ghost predicate GrantOk(s: State, r: RequestId)
    requires r in s.granted
  {
    && r in s.requests && s.created && 0 <= s.granted[r] < ATTEMPTS
    && (s.hash.Some? ==> s.hash.value.attempts <= s.granted[r])
  }

  ghost predicate Inv(s: State) {
    && (forall r :: r in s.granted ==> GrantOk(s, r))
    && (forall q, r :: q in s.granted && r in s.granted && s.granted[q] == s.granted[r] ==> q == r)
    && (s.hash.Some? ==> s.hash.value.attempts <= if s.created then ATTEMPTS else -1)
    && (forall r :: r in s.requests && (s.requests[r].Decremented? || s.requests[r].Verifying?) ==>
                      r in s.granted && s.granted[r] == s.requests[r].remaining)
    && s.verified <= s.granted.Keys
  }

  lemma DecrementKeeps(s: State, r: RequestId)
    requires Inv(s) && r !in s.requests
    ensures Inv(Apply(s, HIncrBy(r)))
  {
    var s' := Apply(s, HIncrBy(r));
    assert forall q :: q in s.granted ==> GrantOk(s, q) && q != r;
    forall q | q in s'.granted ensures GrantOk(s', q) {
    }
  }

  lemma StepKeeps(s: State, st: Step)
    requires Inv(s) && Enabled(s, st)
    ensures Inv(Apply(s, st))
  {
    if st.HIncrBy? {
      DecrementKeeps(s, st.r);
    } else {
      var s' := Apply(s, st);
      assert s'.granted == s.granted;
      forall r | r in s'.granted ensures GrantOk(s', r) {
        assert GrantOk(s, r);
      }
    }
  }

  lemma {:induction false} RunKeeps(a: State, steps: seq<Step>, b: State)
    requires Inv(a) && Run(a, steps, b)
    ensures Inv(b)
    decreases |steps|
  {
    if steps != [] {
      StepKeeps(a, steps[0]);
      RunKeeps(Apply(a, steps[0]), steps[1..], b);
    }
  }

  lemma {:induction false} Pigeonhole(m: map<RequestId, int>, k: nat)
    requires forall r :: r in m ==> 0 <= m[r] < k
    requires forall q, r :: q in m && r in m && m[q] == m[r] ==> q == r
    ensures |m.Keys| <= k
  {
    if k > 0 {
      if r :| r in m && m[r] == k - 1 {
        Pigeonhole(m - {r}, k - 1);
        assert m.Keys == (m - {r}).Keys + {r};
      } else {
        Pigeonhole(m, k - 1);
      }
    } else {
      assert m.Keys == {};
    }
  }

  lemma SubsetSize(a: set<RequestId>, b: set<RequestId>)
    requires a <= b
    ensures |a| <= |b|
  {
    assert b == a + (b - a);
  }

  /** At most five requests per challenge token ever reach credential verification,
      and no two of them saw the same number of remaining attempts. */
  lemma AtMostFiveVerified(steps: seq<Step>, s: State)
    requires Run(START, steps, s)
    ensures |s.verified| <= 5
    ensures s.verified <= s.granted.Keys
    ensures forall q, r :: q in s.verified && r in s.verified && q != r ==> s.granted[q] != s.granted[r]
  {
    RunKeeps(START, steps, s);
    Pigeonhole(s.granted, 5);
    SubsetSize(s.verified, s.granted.Keys);
  }

  // ----- success ends the challenge -----

  /** No hash with a user is left, and none can come: the login has created its own. */
  ghost predicate Over(s: State) {
    s.created && (s.hash.Some? ==> s.hash.value.user.None?)
  }

  lemma {:induction false} OverStaysOver(a: State, steps: seq<Step>, b: State)
    requires Over(a) && Run(a, steps, b)
    ensures Over(b) && b.verified == a.verified
    decreases |steps|
  {
    if steps != [] {
      OverStaysOver(Apply(a, steps[0]), steps[1..], b);
    }
  }

  lemma {:induction false} DeletingWaits(a: State, steps: seq<Step>, b: State, r: RequestId)
    requires Run(a, steps, b) && r in a.requests && a.requests[r] == Deleting && a.created
    requires forall i :: 0 <= i < |steps| ==> steps[i] != Del(r)
    ensures r in b.requests && b.requests[r] == Deleting && b.created
    decreases |steps|
  {
    if steps != [] {
      assert steps[0] != Del(r);
      DeletingWaits(Apply(a, steps[0]), steps[1..], b, r);
    }
  }

  /** A verified request goes on to delete the hash iff it succeeded, or failed with a code
      on the last attempt; a failed recovery code deletes nothing. */
  lemma VerdictExact(s: State, r: RequestId, ok: bool, recovery: bool)
    requires r in s.requests && s.requests[r].Verifying?
    ensures var s' := Apply(s, Verdict(r, ok, recovery));
            && s' == s.(requests := s'.requests) && r in s'.requests
            && s'.requests[r] == if ok || (!recovery && s.requests[r].remaining == 0) then Deleting else Done
  {
  }

  /** After a successful verification the request is bound to delete the hash, and once it
      has, no further request of the challenge reaches verification. */
  lemma SuccessEndsChallenge(before: seq<Step>, s: State, r: RequestId, recovery: bool, between: seq<Step>, t: State,
                             after: seq<Step>, u: State)
    requires Run(START, before, s) && r in s.requests && s.requests[r].Verifying?
    requires Run(Apply(s, Verdict(r, true, recovery)), between, t)
    requires forall i :: 0 <= i < |between| ==> between[i] != Del(r)
    requires Run(Apply(t, Del(r)), after, u)
    ensures r in t.requests && t.requests[r] == Deleting && Apply(t, Del(r)).hash == None
    ensures u.verified == t.verified
  {
    RunKeeps(START, before, s);
    assert GrantOk(s, r);
    DeletingWaits(Apply(s, Verdict(r, true, recovery)), between, t, r);
    OverStaysOver(Apply(t, Del(r)), after, u);
  }

  /** A challenge is there for 120 s after its expiry was set. */
  lemma ChallengeLapses(s: State, dt: nat)
    requires Visible(s).Some?
    ensures Visible(Apply(Apply(s, Expire), Tick(dt))).Some? <==> dt < 120_000
  {
  }

  // ----- and all five are available -----

  /** One whole request with a wrong code, uninterrupted. */
  function WrongGuess(s: State, r: RequestId): State {
    Apply(Apply(Apply(Apply(s, HIncrBy(r)), HGet(r)), Verdict(r, false, false)), Del(r))
  }

  function WrongGuesses(s: State, n: nat): State {
    if n == 0 then s else WrongGuess(WrongGuesses(s, n - 1), n)
  }

  ghost predicate AfterGuesses(s: State, user: UserId, n: nat) {
    && s.now < CHALLENGE_TTL
    && (forall r :: r in s.verified <==> 1 <= r <= n && r <= 5)
    && (forall r :: r in s.requests ==> r <= n)
    && s.hash == if n < 5 then Some(Hash(Some(user), 5 - n, Some(CHALLENGE_TTL))) else None
  }

  /** A login's challenge, then n wrong codes one after the other before it expires:
      exactly the first five are verified, whatever n is. */
  lemma {:induction false} SerialGuesses(user: UserId, n: nat)
    ensures AfterGuesses(WrongGuesses(Apply(Apply(START, HSet(user)), Expire), n), user, n)
  {
    if n > 0 {
      SerialGuesses(user, n - 1);
      GuessVerifies(WrongGuesses(Apply(Apply(START, HSet(user)), Expire), n - 1), n, user);
    }
  }

  lemma GuessVerifies(s: State, r: RequestId, user: UserId)
    requires r > 0 && AfterGuesses(s, user, r - 1)
    ensures AfterGuesses(WrongGuess(s, r), user, r)
  {
    assert r !in s.requests;
    var s1 := Apply(s, HIncrBy(r));
    assert s1.hash.Some? && s1.hash.value.attempts == if r <= 5 then 5 - r else -1;
    var s2 := Apply(s1, HGet(r));
    assert s2.verified == if r <= 5 then s.verified + {r} else s.verified;
    var s3 := Apply(s2, Verdict(r, false, false));
    assert s3.requests[r] == if r < 5 then Done else Deleting;
  }
}
