/** TOTP validation and its replay gate (internal/crypto/totp.go, internal/auth/mfa.go,
    internal/users/store.go). The one-time password of a step is a parameter. */
module Totp {
  import opened Prelude

  type Secret = nat
  type Code = string
  type Otp = (Secret, int) -> Code

  /** Unix seconds to 30-second steps. */
  function StepOf(sec: nat): int {
    sec / 30
  }

  /** Section 5.2 of RFC 6238: one step of drift either way, and no step at or below
      the last one used. */
  predicate Candidate(otp: Otp, secret: Secret, code: Code, current: int, last: int, step: int) {
    current - 1 <= step <= current + 1 && step > last && otp(secret, step) == code
  }

  ghost predicate Matches(otp: Otp, secret: Secret, code: Code, current: int, last: int) {
    exists step :: Candidate(otp, secret, code, current, last, step)
  }

  /** Preference among the offsets: 0, then -1, then 1. */
  function Preference(current: int, step: int): int {
    if step == current then 0 else if step < current then 1 else 2
  }

  const OFFSETS: seq<int> := [0, -1, 1]

  /** ValidateTOTP: the loop over the three offsets. */
  method ValidateTotp(otp: Otp, code: Code, secret: Secret, last: int, sec: nat) returns (matched: Option<int>)
    ensures matched.None? <==> !Matches(otp, secret, code, StepOf(sec), last)
    ensures var c := sec / 30;
            matched == if c > last && otp(secret, c) == code then Some(c)
                       else if c - 1 > last && otp(secret, c - 1) == code then Some(c - 1)
                       else if c + 1 > last && otp(secret, c + 1) == code then Some(c + 1)
                       else None
    ensures matched.Some? ==> Candidate(otp, secret, code, StepOf(sec), last, matched.value)
    ensures matched.Some? ==> forall step :: Candidate(otp, secret, code, StepOf(sec), last, step) ==>
                                               Preference(StepOf(sec), matched.value) <= Preference(StepOf(sec), step)
  {
    var current := sec / 30;
    for i := 0 to |OFFSETS|
      invariant forall k :: 0 <= k < i ==> !Candidate(otp, secret, code, current, last, current + OFFSETS[k])
    {
      var step := current + OFFSETS[i];
      if step <= last {
        continue;
      }
      if otp(secret, step) == code {
        assert Candidate(otp, secret, code, current, last, step);
        assert i > 0 ==> !Candidate(otp, secret, code, current, last, current + OFFSETS[0]);
        assert i > 1 ==> !Candidate(otp, secret, code, current, last, current + OFFSETS[1]);
        forall s | Candidate(otp, secret, code, current, last, s)
          ensures Preference(current, step) <= Preference(current, s)
        {
          assert s == current + OFFSETS[Preference(current, s)];
        }
        return Some(step);
      }
    }
    assert OFFSETS[0] == 0 && OFFSETS[1] == -1 && OFFSETS[2] == 1;
    assert !Candidate(otp, secret, code, current, last, current + OFFSETS[0]);
    assert !Candidate(otp, secret, code, current, last, current + OFFSETS[1]);
    assert !Candidate(otp, secret, code, current, last, current + OFFSETS[2]);
    forall s ensures !Candidate(otp, secret, code, current, last, s) {
      if current - 1 <= s <= current + 1 {
        assert s == current + OFFSETS[Preference(current, s)];
      }
    }
    return None;
  }

  class TotpUser {
    var secret: Option<Secret>
    var lastUsedCounter: int

    constructor ()
      ensures secret == None && lastUsedCounter == 0
    {
      secret, lastUsedCounter := None, 0;
    }

    method SetTotpEnrolled(s: Secret)
      modifies this
      ensures secret == Some(s) && lastUsedCounter == old(lastUsedCounter)
    {
      secret := Some(s);
    }

    method AdvanceTotpCounter(counter: int)
      modifies this
      ensures lastUsedCounter == counter && secret == old(secret)
    {
      lastUsedCounter := counter;
    }

    method ClearTotp()
      modifies this
      ensures secret == None && lastUsedCounter == 0
    {
      secret, lastUsedCounter := None, 0;
    }

    /** The TOTP branch of PostChallenge: validate, then advance the counter. */
    method PostChallenge(otp: Otp, code: Code, sec: nat) returns (accepted: Option<int>)
      requires secret.Some?
      modifies this
      ensures secret == old(secret)
      ensures accepted.None? ==> lastUsedCounter == old(lastUsedCounter)
      ensures accepted.None? <==> |code| != 6 || !Matches(otp, secret.value, code, StepOf(sec), old(lastUsedCounter))
      ensures accepted.Some? ==>
                && Candidate(otp, secret.value, code, StepOf(sec), old(lastUsedCounter), accepted.value)
                && lastUsedCounter == accepted.value
    {
      if |code| != 6 {
        return None;
      }
      accepted := ValidateTotp(otp, code, secret.value, lastUsedCounter, sec);
      if accepted.Some? {
        AdvanceTotpCounter(accepted.value);
      }
    }
  }

  // ----- serial runs -----

  /** An accepted challenge: the step used, and the step current at the time. */
  datatype Login = Login(step: int, current: int)

  /** `logins` since the last ClearTOTP. */
  datatype State = State(sec: nat, secret: Option<Secret>, last: int, logins: seq<Login>)

  datatype Event = Tick(dt: nat) | Enrol(secret: Secret) | Clear | Challenge(code: Code, step: Option<int>)

  /** What a call of PostChallenge may answer, by its contract. */
  ghost predicate Enabled(s: State, otp: Otp, e: Event) {
    e.Challenge? ==>
      && s.secret.Some?
      && (e.step.None? ==> |e.code| != 6 || !Matches(otp, s.secret.value, e.code, StepOf(s.sec), s.last))
      && (e.step.Some? ==> Candidate(otp, s.secret.value, e.code, StepOf(s.sec), s.last, e.step.value))
  }

  function Apply(s: State, e: Event): State {
    match e
    case Tick(dt) => s.(sec := s.sec + dt)
    case Enrol(secret) => s.(secret := Some(secret))
    case Clear => State(s.sec, None, 0, [])
    case Challenge(_, step) =>
      if step.None? then s
      else s.(last := step.value, logins := s.logins + [Login(step.value, StepOf(s.sec))])
  }

  ghost predicate Run(a: State, otp: Otp, es: seq<Event>, b: State)
    decreases |es|
  {
    if es == [] then a == b
    else Enabled(a, otp, es[0]) && Run(Apply(a, es[0]), otp, es[1..], b)
  }

  const START := State(0, None, 0, [])

  ghost predicate Inv(s: State) {
    && s.last == (if s.logins == [] then 0 else s.logins[|s.logins| - 1].step)
    && (forall i :: 0 <= i < |s.logins| ==>
                      && 0 < s.logins[i].step
                      && s.logins[i].current - 1 <= s.logins[i].step <= s.logins[i].current + 1
                      && s.logins[i].current <= StepOf(s.sec))
    && (forall i, j :: 0 <= i < j < |s.logins| ==> s.logins[i].step < s.logins[j].step)
  }

  lemma {:induction false} RunKeeps(a: State, otp: Otp, es: seq<Event>, b: State)
    requires Inv(a) && Run(a, otp, es, b)
    ensures Inv(b)
    decreases |es|
  {
    if es != [] {
      assert Inv(Apply(a, es[0]));
      RunKeeps(Apply(a, es[0]), otp, es[1..], b);
    }
  }

  /** Between two ClearTOTP calls the accepted steps strictly increase, each within one
      of the step current at the time: no step logs in twice. A code is refused only
      when no step in reach is both unused-or-later and matching. */
  lemma StepsNeverRepeat(otp: Otp, es: seq<Event>, s: State)
    requires Run(START, otp, es, s)
    ensures forall i, j :: 0 <= i < j < |s.logins| ==> s.logins[i].step < s.logins[j].step
    ensures forall i :: 0 <= i < |s.logins| ==> s.logins[i].current - 1 <= s.logins[i].step <= s.logins[i].current + 1
    ensures forall e: Event :: e.Challenge? && e.step.Some? && Enabled(s, otp, e) ==>
                          forall i :: 0 <= i < |s.logins| ==> s.logins[i].step < e.step.value
  {
    RunKeeps(START, otp, es, s);
  }
}
