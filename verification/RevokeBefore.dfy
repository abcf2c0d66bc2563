/** revoke_before cutoffs (internal/session/revokebefore.go), one table per kind of
    subject (user, client). */
module RevokeBefore {
  import opened Prelude

  type SubjectId = nat

  /** Unix seconds, under a key that lives 30 days. */
  type Cutoffs = map<SubjectId, Cell<nat>>

  const CUTOFF_TTL: nat := 2_592_000_000

  /** RevokeBeforeSetNow: the cutoff is the next whole second. */
  function SetNow(c: Cutoffs, now: nat, id: SubjectId): Cutoffs {
    c[id := Cell(Sec(now) + 1, now + CUTOFF_TTL)]
  }

  function Get(c: Cutoffs, now: nat, id: SubjectId): Option<nat> {
    if id in c && Live(c[id], now) then Some(c[id].value) else None
  }

  /** The readers' test: stamp < cutoff, and no cutoff allows everything. */
  predicate Blocks(c: Cutoffs, now: nat, id: SubjectId, stamp: nat) {
    Get(c, now, id).Some? && stamp < Get(c, now, id).value
  }

  /** A cutoff answers for exactly 30 days, with the second after it was set. */
  lemma CutoffAnswers(c: Cutoffs, t: nat, id: SubjectId, now: nat)
    ensures Get(SetNow(c, t, id), now, id) == if now < t + 30 * 24 * 3_600_000 then Some(t / 1000 + 1) else None
    ensures forall other :: other != id ==> Get(SetNow(c, t, id), now, other) == Get(c, now, other)
  {
  }

  class CutoffStore {
    var keys: Cutoffs

    constructor ()
      ensures keys == map[]
    {
      keys := map[];
    }

    method RevokeBeforeSetNow(now: nat, id: SubjectId)
      modifies this
      ensures keys == SetNow(old(keys), now, id)
    {
      var cutoff := now / 1000 * 1000 + 1000;
      keys := keys[id := Cell(cutoff / 1000, now + CUTOFF_TTL)];
    }

    method RevokeBeforeGet(now: nat, id: SubjectId) returns (cutoff: Option<nat>)
      ensures cutoff == Get(keys, now, id)
    {
      if id !in keys || keys[id].deadline <= now {
        return None;
      }
      return Some(keys[id].value);
    }
  }
}
