/** rateLimitCheck of the token endpoint (internal/authserver/token.go): INCR, and
    EXPIRE 60 s on the first hit of a window. */
module FixedWindow {
  import opened Prelude
  import opened Counting

  const MINUTE: nat := 60_000

  /** INCR followed by EXPIRE when the answer is 1. */
  function Hit(key: Cell<nat>, now: nat): Cell<nat> {
    var count := if Live(key, now) then key.value + 1 else 1;
    Cell(count, if count == 1 then now + MINUTE else key.deadline)
  }

  class TokenRateLimit {
    const limit: int
    var key: Cell<nat>

    constructor (limit: int)
      ensures this.limit == limit && key == Cell(0, 0)
    {
      this.limit := limit;
      key := Cell(0, 0);
    }

    method RateLimitCheck(now: nat) returns (allowed: bool)
      modifies this
      ensures key == Hit(old(key), now)
      ensures allowed <==> key.value <= limit
    {
      var count := if now < key.deadline then key.value + 1 else 1;
      key := Cell(count, if count == 1 then now + MINUTE else key.deadline);
      return count <= limit;
    }
  }

  /** An admitted hit: its window's start and its rank in that window. */
  datatype Admission = Admission(at: nat, start: int, rank: nat)

  datatype State = State(now: nat, key: Cell<nat>, admitted: seq<Admission>)

  datatype Step = Tick(dt: nat) | Check

  function Apply(s: State, limit: int, st: Step): State {
    match st
    case Tick(dt) => s.(now := s.now + dt)
    case Check =>
      var key := Hit(s.key, s.now);
      if key.value <= limit
      then State(s.now, key, s.admitted + [Admission(s.now, key.deadline - MINUTE, key.value)])
      else s.(key := key)
  }

  function RunAll(limit: int, steps: seq<Step>): State {
    if steps == [] then State(0, Cell(0, 0), [])
    else Apply(RunAll(limit, steps[..|steps| - 1]), limit, steps[|steps| - 1])
  }

  function Entries(hits: seq<Admission>): seq<Entry> {
    seq(|hits|, i requires 0 <= i < |hits| => Entry(i, hits[i].at))
  }

  /** How many requests were admitted in the half-open minute (x, x + 60 s]. */
  function AdmittedIn(s: State, x: int): nat {
    CountIn(Entries(s.admitted), x, x + MINUTE)
  }

  // ----- windows as blocks of consecutive admissions -----

  /** Hit i is the rank-th of its window, whose first hit opened it; the window before
      started at least a minute earlier. */
  ghost predicate HitOk(hits: seq<Admission>, limit: nat, i: nat)
    requires i < |hits|
  {
    var h := hits[i];
    && 1 <= h.rank <= limit && h.start <= h.at && h.rank - 1 <= i
    && hits[i - (h.rank - 1)].at == h.start
    && (h.rank <= i ==> hits[i - h.rank].start + MINUTE <= h.start)
  }

  ghost predicate Inv(s: State, limit: nat) {
    && (forall i :: 0 <= i < |s.admitted| ==> HitOk(s.admitted, limit, i))
    && (forall i, j :: 0 <= i <= j < |s.admitted| ==> s.admitted[i].at <= s.admitted[j].at)
    && (s.admitted == [] ==> s.key == Cell(0, 0))
    && (s.admitted != [] ==>
          var last := s.admitted[|s.admitted| - 1];
          && last.at <= s.now && last.start + MINUTE == s.key.deadline
          && last.rank == if s.key.value <= limit then s.key.value else limit)
  }

  lemma CheckKeeps(s: State, limit: nat)
    requires Inv(s, limit) && limit > 0
    ensures Inv(Apply(s, limit, Check), limit)
  {
    var s' := Apply(s, limit, Check);
    forall i | 0 <= i < |s'.admitted| ensures HitOk(s'.admitted, limit, i) {
      if i < |s.admitted| {
        assert HitOk(s.admitted, limit, i);
      } else if i > 0 {
        assert HitOk(s.admitted, limit, i - 1);
      }
    }
  }

  lemma {:induction false} RunKeeps(limit: nat, steps: seq<Step>)
    requires limit > 0
    ensures Inv(RunAll(limit, steps), limit)
  {
    if steps != [] {
      var init := steps[..|steps| - 1];
      RunKeeps(limit, init);
      if steps[|steps| - 1].Check? {
        CheckKeeps(RunAll(limit, init), limit);
      } else {
        var s, s' := RunAll(limit, init), RunAll(limit, steps);
        assert s'.admitted == s.admitted && s'.key == s.key && s.now <= s'.now;
      }
    }
  }

  /** In time order, and any two entries `gap` positions apart are a minute apart. */
  ghost predicate Spaced(es: seq<Entry>, gap: nat) {
    && (forall i, j :: 0 <= i <= j < |es| ==> es[i].at <= es[j].at)
    && (forall i :: gap <= i < |es| ==> SpacedAt(es, gap, i))
  }

  ghost predicate SpacedAt(es: seq<Entry>, gap: nat, i: nat)
    requires gap <= i < |es|
  {
    es[i - gap].at + MINUTE <= es[i].at
  }

  lemma {:induction false} SpacedBoundsEveryMinute(es: seq<Entry>, gap: nat, x: int)
    requires Spaced(es, gap)
    ensures CountIn(es, x, x + MINUTE) <= gap
  {
    if es != [] {
      var init, last := es[..|es| - 1], es[|es| - 1];
      if x < last.at <= x + MINUTE {
        if |es| > gap {
          assert SpacedAt(es, gap, |es| - 1);
          assert forall i :: 0 <= i < |es| - gap ==> es[i].at <= es[|es| - 1 - gap].at;
          CountFrom(es, |es| - gap, x, x + MINUTE);
        } else {
          CountFrom(es, 0, x, x + MINUTE);
        }
      } else {
        forall i | gap <= i < |init| ensures SpacedAt(init, gap, i) {
          assert SpacedAt(es, gap, i);
        }
        SpacedBoundsEveryMinute(init, gap, x);
      }
    }
  }

  /** Going back 2 * limit - 1 admissions leaves the window before. */
  lemma HitsAreSpaced(s: State, limit: nat)
    requires Inv(s, limit) && limit > 0
    ensures Spaced(Entries(s.admitted), 2 * limit - 1)
  {
    var gap := 2 * limit - 1;
    forall i | gap <= i < |s.admitted| ensures SpacedAt(Entries(s.admitted), gap, i) {
      assert HitOk(s.admitted, limit, i);
      var j := i - s.admitted[i].rank;
      assert HitOk(s.admitted, limit, j);
      var k := j - (s.admitted[j].rank - 1);
      assert s.admitted[i - gap].at <= s.admitted[k].at;
    }
  }

  lemma {:induction false} NothingAdmitted(limit: int, steps: seq<Step>)
    requires limit <= 0
    ensures RunAll(limit, steps).admitted == []
  {
    if steps != [] {
      NothingAdmitted(limit, steps[..|steps| - 1]);
    }
  }

  /** No half-open minute admits more than 2 * limit - 1 requests. */
  lemma MinuteBound(limit: int, steps: seq<Step>, x: int)
    ensures AdmittedIn(RunAll(limit, steps), x) <= if limit > 0 then 2 * limit - 1 else 0
  {
    if limit > 0 {
      RunKeeps(limit, steps);
      var s := RunAll(limit, steps);
      HitsAreSpaced(s, limit);
      SpacedBoundsEveryMinute(Entries(s.admitted), 2 * limit - 1, x);
    } else {
      NothingAdmitted(limit, steps);
    }
  }

  // ----- the bound is attained, whatever the limit -----

  ghost predicate Reachable(limit: int, s: State) {
    exists steps :: RunAll(limit, steps) == s
  }

  lemma ReachMore(limit: int, s: State, st: Step)
    requires Reachable(limit, s)
    ensures Reachable(limit, Apply(s, limit, st))
  {
    var steps :| RunAll(limit, steps) == s;
    assert (steps + [st])[..|steps|] == steps;
    assert RunAll(limit, steps + [st]) == Apply(s, limit, st);
  }

  /** An admitted request inside the minute after x counts. */
  lemma AdmittedMore(s: State, limit: int, x: int)
    requires Hit(s.key, s.now).value <= limit && x < s.now <= x + MINUTE
    ensures AdmittedIn(Apply(s, limit, Check), x) == AdmittedIn(s, x) + 1
  {
    var s' := Apply(s, limit, Check);
    assert Entries(s'.admitted) == Entries(s.admitted) + [Entry(|s.admitted|, s.now)];
    CountInMore(Entries(s.admitted), Entry(|s.admitted|, s.now), x, x + MINUTE);
  }

  /** k requests at one instant inside an open window, all within the limit. */
  lemma {:induction false} Burst(limit: int, s: State, k: nat, x: int) returns (s': State)
    requires Reachable(limit, s) && Live(s.key, s.now) && 0 < s.key.value && s.key.value + k <= limit
    requires x < s.now <= x + MINUTE
    ensures Reachable(limit, s') && s'.now == s.now && s'.key == Cell(s.key.value + k, s.key.deadline)
    ensures AdmittedIn(s', x) == AdmittedIn(s, x) + k
    decreases k
  {
    if k == 0 {
      s' := s;
    } else {
      AdmittedMore(s, limit, x);
      ReachMore(limit, s, Check);
      s' := Burst(limit, Apply(s, limit, Check), k - 1, x);
    }
  }

  /** For every limit: one request at 0 opens a window, limit - 1 come at 59 s, and limit
      at 60 s in the next: 2 * limit - 1 in the half-open minute after 0. */
  lemma MinuteBoundIsTight(limit: int)
    requires limit > 0
    ensures exists s :: Reachable(limit, s) && AdmittedIn(s, 0) == 2 * limit - 1
  {
    var s1 := OpeningHit(limit);
    var s2 := Burst(limit, s1, limit - 1, 0);
    ReachMore(limit, s2, Tick(1_000));
    var s3 := Apply(s2, limit, Tick(1_000));
    AdmittedMore(s3, limit, 0);
    ReachMore(limit, s3, Check);
    var s4 := Burst(limit, Apply(s3, limit, Check), limit - 1, 0);
    assert AdmittedIn(s4, 0) == 2 * limit - 1;
  }

  /** One request at 0, then 59 s of silence: nothing counted yet after 0. */
  lemma OpeningHit(limit: int) returns (s: State)
    requires limit > 0
    ensures Reachable(limit, s) && s.now == 59_000 && s.key == Cell(1, 60_000) && AdmittedIn(s, 0) == 0
  {
    var s0 := RunAll(limit, []);
    assert Reachable(limit, s0);
    ReachMore(limit, s0, Check);
    var s1 := Apply(s0, limit, Check);
    ReachMore(limit, s1, Tick(59_000));
    s := Apply(s1, limit, Tick(59_000));
    assert Entries(s.admitted) == [] + [Entry(0, 0)];
    CountInMore([], Entry(0, 0), 0, MINUTE);
  }
}
