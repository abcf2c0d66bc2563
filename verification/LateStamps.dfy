/** The sliding-window bound with late stamps is exact: an interval longer than the window
    less the skew can hold one request too many. */
module LateStamps {
  import opened Prelude
  import opened Counting
  import opened SlidingWindow

  ghost predicate Reaches(p: Params, skew: nat, s: State) {
    exists steps :: Run(START, p, skew, steps, s)
  }

  lemma {:induction false} RunMore(a: State, p: Params, skew: nat, steps: seq<Step>, b: State, st: Step)
    requires Run(a, p, skew, steps, b) && Enabled(b, skew, st)
    ensures Run(a, p, skew, steps + [st], Apply(b, p, st))
    decreases |steps|
  {
    if steps == [] {
      assert [] + [st] == [st] && [st][1..] == [];
      assert Run(Apply(b, p, st), p, skew, [], Apply(b, p, st));
    } else {
      RunMore(Apply(a, p, steps[0]), p, skew, steps[1..], b, st);
      assert (steps + [st])[1..] == steps[1..] + [st];
    }
  }

  lemma Go(p: Params, skew: nat, s: State, st: Step) returns (s': State)
    requires Reaches(p, skew, s) && Enabled(s, skew, st)
    ensures s' == Apply(s, p, st) && Reaches(p, skew, s')
  {
    var steps :| Run(START, p, skew, steps, s);
    RunMore(START, p, skew, steps, s, st);
    s' := Apply(s, p, st);
  }

  /** An arrival whose trimmed set is z: one stamp more, accepted or not by its size. */
  lemma Arrival(p: Params, skew: nat, s: State, m: Member, at: nat, z: Stamps) returns (s': State)
    requires Reaches(p, skew, s) && m !in s.drawn && at <= s.now <= at + skew
    requires Trimmed(Visible(s.zset, s.now), at - p.window) == z && m !in z
    ensures Reaches(p, skew, s') && s'.now == s.now && s'.drawn == s.drawn + {m}
    ensures s'.zset == Cell(z[m := at], s.now + 2 * p.window)
    ensures |z| < p.limit ==> s'.rejected == s.rejected && s'.accepted == s.accepted + [Entry(m, at)]
    ensures |z| >= p.limit ==> s'.rejected == s.rejected + {m} && s'.accepted == s.accepted
  {
    s' := Go(p, skew, s, Arrive(m, at));
    ArrivalEffect(p, s, m, at, z);
  }

  lemma ArrivalEffect(p: Params, s: State, m: Member, at: nat, z: Stamps)
    requires Trimmed(Visible(s.zset, s.now), at - p.window) == z && m !in z
    ensures var s' := Apply(s, p, Arrive(m, at));
            && s'.now == s.now && s'.drawn == s.drawn + {m} && s'.zset == Cell(z[m := at], s.now + 2 * p.window)
            && (|z| < p.limit ==> s'.rejected == s.rejected && s'.accepted == s.accepted + [Entry(m, at)])
            && (|z| >= p.limit ==> s'.rejected == s.rejected + {m} && s'.accepted == s.accepted)
  {
    SizeMore(z, m, at);
    assert Arrived(s.zset, p, s.now, m, at) == Cell(z[m := at], s.now + 2 * p.window);
  }

  lemma SizeMore(z: Stamps, m: Member, at: nat)
    requires m !in z
    ensures |z[m := at]| == |z| + 1
  {
    OneMore(z[m := at], m);
    assert z[m := at].Keys - {m} == z.Keys;
    assert |z| == |z.Keys|;
  }

  /** The first k requests at instant 0, all accepted; they count up to y. */
  ghost predicate Filled(s: State, p: Params, k: nat, y: int) {
    && s.now == 0 && s.rejected == {} && s.drawn == s.zset.value.Keys && |s.zset.value| == k
    && (forall m :: m in s.zset.value ==> m < k && s.zset.value[m] == 0)
    && (k > 0 ==> s.zset.deadline == 2 * p.window)
    && CountIn(s.accepted, -1, y) == k
  }

  lemma {:induction false} Fill(p: Params, skew: nat, k: nat, y: int) returns (s: State)
    requires k <= p.limit && y >= 0
    ensures Reaches(p, skew, s) && Filled(s, p, k, y)
    decreases k
  {
    if k == 0 {
      s := START;
      assert Run(START, p, skew, [], START);
    } else {
      var s0 := Fill(p, skew, k - 1, y);
      var z := s0.zset.value;
      assert k == 1 ==> z.Keys == {};
      assert Trimmed(Visible(s0.zset, 0), 0 - p.window) == z;
      s := Arrival(p, skew, s0, k - 1, 0, z);
      SizeMore(z, k - 1, 0);
      CountInMore(s0.accepted, Entry(k - 1, 0), -1, y);
    }
  }

  /** At instant 1, j more requests, all rejected and not yet removed. */
  ghost predicate Crowded(s: State, p: Params, j: nat, y: int) {
    && s.now == 1 && s.drawn == s.zset.value.Keys && |s.zset.value| == p.limit + j
    && s.rejected <= s.drawn && |s.rejected| == j
    && (forall m :: m in s.zset.value ==> m < p.limit + j && s.zset.value[m] == if m in s.rejected then 1 else 0)
    && s.zset.deadline >= 2 * p.window
    && CountIn(s.accepted, -1, y) == p.limit
  }

  lemma {:induction false} Crowd(p: Params, skew: nat, j: nat, y: int) returns (s: State)
    requires p.limit > 0 && p.window > 1 && y >= 0
    ensures Reaches(p, skew, s) && Crowded(s, p, j, y)
    decreases j
  {
    if j == 0 {
      var s0 := Fill(p, skew, p.limit, y);
      s := Go(p, skew, s0, Tick(1));
    } else {
      var s0 := Crowd(p, skew, j - 1, y);
      var z, m := s0.zset.value, p.limit + j - 1;
      assert Trimmed(Visible(s0.zset, 1), 1 - p.window) == z;
      s := Arrival(p, skew, s0, m, 1, z);
      SizeMore(z, m, 1);
    }
  }

  /** Only rejected requests are left in the set. */
  ghost predicate Draining(s: State, p: Params, y: int) {
    && s.now == p.window && s.zset.value.Keys == s.rejected
    && (forall m :: m in s.drawn ==> m <= 2 * p.limit)
    && CountIn(s.accepted, -1, y) == p.limit
  }

  /** A request stamped with the window trims the accepted ones, and is rejected for the
      sake of the rejected ones. */
  lemma Trims(p: Params, skew: nat, y: int) returns (s: State)
    requires p.limit > 0 && p.window > 1 && y >= 0
    ensures Reaches(p, skew, s) && Draining(s, p, y)
  {
    var s0 := Crowd(p, skew, p.limit, y);
    var s1 := Go(p, skew, s0, Tick(p.window - 1));
    var z := Trimmed(Visible(s1.zset, s1.now), 0);
    assert z.Keys == s0.rejected;
    assert |z| == |z.Keys|;
    s := Arrival(p, skew, s1, 2 * p.limit, p.window, z);
  }

  lemma {:induction false} Drain(p: Params, skew: nat, s: State, y: int) returns (s': State)
    requires Reaches(p, skew, s) && Draining(s, p, y)
    ensures Reaches(p, skew, s') && Draining(s', p, y) && s'.zset.value == map[]
    decreases |s.rejected|
  {
    if s.rejected == {} {
      s' := s;
    } else {
      var m :| m in s.rejected;
      var s1 := Go(p, skew, s, Remove(m));
      s' := Drain(p, skew, s1, y);
    }
  }

  /** Then the late stamp finds the set empty: for every limit, window and skew a run with
      limit + 1 accepted requests in an interval one longer than the window less the skew. */
  lemma LateStampFillsInterval(p: Params, skew: nat)
    requires p.limit > 0 && p.window > 1 && skew <= p.window
    ensures exists s :: Reaches(p, skew, s) && CountIn(s.accepted, -1, p.window - skew) == p.limit + 1
  {
    var y := p.window - skew;
    var s0 := Trims(p, skew, y);
    var s1 := Drain(p, skew, s0, y);
    assert Trimmed(Visible(s1.zset, s1.now), y - p.window) == map[];
    var s2 := Arrival(p, skew, s1, 2 * p.limit + 1, y, map[]);
    CountInMore(s1.accepted, Entry(2 * p.limit + 1, y), -1, y);
  }

  ghost predicate Within(es: seq<Entry>, x: int, length: nat, limit: int) {
    CountIn(es, x, x + length) <= limit
  }

  /** Every run keeps every half-open interval of this length within the limit. */
  ghost predicate Law(p: Params, skew: nat, length: nat) {
    forall s, x :: Reaches(p, skew, s) ==> Within(s.accepted, x, length, p.limit)
  }

  /** Exactly the intervals up to the window less the skew are safe (a window of a single
      microsecond aside). */
  lemma IntervalLawIff(p: Params, skew: nat, length: nat)
    requires p.limit > 0 && p.window > 1 && skew <= p.window
    ensures Law(p, skew, length) <==> length <= p.window - skew
  {
    if length <= p.window - skew {
      forall s, x | Reaches(p, skew, s) ensures Within(s.accepted, x, length, p.limit) {
        ShortIsWithin(p, skew, s, x, length);
      }
    } else {
      LateStampFillsInterval(p, skew);
      var s :| Reaches(p, skew, s) && CountIn(s.accepted, -1, p.window - skew) == p.limit + 1;
      CountInWider(s.accepted, -1, p.window - skew, -1 + length);
      assert !Within(s.accepted, -1, length, p.limit);
    }
  }

  lemma ShortIsWithin(p: Params, skew: nat, s: State, x: int, length: nat)
    requires p.limit > 0 && Reaches(p, skew, s) && length <= p.window - skew
    ensures Within(s.accepted, x, length, p.limit)
  {
    var steps :| Run(START, p, skew, steps, s);
    NeverMoreThanLimit(p, skew, steps, s, x);
    CountInWider(s.accepted, x, x + length, x + p.window - skew);
  }
}
