/** The sliding-window limiter (internal/middleware/ratelimit.go): a sorted set of
    request stamps per key. A request draws its stamp, trims the set, adds itself,
    counts, and takes itself out again, later, if it was over the limit. Time is in
    microseconds. */
module SlidingWindow {
  import opened Prelude
  import opened Counting

  type Window = w: nat | w > 0 witness 1
  type Stamps = map<Member, nat>

  datatype Params = Params(limit: int, window: Window)

  /** ZREMRANGEBYSCORE -inf cutoff. */
  function Trimmed(z: Stamps, cutoff: int): Stamps {
    map m | m in z && z[m] > cutoff :: z[m]
  }

  /** The set as Valkey shows it: a lapsed key is empty. */
  function Visible(z: Cell<Stamps>, now: nat): Stamps {
    if Live(z, now) then z.value else map[]
  }

  /** The pipeline, run at `now` for a request stamped `at`: trim, add, (count), expire
      after two windows. */
  function Arrived(z: Cell<Stamps>, p: Params, now: nat, m: Member, at: nat): Cell<Stamps> {
    Cell(Trimmed(Visible(z, now), at - p.window)[m := at], now + 2 * p.window)
  }

  /** ZREM. */
  function Removed(z: Cell<Stamps>, m: Member): Cell<Stamps> {
    z.(value := z.value - {m})
  }

  class RateLimiter {
    const params: Params
    var zset: Cell<Stamps>

    constructor (params: Params)
      ensures this.params == params && zset == Cell(map[], 0)
    {
      this.params := params;
      zset := Cell(map[], 0);
    }

    /** `allow`, run without interference: stamped `at`, executed at `now`. */
    method Allow(at: nat, now: nat, m: Member) returns (ok: bool)
      modifies this
      ensures ok <==> |Arrived(old(zset), params, now, m, at).value| <= params.limit
      ensures zset == if ok then Arrived(old(zset), params, now, m, at)
                      else Removed(Arrived(old(zset), params, now, m, at), m)
    {
      var windowStart := at - params.window;
      var z := if now < zset.deadline then zset.value else map[];
      z := Trimmed(z, windowStart);
      z := z[m := at];
      var count := |z|;
      zset := Cell(z, now + params.window * 2);
      if count > params.limit {
        zset := Cell(zset.value - {m}, zset.deadline);
        return false;
      }
      return true;
    }
  }

  // ----- the machine: stamps may be up to `skew` old when they reach Valkey, and the
  // ZREM of a rejected request may come at any time, or never -----

  datatype State = State(
    now: nat, zset: Cell<Stamps>, drawn: set<Member>, rejected: set<Member>, accepted: seq<Entry>)

  datatype Step = Tick(dt: nat) | Arrive(m: Member, at: nat) | Remove(m: Member)

  function Apply(s: State, p: Params, st: Step): State {
    match st
    case Tick(dt) => s.(now := s.now + dt)
    case Arrive(m, at) =>
      var z := Arrived(s.zset, p, s.now, m, at);
      var s' := s.(zset := z, drawn := s.drawn + {m});
      if |z.value| <= p.limit then s'.(accepted := s.accepted + [Entry(m, at)])
      else s'.(rejected := s.rejected + {m})
    case Remove(m) => s.(zset := Removed(s.zset, m), rejected := s.rejected - {m})
  }

  /** Members are unique; only a rejected request removes itself. */
  predicate Enabled(s: State, skew: nat, st: Step) {
    match st
    case Tick(_) => true
    case Arrive(m, at) => m !in s.drawn && at <= s.now <= at + skew
    case Remove(m) => m in s.rejected
  }

  const START := State(0, Cell(map[], 0), {}, {}, [])

  ghost predicate Run(a: State, p: Params, skew: nat, steps: seq<Step>, b: State)
    decreases |steps|
  {
    if steps == [] then a == b
    else Enabled(a, skew, steps[0]) && Run(Apply(a, p, steps[0]), p, skew, steps[1..], b)
  }

  /** Whenever a request is accepted, at most `limit` accepted ones, itself included, are
      stamped less than a window (minus the skew) before it. */
  ghost predicate Bounded(es: seq<Entry>, p: Params, skew: nat) {
    es == [] ||
    (&& Bounded(es[..|es| - 1], p, skew)
     && CountAbove(es, es[|es| - 1].at + skew - p.window) <= p.limit)
  }

  lemma {:induction false} BoundedEveryInterval(es: seq<Entry>, p: Params, skew: nat, x: int)
    requires Bounded(es, p, skew)
    ensures CountIn(es, x, x + p.window - skew) <= if p.limit >= 0 then p.limit else 0
  {
    if es != [] {
      var last := es[|es| - 1];
      if x < last.at <= x + p.window - skew {
        CountInBelow(es, x, x + p.window - skew, last.at + skew - p.window);
      } else {
        BoundedEveryInterval(es[..|es| - 1], p, skew, x);
      }
    }
  }

  // ----- the invariant -----

  ghost predicate StampOk(s: State, p: Params, m: Member)
    requires m in s.zset.value
  {
    m in s.drawn && s.zset.value[m] <= s.now && s.zset.value[m] + 2 * p.window <= s.zset.deadline
  }

  ghost predicate AcceptedOk(s: State, p: Params, e: Entry) {
    && e.at <= s.now && e.member in s.drawn && e.member !in s.rejected
    && (e.at > s.now - p.window ==> e.member in s.zset.value && s.zset.value[e.member] == e.at)
  }

  /** Accepted entries of the current window are in the set; the set's stamps are at
      least two windows short of the key's deadline. */
  ghost predicate Inv(s: State, p: Params, skew: nat) {
    && Distinct(s.accepted) && Bounded(s.accepted, p, skew)
    && s.rejected <= s.drawn
    && (forall i :: 0 <= i < |s.accepted| ==> AcceptedOk(s, p, s.accepted[i]))
    && (forall m :: m in s.zset.value ==> StampOk(s, p, m))
  }

  lemma ArrivalKeepsStamp(s: State, p: Params, m: Member, at: nat, e: Entry)
    requires m !in s.drawn && at <= s.now && AcceptedOk(s, p, e) && e.at > s.now - p.window
    requires forall k :: k in s.zset.value ==> StampOk(s, p, k)
    ensures var z := Arrived(s.zset, p, s.now, m, at).value;
            e.member in z && z[e.member] == e.at && e.member != m
  {
    assert StampOk(s, p, e.member);
  }

  lemma OneMore(z: Stamps, m: Member)
    requires m in z
    ensures |z| == |z.Keys - {m}| + 1
  {
    assert |z| == |z.Keys|;
  }

  /** What the pipeline counts covers the accepted requests of the window. */
  lemma ArrivalSeesWindow(s: State, p: Params, skew: nat, m: Member, at: nat)
    requires Inv(s, p, skew) && m !in s.drawn && at <= s.now
    ensures |Arrived(s.zset, p, s.now, m, at).value| >= CountAbove(s.accepted, s.now - p.window) + 1
  {
    var z := Arrived(s.zset, p, s.now, m, at).value;
    forall i | 0 <= i < |s.accepted| && s.now - p.window < s.accepted[i].at
      ensures s.accepted[i].member in z.Keys - {m}
    {
      ArrivalKeepsStamp(s, p, m, at, s.accepted[i]);
    }
    CountFits(s.accepted, s.now - p.window, z.Keys - {m});
    OneMore(z, m);
  }

  lemma AcceptStaysBounded(s: State, p: Params, skew: nat, m: Member, at: nat)
    requires Inv(s, p, skew) && m !in s.drawn && at <= s.now <= at + skew
    requires |Arrived(s.zset, p, s.now, m, at).value| <= p.limit
    ensures Bounded(s.accepted + [Entry(m, at)], p, skew)
  {
    ArrivalSeesWindow(s, p, skew, m, at);
    CountAboveBelow(s.accepted, at + skew - p.window, s.now - p.window);
    CountAboveMore(s.accepted, Entry(m, at), at + skew - p.window);
    assert (s.accepted + [Entry(m, at)])[..|s.accepted|] == s.accepted;
  }

  lemma ArriveKeepsEntries(s: State, p: Params, m: Member, at: nat, e: Entry)
    requires m !in s.drawn && at <= s.now && AcceptedOk(s, p, e)
    requires forall k :: k in s.zset.value ==> StampOk(s, p, k)
    ensures AcceptedOk(Apply(s, p, Arrive(m, at)), p, e) && e.member != m && e.at <= s.now
  {
    if e.at > s.now - p.window {
      ArrivalKeepsStamp(s, p, m, at, e);
    }
  }

  lemma ArriveKeepsStamps(s: State, p: Params, m: Member, at: nat, k: Member)
    requires m !in s.drawn && at <= s.now
    requires forall k :: k in s.zset.value ==> StampOk(s, p, k)
    requires k in Apply(s, p, Arrive(m, at)).zset.value
    ensures StampOk(Apply(s, p, Arrive(m, at)), p, k)
  {
    assert k != m ==> StampOk(s, p, k);
  }

  /** Neither entries nor stamps are disturbed by an arrival. */
  lemma ArriveKeepsAll(s: State, p: Params, skew: nat, m: Member, at: nat)
    requires Inv(s, p, skew) && m !in s.drawn && at <= s.now
    ensures var s' := Apply(s, p, Arrive(m, at));
            && (forall i :: 0 <= i < |s.accepted| ==> AcceptedOk(s', p, s.accepted[i]) && s.accepted[i].member != m)
            && (forall k :: k in s'.zset.value ==> StampOk(s', p, k))
  {
    var s' := Apply(s, p, Arrive(m, at));
    forall i | 0 <= i < |s.accepted| ensures AcceptedOk(s', p, s.accepted[i]) && s.accepted[i].member != m {
      ArriveKeepsEntries(s, p, m, at, s.accepted[i]);
    }
    forall k | k in s'.zset.value ensures StampOk(s', p, k) {
      ArriveKeepsStamps(s, p, m, at, k);
    }
  }

  lemma AcceptKeeps(s: State, p: Params, skew: nat, m: Member, at: nat)
    requires Inv(s, p, skew) && m !in s.drawn && at <= s.now <= at + skew
    requires |Arrived(s.zset, p, s.now, m, at).value| <= p.limit
    ensures Inv(Apply(s, p, Arrive(m, at)), p, skew)
  {
    var s', e := Apply(s, p, Arrive(m, at)), Entry(m, at);
    ArriveKeepsAll(s, p, skew, m, at);
    AcceptStaysBounded(s, p, skew, m, at);
    DistinctMore(s.accepted, e);
    assert s'.accepted == s.accepted + [e] && AcceptedOk(s', p, e);
    forall i | 0 <= i < |s'.accepted| ensures AcceptedOk(s', p, s'.accepted[i]) {
      if i < |s.accepted| {
        assert s'.accepted[i] == s.accepted[i];
      }
    }
  }

  lemma ArriveKeeps(s: State, p: Params, skew: nat, m: Member, at: nat)
    requires Inv(s, p, skew) && m !in s.drawn && at <= s.now <= at + skew
    ensures Inv(Apply(s, p, Arrive(m, at)), p, skew)
  {
    if |Arrived(s.zset, p, s.now, m, at).value| <= p.limit {
      AcceptKeeps(s, p, skew, m, at);
    } else {
      ArriveKeepsAll(s, p, skew, m, at);
      assert Apply(s, p, Arrive(m, at)).accepted == s.accepted;
    }
  }

  lemma QuietKeeps(s: State, p: Params, skew: nat, st: Step)
    requires Inv(s, p, skew) && Enabled(s, skew, st) && !st.Arrive?
    ensures Inv(Apply(s, p, st), p, skew)
  {
    var s' := Apply(s, p, st);
    forall i | 0 <= i < |s'.accepted| ensures AcceptedOk(s', p, s'.accepted[i]) {
      assert AcceptedOk(s, p, s.accepted[i]);
    }
    forall k | k in s'.zset.value ensures StampOk(s', p, k) {
      assert StampOk(s, p, k);
    }
  }

  lemma {:induction false} RunKeeps(a: State, p: Params, skew: nat, steps: seq<Step>, b: State)
    requires Inv(a, p, skew) && Run(a, p, skew, steps, b)
    ensures Inv(b, p, skew)
    decreases |steps|
  {
    if steps != [] {
      if steps[0].Arrive? {
        ArriveKeeps(a, p, skew, steps[0].m, steps[0].at);
      } else {
        QuietKeeps(a, p, skew, steps[0]);
      }
      RunKeeps(Apply(a, p, steps[0]), p, skew, steps[1..], b);
    }
  }

  // ----- main results -----

  /** However long the removals are delayed, and in whatever order stamps up to `skew` old
      arrive: no half-open interval of one window less the skew holds more than `limit`
      accepted requests. With stamps in order (skew 0) that is the whole window. */
  lemma NeverMoreThanLimit(p: Params, skew: nat, steps: seq<Step>, s: State, x: int)
    requires Run(START, p, skew, steps, s)
    ensures CountIn(s.accepted, x, x + p.window - skew) <= if p.limit >= 0 then p.limit else 0
  {
    RunKeeps(START, p, skew, steps, s);
    BoundedEveryInterval(s.accepted, p, skew, x);
  }

  /** The key's expiry never drops a stamp that is still in the window. */
  lemma ExpiryDropsNothing(p: Params, skew: nat, steps: seq<Step>, s: State, m: Member)
    requires Run(START, p, skew, steps, s)
    requires m in s.zset.value && s.zset.value[m] > s.now - p.window
    ensures m in Visible(s.zset, s.now)
  {
    RunKeeps(START, p, skew, steps, s);
    assert StampOk(s, p, m);
  }

  // ----- serial runs refine the history specification -----

  datatype Op = Wait(dt: nat) | Request(m: Member)

  /** One undisturbed call: stamped as it runs, and a rejected request removes itself at
      once. */
  function Serve(s: State, p: Params, op: Op): State {
    match op
    case Wait(dt) => Apply(s, p, Tick(dt))
    case Request(m) =>
      var s' := Apply(s, p, Arrive(m, s.now));
      if m in s'.rejected then Apply(s', p, Remove(m)) else s'
  }

  ghost predicate Serial(a: State, p: Params, ops: seq<Op>, b: State)
    decreases |ops|
  {
    if ops == [] then a == b
    else (ops[0].Request? ==> ops[0].m !in a.drawn) && Serial(Serve(a, p, ops[0]), p, ops[1..], b)
  }

  function After(now: nat, op: Op): nat {
    if op.Wait? then now + op.dt else now
  }

  /** The specification: accept iff fewer than `limit` were accepted in (now - window, now]. */
  function Decided(es: seq<Entry>, now: nat, p: Params, op: Op): seq<Entry> {
    if op.Request? && CountIn(es, now - p.window, now) < p.limit then es + [Entry(op.m, now)] else es
  }

  function History(es: seq<Entry>, now: nat, p: Params, ops: seq<Op>): seq<Entry>
    decreases |ops|
  {
    if ops == [] then es
    else History(Decided(es, now, p, ops[0]), After(now, ops[0]), p, ops[1..])
  }

  ghost predicate WasAccepted(s: State, m: Member)
    requires m in s.zset.value
  {
    exists i :: 0 <= i < |s.accepted| && s.accepted[i] == Entry(m, s.zset.value[m])
  }

  /** Between undisturbed calls the set holds accepted requests only. */
  ghost predicate SerialInv(s: State, p: Params) {
    Inv(s, p, 0) && s.rejected == {} && forall m :: m in s.zset.value ==> WasAccepted(s, m)
  }

  lemma SerialAtMost(s: State, p: Params, m: Member, keys: set<Member>)
    requires SerialInv(s, p) && keys == Arrived(s.zset, p, s.now, m, s.now).value.Keys - {m}
    ensures |keys| <= CountAbove(s.accepted, s.now - p.window)
  {
    forall x | x in keys ensures Counted(s.accepted, s.now - p.window, x) {
      assert WasAccepted(s, x);
    }
    CountCovers(s.accepted, s.now - p.window, keys);
  }

  lemma SerialAbove(s: State, p: Params, m: Member)
    requires SerialInv(s, p) && m !in s.drawn
    ensures |Arrived(s.zset, p, s.now, m, s.now).value| == CountAbove(s.accepted, s.now - p.window) + 1
  {
    ArrivalSeesWindow(s, p, 0, m, s.now);
    var z := Arrived(s.zset, p, s.now, m, s.now).value;
    SerialAtMost(s, p, m, z.Keys - {m});
    OneMore(z, m);
  }

  lemma SerialCount(s: State, p: Params, m: Member)
    requires SerialInv(s, p) && m !in s.drawn
    ensures |Arrived(s.zset, p, s.now, m, s.now).value| == CountIn(s.accepted, s.now - p.window, s.now) + 1
  {
    SerialAbove(s, p, m);
    assert forall i :: 0 <= i < |s.accepted| ==> AcceptedOk(s, p, s.accepted[i]);
    CountInIsAbove(s.accepted, s.now - p.window, s.now);
  }

  /** What a call does when the count is within the limit ... */
  lemma ServeAccepts(s: State, p: Params, m: Member)
    requires s.rejected == {} && |Arrived(s.zset, p, s.now, m, s.now).value| <= p.limit
    ensures Serve(s, p, Request(m)).accepted == s.accepted + [Entry(m, s.now)]
    ensures Serve(s, p, Request(m)).now == s.now
  {
  }

  /** ... and when it is not. */
  lemma ServeRejects(s: State, p: Params, m: Member)
    requires |Arrived(s.zset, p, s.now, m, s.now).value| > p.limit
    ensures Serve(s, p, Request(m)).accepted == s.accepted && Serve(s, p, Request(m)).now == s.now
  {
  }

  lemma ServeDecides(s: State, p: Params, op: Op)
    requires op.Request? ==>
               |Arrived(s.zset, p, s.now, op.m, s.now).value| == CountIn(s.accepted, s.now - p.window, s.now) + 1
    requires s.rejected == {}
    ensures Serve(s, p, op).accepted == Decided(s.accepted, s.now, p, op)
    ensures Serve(s, p, op).now == After(s.now, op)
  {
    if op.Request? {
      if CountIn(s.accepted, s.now - p.window, s.now) < p.limit {
        ServeAccepts(s, p, op.m);
      } else {
        ServeRejects(s, p, op.m);
      }
    }
  }

  lemma ServeKeepsInv(s: State, p: Params, op: Op)
    requires Inv(s, p, 0) && s.rejected == {} && (op.Request? ==> op.m !in s.drawn)
    ensures Inv(Serve(s, p, op), p, 0) && Serve(s, p, op).rejected == {}
  {
    if op.Request? {
      ArriveKeeps(s, p, 0, op.m, s.now);
      var s1 := Apply(s, p, Arrive(op.m, s.now));
      if op.m in s1.rejected {
        QuietKeeps(s1, p, 0, Remove(op.m));
      }
    } else {
      QuietKeeps(s, p, 0, Tick(op.dt));
    }
  }

  lemma ServeKeepsAccepted(s: State, p: Params, op: Op, k: Member)
    requires forall m :: m in s.zset.value ==> WasAccepted(s, m)
    requires s.rejected == {} && k in Serve(s, p, op).zset.value
    ensures WasAccepted(Serve(s, p, op), k)
  {
    var s2 := Serve(s, p, op);
    if op.Request? && k == op.m {
      assert s2.accepted[|s2.accepted| - 1] == Entry(op.m, s.now);
    } else {
      assert WasAccepted(s, k);
      var i :| 0 <= i < |s.accepted| && s.accepted[i] == Entry(k, s.zset.value[k]);
      assert s2.accepted[i] == s.accepted[i];
    }
  }

  lemma ServeKeeps(s: State, p: Params, op: Op)
    requires SerialInv(s, p) && (op.Request? ==> op.m !in s.drawn)
    ensures SerialInv(Serve(s, p, op), p)
  {
    ServeKeepsInv(s, p, op);
    forall k | k in Serve(s, p, op).zset.value ensures WasAccepted(Serve(s, p, op), k) {
      ServeKeepsAccepted(s, p, op, k);
    }
  }

  lemma {:induction false} SerialRefines(a: State, p: Params, ops: seq<Op>, b: State)
    requires SerialInv(a, p) && Serial(a, p, ops, b)
    ensures b.accepted == History(a.accepted, a.now, p, ops)
    decreases |ops|
  {
    if ops != [] {
      ServeKeeps(a, p, ops[0]);
      if ops[0].Request? {
        SerialCount(a, p, ops[0].m);
      }
      ServeDecides(a, p, ops[0]);
      SerialRefines(Serve(a, p, ops[0]), p, ops[1..], b);
    }
  }

  /** Run serially, the limiter accepts exactly what the history specification accepts. */
  lemma SerialIsExact(p: Params, ops: seq<Op>, s: State)
    requires Serial(START, p, ops, s)
    ensures s.accepted == History([], 0, p, ops)
  {
    SerialRefines(START, p, ops, s);
  }
}
