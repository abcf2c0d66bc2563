/** Key availability while rotations interleave: rotated_at is the start of the rotating
    transaction, the old key goes on signing until its commit, and a request signs some
    time after it has read the key. */
module KeyAvailability {
  import opened Prelude
  import opened SigningKeys
  import Rotation = KeyRotation
  import World

  datatype ReadKey = ReadKey(kid: KeyId, readAt: nat)

  /** An access token: the key, when it was read, when it signed, and `exp`. */
  datatype Token = Token(kid: KeyId, readAt: nat, signedAt: nat, exp: nat)

  datatype State = State(
    rot: Rotation.State, emergency: set<KeyId>, held: map<nat, ReadKey>, tokens: map<nat, Token>)

  datatype Step =
    | Rotating(st: Rotation.Step)
    | GetKey(j: nat, k: KeyId)
    | Sign(j: nat, ttl: nat)

  /** How long rotations take from start to commit, and requests from read to signature. */
  datatype Delays = Delays(commit: nat, sign: nat)

  /** What the retire window leaves over after the longest access TTL and the skew. */
  const SLACK: nat := RETIRE_WINDOW - (World.MAX_ACCESS_TTL + World.CLOCK_SKEW + 1) * 1000 + 1

  predicate Enabled(s: State, d: Delays, st: Step) {
    match st
    case Rotating(r) =>
      && Rotation.Enabled(s.rot, r)
      && (r.Commit? ==> s.rot.now <= s.rot.txs[r.t].startedAt + d.commit)
    case GetKey(j, k) => j !in s.held && IsActive(s.rot.keys, k)
    case Sign(j, ttl) =>
      j in s.held && j !in s.tokens && s.rot.now <= s.held[j].readAt + d.sign && ttl <= World.MAX_ACCESS_TTL
  }

  function Apply(s: State, d: Delays, st: Step): State
    requires Enabled(s, d, st)
  {
    match st
    case Rotating(r) =>
      s.(rot := Rotation.Apply(s.rot, r),
         emergency :=
           if r.Emergency? && EmergencyOutcome(s.rot.keys, r.k) == Done then s.emergency + {r.k} else s.emergency)
    case GetKey(j, k) => s.(held := s.held[j := ReadKey(k, s.rot.now)])
    case Sign(j, ttl) =>
      s.(tokens := s.tokens[j := Token(s.held[j].kid, s.held[j].readAt, s.rot.now, Sec(s.rot.now) + ttl)])
  }

  ghost predicate Run(a: State, d: Delays, steps: seq<Step>, b: State)
    decreases |steps|
  {
    if steps == [] then a == b
    else Enabled(a, d, steps[0]) && Run(Apply(a, d, steps[0]), d, steps[1..], b)
  }

  function FirstBoot(k: KeyId): State {
    State(Rotation.FirstBoot(k), {}, map[], map[])
  }

  // ----- the invariant -----

  /** A demoted key remembers when its rotation started; a retired one was demoted more
      than the retire window ago, or was retired by hand. */
  ghost predicate KeyOk(now: nat, keys: Keys, emergency: set<KeyId>, k: KeyId)
    requires k in keys
  {
    && (keys[k].status != Active ==> keys[k].rotatedAt.Some?)
    && (keys[k].status == Retired ==> k in emergency || keys[k].rotatedAt.value + RETIRE_WINDOW < now)
    && (k in emergency ==> keys[k].status == Retired)
  }

  /** A key that was read is known, and was read before the commit that demoted it. */
  ghost predicate ReadOk(now: nat, keys: Keys, d: Delays, kid: KeyId, readAt: nat) {
    && kid in keys && readAt <= now
    && (keys[kid].status != Active && keys[kid].rotatedAt.Some? ==> readAt <= keys[kid].rotatedAt.value + d.commit)
  }

  ghost predicate TokenOk(s: State, d: Delays, t: Token) {
    && ReadOk(s.rot.now, s.rot.keys, d, t.kid, t.readAt)
    && t.signedAt <= t.readAt + d.sign && t.exp <= Sec(t.signedAt) + World.MAX_ACCESS_TTL
  }

  ghost predicate Inv(s: State, d: Delays) {
    && Rotation.Inv(s.rot)
    && s.emergency <= s.rot.keys.Keys
    && (forall k :: k in s.rot.keys ==> KeyOk(s.rot.now, s.rot.keys, s.emergency, k))
    && (forall j :: j in s.held ==> ReadOk(s.rot.now, s.rot.keys, d, s.held[j].kid, s.held[j].readAt))
    && (forall j :: j in s.tokens ==> TokenOk(s, d, s.tokens[j]))
  }

  /** What a step of the rotations does to one key, in the eyes of those who read it. */
  ghost predicate Moves(now: nat, keys: Keys, now': nat, keys': Keys, d: Delays, k: KeyId)
    requires k in keys
  {
    && now <= now' && k in keys'
    && (|| keys'[k] == keys[k]
        || (keys[k].status == Retiring && keys'[k] == keys[k].(status := Retired))
        || (keys[k].status == Active && keys'[k].status == Retiring && keys'[k].rotatedAt.Some?
            && now <= keys'[k].rotatedAt.value + d.commit))
  }

  lemma RotationMoves(s: State, d: Delays, r: Rotation.Step, k: KeyId)
    requires Rotation.Inv(s.rot) && Enabled(s, d, Rotating(r)) && k in s.rot.keys
    ensures Moves(s.rot.now, s.rot.keys, Rotation.Apply(s.rot, r).now, Rotation.Apply(s.rot, r).keys, d, k)
  {
    if r.Commit? {
      assert Rotation.TxOk(s.rot, r.t);
    }
  }

  lemma MovesKeepRead(now: nat, keys: Keys, now': nat, keys': Keys, d: Delays, kid: KeyId, readAt: nat)
    requires ReadOk(now, keys, d, kid, readAt) && Moves(now, keys, now', keys', d, kid)
    ensures ReadOk(now', keys', d, kid, readAt)
  {
  }

  lemma RotationKeepsKey(s: State, d: Delays, r: Rotation.Step, k: KeyId)
    requires Inv(s, d) && Enabled(s, d, Rotating(r)) && k in Apply(s, d, Rotating(r)).rot.keys
    ensures var s' := Apply(s, d, Rotating(r));
            KeyOk(s'.rot.now, s'.rot.keys, s'.emergency, k)
  {
    if r.Commit? {
      assert Rotation.TxOk(s.rot, r.t);
    }
    if k in s.rot.keys {
      assert KeyOk(s.rot.now, s.rot.keys, s.emergency, k);
    }
  }

  lemma RotationKeeps(s: State, d: Delays, r: Rotation.Step)
    requires Inv(s, d) && Enabled(s, d, Rotating(r))
    ensures Inv(Apply(s, d, Rotating(r)), d)
  {
    var s' := Apply(s, d, Rotating(r));
    Rotation.StepKeeps(s.rot, r);
    forall k | k in s.rot.keys
      ensures Moves(s.rot.now, s.rot.keys, s'.rot.now, s'.rot.keys, d, k)
    {
      RotationMoves(s, d, r, k);
    }
    forall k | k in s'.rot.keys ensures KeyOk(s'.rot.now, s'.rot.keys, s'.emergency, k) {
      RotationKeepsKey(s, d, r, k);
    }
    forall j | j in s.held ensures ReadOk(s'.rot.now, s'.rot.keys, d, s.held[j].kid, s.held[j].readAt) {
      MovesKeepRead(s.rot.now, s.rot.keys, s'.rot.now, s'.rot.keys, d, s.held[j].kid, s.held[j].readAt);
    }
    forall j | j in s.tokens ensures TokenOk(s', d, s.tokens[j]) {
      assert TokenOk(s, d, s.tokens[j]);
      MovesKeepRead(s.rot.now, s.rot.keys, s'.rot.now, s'.rot.keys, d, s.tokens[j].kid, s.tokens[j].readAt);
    }
  }

  lemma RequestKeeps(s: State, d: Delays, st: Step)
    requires Inv(s, d) && Enabled(s, d, st) && !st.Rotating?
    ensures Inv(Apply(s, d, st), d)
  {
    var s' := Apply(s, d, st);
    assert s'.rot == s.rot && s'.emergency == s.emergency;
    forall j | j in s'.tokens ensures TokenOk(s', d, s'.tokens[j]) {
      if j in s.tokens && s'.tokens[j] == s.tokens[j] {
        assert TokenOk(s, d, s.tokens[j]);
      } else {
        assert ReadOk(s.rot.now, s.rot.keys, d, s.held[j].kid, s.held[j].readAt);
      }
    }
  }

  lemma {:induction false} RunKeeps(a: State, d: Delays, steps: seq<Step>, b: State)
    requires Inv(a, d) && Run(a, d, steps, b)
    ensures Inv(b, d)
    decreases |steps|
  {
    if steps != [] {
      if steps[0].Rotating? {
        RotationKeeps(a, d, steps[0].st);
      } else {
        RequestKeeps(a, d, steps[0]);
      }
      RunKeeps(Apply(a, d, steps[0]), d, steps[1..], b);
    }
  }

  /** Over every interleaving of rotations, sweeps and signing requests whose delays fit
      into the slack (over 23 hours together), an access token inside exp + 30 s has its
      kid published iff that key was not retired by hand. */
  lemma KidIsPublished(k: KeyId, d: Delays, steps: seq<Step>, s: State, j: nat)
    requires Run(FirstBoot(k), d, steps, s) && d.commit + d.sign <= SLACK
    requires j in s.tokens && Sec(s.rot.now) <= s.tokens[j].exp + World.CLOCK_SKEW
    ensures Publishable(s.rot.keys, s.tokens[j].kid) <==> s.tokens[j].kid !in s.emergency
  {
    var a := FirstBoot(k);
    assert Rotation.ActiveSet(a.rot.keys) == {k};
    RunKeeps(a, d, steps, s);
    var t := s.tokens[j];
    assert TokenOk(s, d, t) && KeyOk(s.rot.now, s.rot.keys, s.emergency, t.kid);
  }

  // ----- the slack is exact -----

  ghost predicate Reaches(a: State, d: Delays, s: State) {
    exists steps :: Run(a, d, steps, s)
  }

  lemma {:induction false} RunMore(a: State, d: Delays, steps: seq<Step>, s: State, st: Step)
    requires Run(a, d, steps, s) && Enabled(s, d, st)
    ensures Run(a, d, steps + [st], Apply(s, d, st))
    decreases |steps|
  {
    if steps == [] {
      assert [st][1..] == [] && [] + [st] == [st];
      assert Run(Apply(s, d, st), d, [], Apply(s, d, st));
    } else {
      RunMore(Apply(a, d, steps[0]), d, steps[1..], s, st);
      assert (steps + [st])[1..] == steps[1..] + [st];
    }
  }

  lemma Go(a: State, d: Delays, s: State, st: Step) returns (s': State)
    requires Reaches(a, d, s) && Enabled(s, d, st)
    ensures s' == Apply(s, d, st) && Reaches(a, d, s')
  {
    var steps :| Run(a, d, steps, s);
    RunMore(a, d, steps, s, st);
    s' := Apply(s, d, st);
  }

  lemma Wait(a: State, d: Delays, s: State, dt: nat) returns (s': State)
    requires Reaches(a, d, s)
    ensures Reaches(a, d, s') && s' == s.(rot := s.rot.(now := s.rot.now + dt))
  {
    s' := Go(a, d, s, Rotating(Rotation.Tick(dt)));
  }

  /** A rotation that starts at 998 ms reads the key. */
  lemma RotationStarts(a: State, d: Delays, k: KeyId) returns (s: State)
    requires a == FirstBoot(k)
    ensures Reaches(a, d, s)
    ensures s == a.(rot := a.rot.(now := 998, txs := map[1 := Rotation.Tx(998, Rotation.HasRead(k))]))
  {
    assert Run(a, d, [], a);
    var s1 := Wait(a, d, a, 998);
    var s2 := Go(a, d, s1, Rotating(Rotation.Begin(1)));
    s := Go(a, d, s2, Rotating(Rotation.Read(1, k)));
  }

  /** It commits `commit` later, just after a request has read the old key. */
  lemma RotationEnds(a: State, d: Delays, s: State, k: KeyId, x: KeyId, commit: nat) returns (s': State)
    requires Reaches(a, d, s) && commit <= d.commit && x != k
    requires var rot := Rotation.FirstBoot(k);
             s == FirstBoot(k).(rot := rot.(now := 998, txs := map[1 := Rotation.Tx(998, Rotation.HasRead(k))]))
    ensures Reaches(a, d, s') && s'.rot.now == 998 + commit && s'.emergency == {} && s'.tokens == map[]
    ensures s'.rot.keys == map[k := KeyRow(Retiring, Some(998)), x := KeyRow(Active, None)]
    ensures s'.held == map[0 := ReadKey(k, 998 + commit)]
  {
    var s1 := Wait(a, d, s, commit);
    var s2 := Go(a, d, s1, GetKey(0, k));
    var s3 := Marks(a, d, s2, k);
    s' := Commits(a, d, s3, k, x);
  }

  /** The guarded UPDATE finds its row. */
  lemma Marks(a: State, d: Delays, s: State, k: KeyId) returns (s': State)
    requires Reaches(a, d, s) && IsActive(s.rot.keys, k) && k !in s.rot.locks
    requires s.rot.txs == map[1 := Rotation.Tx(998, Rotation.HasRead(k))]
    ensures Reaches(a, d, s') && s' == s.(rot := s'.rot)
    ensures s'.rot.now == s.rot.now && s'.rot.keys == s.rot.keys && s'.rot.drawn == s.rot.drawn
    ensures s'.rot.txs == map[1 := Rotation.Tx(998, Rotation.HasMarked(k, true))]
  {
    s' := Go(a, d, s, Rotating(Rotation.Mark(1)));
  }

  lemma Commits(a: State, d: Delays, s: State, k: KeyId, x: KeyId) returns (s': State)
    requires Reaches(a, d, s) && k in s.rot.keys && x !in s.rot.drawn && s.rot.now <= 998 + d.commit
    requires s.rot.txs == map[1 := Rotation.Tx(998, Rotation.HasMarked(k, true))]
    ensures Reaches(a, d, s') && s' == s.(rot := s'.rot) && s'.rot.now == s.rot.now
    ensures s'.rot.keys == s.rot.keys[k := KeyRow(Retiring, Some(998))][x := KeyRow(Active, None)]
  {
    var s1 := Go(a, d, s, Rotating(Rotation.Insert(1, x)));
    s' := Go(a, d, s1, Rotating(Rotation.Commit(1)));
  }

  /** The request signs `sign` later, and the sweep comes when the window has passed. */
  lemma SignsThenSwept(a: State, d: Delays, s: State, k: KeyId, x: KeyId, commit: nat, sign: nat) returns (s': State)
    requires Reaches(a, d, s) && sign <= d.sign && commit + sign == SLACK + 1 && x != k
    requires s.rot.now == 998 + commit && s.emergency == {} && s.tokens == map[]
    requires s.held == map[0 := ReadKey(k, 998 + commit)]
    requires s.rot.keys == map[k := KeyRow(Retiring, Some(998)), x := KeyRow(Active, None)]
    ensures Reaches(a, d, s') && Lost(s', 0)
  {
    var s1 := Signs(a, d, s, k, commit, sign);
    s' := Sweeps(a, d, s1, k);
  }

  lemma Signs(a: State, d: Delays, s: State, k: KeyId, commit: nat, sign: nat) returns (s': State)
    requires Reaches(a, d, s) && sign <= d.sign
    requires s.rot.now == 998 + commit && s.tokens == map[] && s.held == map[0 := ReadKey(k, 998 + commit)]
    ensures Reaches(a, d, s') && s'.rot.now == 998 + commit + sign
    ensures s'.rot.keys == s.rot.keys && s'.emergency == s.emergency
    ensures s'.tokens == map[0 := Token(k, 998 + commit, s'.rot.now, Sec(s'.rot.now) + World.MAX_ACCESS_TTL)]
  {
    var s1 := Wait(a, d, s, sign);
    s' := Go(a, d, s1, Sign(0, World.MAX_ACCESS_TTL));
  }

  lemma Sweeps(a: State, d: Delays, s: State, k: KeyId) returns (s': State)
    requires Reaches(a, d, s) && s.rot.now <= 998 + RETIRE_WINDOW && s.emergency == {}
    requires k in s.rot.keys && s.rot.keys[k] == KeyRow(Retiring, Some(998))
    requires 0 in s.tokens && s.tokens[0].kid == k
    requires Sec(998 + RETIRE_WINDOW + 1) <= s.tokens[0].exp + World.CLOCK_SKEW
    ensures Reaches(a, d, s') && Lost(s', 0)
  {
    var s1 := Wait(a, d, s, 998 + RETIRE_WINDOW + 1 - s.rot.now);
    s' := Go(a, d, s1, Rotating(Rotation.Sweep));
  }

  /** A token inside exp + 30 s whose key is no longer published, though nobody retired it
      by hand. */
  ghost predicate Lost(s: State, j: nat) {
    && j in s.tokens && Sec(s.rot.now) <= s.tokens[j].exp + World.CLOCK_SKEW
    && !Publishable(s.rot.keys, s.tokens[j].kid) && s.tokens[j].kid !in s.emergency
  }

  /** One millisecond beyond the slack a token can lose its key: so no run loses one if
      and only if the two delays together fit into the slack. */
  lemma SlackIsExact(k: KeyId, d: Delays)
    ensures d.commit + d.sign <= SLACK <==> forall s, j :: Reaches(FirstBoot(k), d, s) ==> !Lost(s, j)
  {
    var a := FirstBoot(k);
    if d.commit + d.sign <= SLACK {
      forall s, j | Reaches(a, d, s) ensures !Lost(s, j) {
        var steps :| Run(a, d, steps, s);
        if j in s.tokens && Sec(s.rot.now) <= s.tokens[j].exp + World.CLOCK_SKEW {
          KidIsPublished(k, d, steps, s, j);
        }
      }
    } else {
      var commit := if d.commit <= SLACK + 1 then d.commit else SLACK + 1;
      var s1 := RotationStarts(a, d, k);
      var s2 := RotationEnds(a, d, s1, k, k + 1, commit);
      var s3 := SignsThenSwept(a, d, s2, k, k + 1, commit, SLACK + 1 - commit);
      assert Lost(s3, 0);
    }
  }
}
