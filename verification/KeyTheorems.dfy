/** Signing keys: one active key at all times, and no access token outlives the
    publication of its key. */
module KeyTheorems {
  import opened Prelude
  import opened Scopes
  import opened RefreshStore
  import opened SigningKeys
  import opened World
  import opened Families

  /** A demoted key remembers when; a retired one was demoted more than the retire
      window ago, or was retired by hand. */
  ghost predicate KeyOk(now: nat, keys: Keys, emergency: set<KeyId>, k: KeyId)
    requires k in keys
  {
    && (keys[k].status != Active ==> keys[k].rotatedAt.Some? && keys[k].rotatedAt.value <= now)
    && (keys[k].status == Retired && k !in emergency ==> keys[k].rotatedAt.value + RETIRE_WINDOW < now)
  }

  /** A token was signed while its key was active, and lives at most an hour. */
  ghost predicate AccessOk(now: nat, keys: Keys, a: Access) {
    && a.signedAt <= now && a.iat == Sec(a.signedAt)
    && a.iat + 300 <= a.exp <= a.iat + MAX_ACCESS_TTL
    && a.kid in keys
    && (keys[a.kid].status != Active ==> keys[a.kid].rotatedAt.Some? && a.signedAt <= keys[a.kid].rotatedAt.value)
  }

  ghost predicate KeyInv(now: nat, keys: Keys, emergency: set<KeyId>, access: map<nat, Access>) {
    && ExactlyOneActive(keys)
    && (forall k :: k in keys ==> KeyOk(now, keys, emergency, k))
    && (forall k :: k in emergency ==> k in keys && keys[k].status == Retired)
    && (forall j :: j in access ==> AccessOk(now, keys, access[j]))
  }

  ghost predicate WorldKeyInv(w: World) {
    KeyInv(w.now, w.keys, w.emergency, w.access)
  }

  /** No row disappears and no status moves back. */
  ghost predicate KeysForward(keys: Keys, keys': Keys) {
    forall k :: k in keys ==> k in keys' && Forward(keys[k].status, keys'[k].status)
  }

  lemma RotateKeyKeeps(w: World, current: KeyId, newId: KeyId)
    requires WorldKeyInv(w) && newId !in w.keys && IsActive(w.keys, current)
    ensures KeyInv(w.now, RotatedKeys(w.keys, w.now, current, newId), w.emergency, w.access)
    ensures KeysForward(w.keys, RotatedKeys(w.keys, w.now, current, newId))
  {
    var keys' := RotatedKeys(w.keys, w.now, current, newId);
    assert IsActive(keys', newId);
    forall k | IsActive(keys', k) ensures k == newId {
      if k != newId { assert IsActive(w.keys, k); }
    }
    forall k | k in keys' ensures KeyOk(w.now, keys', w.emergency, k) {
      if k != newId { assert KeyOk(w.now, w.keys, w.emergency, k); }
    }
    forall j | j in w.access ensures AccessOk(w.now, keys', w.access[j]) {
      assert AccessOk(w.now, w.keys, w.access[j]);
    }
  }

  lemma SweepKeysKeeps(w: World)
    requires WorldKeyInv(w)
    ensures KeyInv(w.now, SweptKeys(w.keys, w.now), w.emergency, w.access)
    ensures KeysForward(w.keys, SweptKeys(w.keys, w.now))
  {
    var keys' := SweptKeys(w.keys, w.now);
    assert forall k :: IsActive(keys', k) <==> IsActive(w.keys, k);
    forall k | k in keys' ensures KeyOk(w.now, keys', w.emergency, k) {
      assert KeyOk(w.now, w.keys, w.emergency, k);
    }
    forall j | j in w.access ensures AccessOk(w.now, keys', w.access[j]) {
      assert AccessOk(w.now, w.keys, w.access[j]);
    }
  }

  lemma EmergencyKeeps(w: World, k: KeyId)
    requires WorldKeyInv(w)
    ensures WorldKeyInv(EmergencyRetire(w, k)) && KeysForward(w.keys, EmergencyRetire(w, k).keys)
  {
    var w' := EmergencyRetire(w, k);
    assert forall x :: IsActive(w'.keys, x) <==> IsActive(w.keys, x);
    forall x | x in w'.keys ensures KeyOk(w'.now, w'.keys, w'.emergency, x) {
      assert KeyOk(w.now, w.keys, w.emergency, x);
    }
    forall j | j in w.access ensures AccessOk(w.now, w'.keys, w.access[j]) {
      assert AccessOk(w.now, w.keys, w.access[j]);
    }
  }

  lemma TickKeepsKeys(now: nat, later: nat, keys: Keys, emergency: set<KeyId>, access: map<nat, Access>)
    requires KeyInv(now, keys, emergency, access) && now <= later
    ensures KeyInv(later, keys, emergency, access)
  {
    forall k | k in keys ensures KeyOk(later, keys, emergency, k) {
      assert KeyOk(now, keys, emergency, k);
    }
    forall j | j in access ensures AccessOk(later, keys, access[j]) {
      assert AccessOk(now, keys, access[j]);
    }
  }

  lemma SignKeeps(w: World, j: nat, user: UserId, client: ClientId, scopes: seq<Scope>, kid: KeyId, code: nat)
    requires WorldKeyInv(w) && SettingsOk(w.dir) && IsActive(w.keys, kid)
    ensures KeyInv(w.now, w.keys, w.emergency, w.access[j := SignAccess(w, user, client, scopes, kid, code)])
  {
  }

  /** The token endpoint signs with an active key, and touches no key. */
  lemma TokenEndpointKeeps(w: World, s: Step)
    requires WorldKeyInv(w) && SettingsOk(w.dir) && Enabled(w, s) && (s.DoExchange? || s.DoRefresh?)
    ensures WorldKeyInv(Apply(w, s)) && Apply(w, s).keys == w.keys
  {
    if s.DoExchange? {
      var r, d := s.xreq, s.draw;
      ExchangeCases(w, r, d);
      if Exchange(w, r, d).0.Granted? {
        var row := w.grants.codes[r.code];
        var scopes := Narrow(row.scopes, w.dir.clients[r.client].scopes).value;
        SignKeeps(w, d.jti, row.user, row.client, scopes, d.kid.value, r.code);
      }
    } else {
      var r, d := s.rreq, s.draw;
      RefreshCases(w, r, d);
      if Refresh(w, r, d).0.Granted? {
        var p := Presented(w, r.token);
        SignKeeps(w, d.jti, p.user, p.client, Narrow(p.scopes, w.dir.clients[r.client].scopes).value, d.kid.value,
                  CodeOf(w.grants.famLog, p.family));
      }
    }
  }

  predicate KeyStep(s: Step) {
    s.DoBootstrap? || s.DoRotateKey? || s.DoSweepKeys? || s.DoEmergencyRetire?
  }

  lemma OtherStepsKeep(w: World, s: Step)
    requires !KeyStep(s) && !s.DoExchange? && !s.DoRefresh?
    ensures Apply(w, s).keys == w.keys && Apply(w, s).emergency == w.emergency && Apply(w, s).access == w.access
    ensures w.now <= Apply(w, s).now
  {
  }

  lemma KeyStepKeeps(w: World, s: Step)
    requires WorldKeyInv(w) && Enabled(w, s) && KeyStep(s)
    ensures WorldKeyInv(Apply(w, s)) && KeysForward(w.keys, Apply(w, s).keys)
  {
    match s
    case DoBootstrap(answer, k) =>
    case DoRotateKey(answer, k) => if answer.Some? { RotateKeyKeeps(w, answer.value, k); }
    case DoSweepKeys => SweepKeysKeeps(w);
    case DoEmergencyRetire(k) => EmergencyKeeps(w, k);
  }

  lemma StepKeepsKeys(w: World, s: Step)
    requires WorldKeyInv(w) && SettingsOk(w.dir) && Enabled(w, s)
    ensures WorldKeyInv(Apply(w, s)) && KeysForward(w.keys, Apply(w, s).keys)
    ensures SettingsOk(Apply(w, s).dir)
  {
    if KeyStep(s) {
      KeyStepKeeps(w, s);
    } else if s.DoExchange? || s.DoRefresh? {
      TokenEndpointKeeps(w, s);
    } else {
      OtherStepsKeep(w, s);
      TickKeepsKeys(w.now, Apply(w, s).now, w.keys, w.emergency, w.access);
    }
    StepKeepsSettings(w, s);
  }

  lemma StepKeepsSettings(w: World, s: Step)
    requires SettingsOk(w.dir)
    ensures SettingsOk(Apply(w, s).dir)
  {
    if s.DoExchange? {
      ExchangeCases(w, s.xreq, s.draw);
    } else if s.DoRefresh? {
      RefreshCases(w, s.rreq, s.draw);
    }
  }

  lemma {:induction false} RunKeepsKeys(a: World, steps: seq<Step>, b: World)
    requires WorldKeyInv(a) && SettingsOk(a.dir) && Run(a, steps, b)
    ensures WorldKeyInv(b) && SettingsOk(b.dir) && KeysForward(a.keys, b.keys)
    decreases |steps|
  {
    if steps != [] {
      StepKeepsKeys(a, steps[0]);
      RunKeepsKeys(Apply(a, steps[0]), steps[1..], b);
    }
  }

  lemma InitialKeyInv(a: World)
    requires Initial(a)
    ensures WorldKeyInv(a) && SettingsOk(a.dir)
  {
    var k: KeyId :| a.keys == map[k := KeyRow(Active, None)];
    assert IsActive(a.keys, k);
  }

  lemma ReachableKeyInv(a: World, steps: seq<Step>, w: World)
    requires Initial(a) && Run(a, steps, w)
    ensures WorldKeyInv(w) && SettingsOk(w.dir)
  {
    InitialKeyInv(a);
    RunKeepsKeys(a, steps, w);
  }

  /** Every run keeps exactly one active key, and statuses only move
      active → retiring → retired. */
  lemma OneActiveKeyAlways(a: World, before: seq<Step>, w: World, after: seq<Step>, w': World)
    requires Initial(a) && Run(a, before, w) && Run(w, after, w')
    ensures ExactlyOneActive(w'.keys)
    ensures KeysForward(w.keys, w'.keys)
  {
    ReachableKeyInv(a, before, w);
    RunKeepsKeys(w, after, w');
  }

  /** An access token inside exp + 30 s has its kid published, unless that very key was
      retired by hand; and a key retired by hand is published no more. */
  lemma KidIsPublished(a: World, steps: seq<Step>, w: World, j: nat)
    requires Initial(a) && Run(a, steps, w) && j in w.access
    requires w.now / 1000 <= w.access[j].exp + 30
    ensures Publishable(w.keys, w.access[j].kid) <==> w.access[j].kid !in w.emergency
  {
    ReachableKeyInv(a, steps, w);
    assert AccessOk(w.now, w.keys, w.access[j]);
    assert KeyOk(w.now, w.keys, w.emergency, w.access[j].kid);
  }
}
