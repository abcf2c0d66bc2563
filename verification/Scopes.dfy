/** Scope lists and the intersection that both grants re-run at /token. */
module Scopes {
  import opened Prelude

  type Scope = string

  const OPENID: Scope := "openid"
  const OFFLINE_ACCESS: Scope := "offline_access"

  /** The granted scopes the client still allows, in granted order. */
  function Keep(granted: seq<Scope>, allowed: set<Scope>): seq<Scope> {
    if granted == [] then []
    else if granted[0] in allowed then [granted[0]] + Keep(granted[1..], allowed)
    else Keep(granted[1..], allowed)
  }

  function Elements(s: seq<Scope>): set<Scope> {
    set x | x in s
  }

  /** What `intersectScopesAgainstClient` computes: None is the invalid_scope error. */
  function Narrow(granted: seq<Scope>, allowed: seq<Scope>): Option<seq<Scope>> {
    var kept := Keep(granted, Elements(allowed));
    if kept == [] then None else Some(kept)
  }

  /** `a` arises from `b` by striking out elements. */
  predicate Subsequence(a: seq<Scope>, b: seq<Scope>) {
    if a == [] then true
    else if b == [] then false
    else if a[0] == b[0] && Subsequence(a[1..], b[1..]) then true
    else Subsequence(a, b[1..])
  }

  lemma {:induction false} SubsequenceReflexive(a: seq<Scope>)
    ensures Subsequence(a, a)
  {
    if a != [] {
      SubsequenceReflexive(a[1..]);
    }
  }

  lemma {:induction false} SubsequenceTransitive(a: seq<Scope>, b: seq<Scope>, c: seq<Scope>)
    requires Subsequence(a, b) && Subsequence(b, c)
    ensures Subsequence(a, c)
    decreases |b| + |c|
  {
    if a == [] {
    } else if b[0] == c[0] && Subsequence(b[1..], c[1..]) {
      if a[0] == b[0] && Subsequence(a[1..], b[1..]) {
        SubsequenceTransitive(a[1..], b[1..], c[1..]);
      } else {
        SubsequenceTransitive(a, b[1..], c[1..]);
      }
    } else {
      SubsequenceTransitive(a, b, c[1..]);
    }
  }

  lemma {:induction false} KeepElements(granted: seq<Scope>, allowed: set<Scope>)
    ensures forall x :: x in Keep(granted, allowed) <==> x in granted && x in allowed
  {
    if granted != [] {
      KeepElements(granted[1..], allowed);
      assert granted == [granted[0]] + granted[1..];
    }
  }

  lemma {:induction false} KeepIsSubsequence(granted: seq<Scope>, allowed: set<Scope>)
    ensures Subsequence(Keep(granted, allowed), granted)
  {
    if granted != [] {
      KeepIsSubsequence(granted[1..], allowed);
      var k := Keep(granted[1..], allowed);
      if granted[0] in allowed {
        assert ([granted[0]] + k)[1..] == k;
      }
    }
  }

  /** Keep leaves no allowed scope behind, duplicates included: any subsequence of
      the grant made of allowed scopes is a subsequence of what Keep returns. */
  lemma {:induction false} KeepIsLargest(s: seq<Scope>, granted: seq<Scope>, allowed: set<Scope>)
    requires Subsequence(s, granted)
    requires forall x :: x in s ==> x in allowed
    ensures Subsequence(s, Keep(granted, allowed))
    decreases |granted|
  {
    if s != [] {
      var k := Keep(granted[1..], allowed);
      if s[0] == granted[0] && Subsequence(s[1..], granted[1..]) {
        KeepIsLargest(s[1..], granted[1..], allowed);
        assert granted[0] in allowed;
        assert ([granted[0]] + k)[1..] == k;
      } else {
        KeepIsLargest(s, granted[1..], allowed);
        if granted[0] in allowed {
          assert ([granted[0]] + k)[1..] == k;
        }
      }
    }
  }

  /** The narrowed scopes are the largest subsequence of the grant inside the
      client's allowed scopes; the error means there is nothing to keep. */
  lemma NarrowExact(granted: seq<Scope>, allowed: seq<Scope>)
    ensures Narrow(granted, allowed).None? <==> forall x :: x in granted ==> x !in allowed
    ensures Narrow(granted, allowed).Some? ==>
              var out := Narrow(granted, allowed).value;
              && out != []
              && Subsequence(out, granted)
              && (forall x :: x in out ==> x in allowed)
              && (forall s :: Subsequence(s, granted) && (forall x :: x in s ==> x in allowed) ==> Subsequence(s, out))
  {
    var a := Elements(allowed);
    KeepElements(granted, a);
    KeepIsSubsequence(granted, a);
    var kept := Keep(granted, a);
    if kept != [] {
      assert kept[0] in kept;
    }
    assert forall x :: x in granted && x in a ==> x in kept;
    forall s | Subsequence(s, granted) && (forall x :: x in s ==> x in allowed) ensures Subsequence(s, kept) {
      KeepIsLargest(s, granted, a);
    }
  }

  // ----- order: the grant's, and when it is also the client's -----

  ghost predicate NoDuplicates(s: seq<Scope>) {
    forall i, j :: 0 <= i < j < |s| ==> s[i] != s[j]
  }

  /** Where x stands in s. */
  function Position(s: seq<Scope>, x: Scope): nat
    requires x in s
  {
    if s[0] == x then 0 else 1 + Position(s[1..], x)
  }

  ghost predicate Before(s: seq<Scope>, x: Scope, y: Scope) {
    x in s && y in s && Position(s, x) < Position(s, y)
  }

  ghost predicate Increasing(k: seq<Scope>, s: seq<Scope>) {
    && (forall x :: x in k ==> x in s)
    && (forall i, j :: 0 <= i < j < |k| ==> Before(s, k[i], k[j]))
  }

  /** Any two granted scopes that the client allows stand in the client's order. */
  ghost predicate InClientOrder(granted: seq<Scope>, allowed: seq<Scope>) {
    forall i, j :: 0 <= i < j < |granted| && granted[i] in allowed && granted[j] in allowed ==>
                     Before(allowed, granted[i], granted[j])
  }

  lemma IncreasingCons(x: Scope, k: seq<Scope>, s: seq<Scope>)
    ensures Increasing([x] + k, s) <==> x in s && Increasing(k, s) && forall y :: y in k ==> Before(s, x, y)
  {
    var xk := [x] + k;
    if Increasing(xk, s) {
      forall i, j | 0 <= i < j < |k| ensures Before(s, k[i], k[j]) {
        assert Before(s, xk[i + 1], xk[j + 1]);
      }
      forall y | y in k ensures Before(s, x, y) {
        var j :| 0 <= j < |k| && k[j] == y;
        assert Before(s, xk[0], xk[j + 1]);
      }
    }
  }

  /** Dropping a head that no element of k equals shifts every position. */
  lemma IncreasingTail(k: seq<Scope>, s: seq<Scope>)
    requires s != [] && s[0] !in k
    ensures Increasing(k, s) <==> Increasing(k, s[1..])
  {
    assert forall x :: x in k ==> (x in s <==> x in s[1..]);
    forall i, j | 0 <= i < j < |k| ensures Before(s, k[i], k[j]) <==> Before(s[1..], k[i], k[j]) {
    }
  }

  lemma {:induction false} SubsequenceElements(a: seq<Scope>, b: seq<Scope>)
    requires Subsequence(a, b)
    ensures forall x :: x in a ==> x in b
    decreases |b|
  {
    if a != [] {
      assert a == [a[0]] + a[1..] && b == [b[0]] + b[1..];
      if a[0] == b[0] && Subsequence(a[1..], b[1..]) {
        SubsequenceElements(a[1..], b[1..]);
      } else {
        SubsequenceElements(a, b[1..]);
      }
    }
  }

  lemma {:induction false} SubsequenceIffIncreasing(k: seq<Scope>, s: seq<Scope>)
    requires NoDuplicates(s)
    ensures Subsequence(k, s) <==> Increasing(k, s)
    decreases |s|
  {
    if k == [] || s == [] {
      assert k != [] ==> k[0] in k;
    } else if k[0] == s[0] {
      SubsequenceHead(k, s);
      SubsequenceIffIncreasing(k[1..], s[1..]);
      assert k == [s[0]] + k[1..];
      IncreasingCons(s[0], k[1..], s);
      if s[0] !in k[1..] {
        IncreasingTail(k[1..], s);
      }
      assert s[0] !in s[1..];
    } else {
      SubsequenceIffIncreasing(k, s[1..]);
      assert k == [k[0]] + k[1..];
      IncreasingCons(k[0], k[1..], s);
      IncreasingCons(k[0], k[1..], s[1..]);
      if s[0] !in k {
        IncreasingTail(k, s);
      }
      assert s[0] !in s[1..];
    }
  }

  /** A head that does not come again can only be matched at once. */
  lemma SubsequenceHead(k: seq<Scope>, s: seq<Scope>)
    requires k != [] && s != [] && k[0] == s[0] && NoDuplicates(s)
    ensures Subsequence(k, s) <==> Subsequence(k[1..], s[1..])
  {
    assert k[0] in k && s[0] !in s[1..];
    if Subsequence(k, s[1..]) {
      SubsequenceElements(k, s[1..]);
    }
  }

  lemma {:induction false} KeepIncreasingIff(granted: seq<Scope>, allowed: seq<Scope>)
    ensures Increasing(Keep(granted, Elements(allowed)), allowed) <==> InClientOrder(granted, allowed)
  {
    if granted != [] {
      var x, rest := granted[0], granted[1..];
      KeepIncreasingIff(rest, allowed);
      KeepElements(rest, Elements(allowed));
      InClientOrderCons(granted, allowed);
      if x in allowed {
        IncreasingCons(x, Keep(rest, Elements(allowed)), allowed);
      }
    }
  }

  lemma InClientOrderCons(granted: seq<Scope>, allowed: seq<Scope>)
    requires granted != []
    ensures InClientOrder(granted, allowed) <==>
              && InClientOrder(granted[1..], allowed)
              && (granted[0] in allowed ==>
                    forall y :: y in granted[1..] && y in allowed ==> Before(allowed, granted[0], y))
  {
    var rest := granted[1..];
    if InClientOrder(granted, allowed) {
      forall i, j | 0 <= i < j < |rest| && rest[i] in allowed && rest[j] in allowed
        ensures Before(allowed, rest[i], rest[j])
      {
        assert Before(allowed, granted[i + 1], granted[j + 1]);
      }
      forall y | granted[0] in allowed && y in rest && y in allowed ensures Before(allowed, granted[0], y) {
        var j :| 0 <= j < |rest| && rest[j] == y;
        assert Before(allowed, granted[0], granted[j + 1]);
      }
    }
  }

  /** The narrowed scopes follow the grant's order; they are also a subsequence of the
      client's list exactly when the granted scopes the client allows stand in the
      client's order. A client's list has no duplicates (ValidateScopes). */
  lemma OrderFollowsClientIff(granted: seq<Scope>, allowed: seq<Scope>)
    requires NoDuplicates(allowed) && Narrow(granted, allowed).Some?
    ensures Subsequence(Narrow(granted, allowed).value, allowed) <==> InClientOrder(granted, allowed)
  {
    SubsequenceIffIncreasing(Narrow(granted, allowed).value, allowed);
    KeepIncreasingIff(granted, allowed);
  }

  /** A grant in the other order keeps it. */
  lemma OrderFollowsGrant()
    ensures Narrow(["b", "a"], ["a", "b"]) == Some(["b", "a"])
    ensures !Subsequence(["b", "a"], ["a", "b"])
  {
    assert ["b", "a"][1..] == ["a"];
    assert ["a", "b"][1..] == ["b"];
    assert ["a"][1..] == [] && ["b"][1..] == [];
    assert Elements(["a", "b"]) == {"a", "b"};
    assert Keep(["a"], {"a", "b"}) == ["a"];
    assert Keep(["b", "a"], {"a", "b"}) == ["b", "a"];
    assert !Subsequence(["a"], []);
    assert !Subsequence(["b", "a"], ["b"]);
  }

  /** ValidateScopes, run on every list a client is created or patched with. */
  method ValidateScopes(list: seq<Scope>, known: set<Scope>) returns (ok: bool)
    ensures ok <==> NoDuplicates(list) && forall x :: x in list ==> x != "" && x in known
  {
    var seen := {};
    for i := 0 to |list|
      invariant seen == Elements(list[..i])
      invariant NoDuplicates(list[..i]) && forall x :: x in list[..i] ==> x != "" && x in known
    {
      assert list[i] in list;
      assert list[..i + 1] == list[..i] + [list[i]];
      if list[i] == "" || list[i] !in known {
        return false;
      }
      if list[i] in seen {
        var k :| 0 <= k < i && list[..i][k] == list[i];
        assert list[k] == list[i];
        return false;
      }
      seen := seen + {list[i]};
    }
    assert list[..|list|] == list;
    return true;
  }

  lemma KeepAppend(granted: seq<Scope>, x: Scope, allowed: set<Scope>)
    ensures Keep(granted + [x], allowed) == Keep(granted, allowed) + (if x in allowed then [x] else [])
  {
    if granted == [] {
      assert [] + [x] == [x];
    } else {
      assert (granted + [x])[1..] == granted[1..] + [x];
      KeepAppend(granted[1..], x, allowed);
    }
  }

  /** `intersectScopesAgainstClient`: fill the allowed set, then filter the grant. */
  method IntersectScopesAgainstClient(granted: seq<Scope>, allowed: seq<Scope>) returns (out: Option<seq<Scope>>)
    ensures out == Narrow(granted, allowed)
  {
    var allowedSet := {};
    for i := 0 to |allowed|
      invariant allowedSet == Elements(allowed[..i])
    {
      assert allowed[..i + 1] == allowed[..i] + [allowed[i]];
      allowedSet := allowedSet + {allowed[i]};
    }
    assert allowed[..|allowed|] == allowed;
    var kept := [];
    for i := 0 to |granted|
      invariant kept == Keep(granted[..i], allowedSet)
    {
      assert granted[..i + 1] == granted[..i] + [granted[i]];
      KeepAppend(granted[..i], granted[i], allowedSet);
      if granted[i] in allowedSet {
        kept := kept + [granted[i]];
      }
    }
    assert granted[..|granted|] == granted;
    if kept == [] {
      return None;
    }
    return Some(kept);
  }
}
