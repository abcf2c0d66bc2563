/** Counting admitted requests in half-open intervals of time. */
module Counting {

  type Member = nat

  /** A request and the instant it is stamped with. */
  datatype Entry = Entry(member: Member, at: nat)

  /** How many entries lie in the half-open interval (x, y]. */
  function CountIn(es: seq<Entry>, x: int, y: int): nat {
    if es == [] then 0
    else CountIn(es[..|es| - 1], x, y) + (if x < es[|es| - 1].at <= y then 1 else 0)
  }

  /** How many lie after x. */
  function CountAbove(es: seq<Entry>, x: int): nat {
    if es == [] then 0
    else CountAbove(es[..|es| - 1], x) + (if x < es[|es| - 1].at then 1 else 0)
  }

  ghost predicate Distinct(es: seq<Entry>) {
    forall i, j :: 0 <= i < j < |es| ==> es[i].member != es[j].member
  }

  lemma DistinctMore(es: seq<Entry>, e: Entry)
    requires Distinct(es) && forall i :: 0 <= i < |es| ==> es[i].member != e.member
    ensures Distinct(es + [e])
  {
  }

  lemma CountInMore(es: seq<Entry>, e: Entry, x: int, y: int)
    ensures CountIn(es + [e], x, y) == CountIn(es, x, y) + (if x < e.at <= y then 1 else 0)
  {
    assert (es + [e])[..|es|] == es;
  }

  lemma CountAboveMore(es: seq<Entry>, e: Entry, x: int)
    ensures CountAbove(es + [e], x) == CountAbove(es, x) + (if x < e.at then 1 else 0)
  {
    assert (es + [e])[..|es|] == es;
  }

  /** A later interval below a bound counts no more than everything after an earlier x. */
  lemma {:induction false} CountInBelow(es: seq<Entry>, x: int, y: int, x': int)
    requires x' <= x
    ensures CountIn(es, x, y) <= CountAbove(es, x')
  {
    if es != [] {
      CountInBelow(es[..|es| - 1], x, y, x');
    }
  }

  lemma {:induction false} CountAboveBelow(es: seq<Entry>, x: int, x': int)
    requires x' <= x
    ensures CountAbove(es, x) <= CountAbove(es, x')
  {
    if es != [] {
      CountAboveBelow(es[..|es| - 1], x, x');
    }
  }

  lemma {:induction false} CountInWider(es: seq<Entry>, x: int, y: int, y': int)
    requires y <= y'
    ensures CountIn(es, x, y) <= CountIn(es, x, y')
  {
    if es != [] {
      CountInWider(es[..|es| - 1], x, y, y');
    }
  }

  lemma {:induction false} CountInIsAbove(es: seq<Entry>, x: int, y: int)
    requires forall i :: 0 <= i < |es| ==> es[i].at <= y
    ensures CountIn(es, x, y) == CountAbove(es, x)
  {
    if es != [] {
      CountInIsAbove(es[..|es| - 1], x, y);
    }
  }

  /** Distinct counted members fit into any set that holds them all ... */
  lemma {:induction false} CountFits(es: seq<Entry>, x: int, keys: set<Member>)
    requires Distinct(es)
    requires forall i :: 0 <= i < |es| && x < es[i].at ==> es[i].member in keys
    ensures CountAbove(es, x) <= |keys|
  {
    if es != [] {
      var init, last := es[..|es| - 1], es[|es| - 1];
      if x < last.at {
        CountFits(init, x, keys - {last.member});
      } else {
        CountFits(init, x, keys);
      }
    }
  }

  ghost predicate Counted(es: seq<Entry>, x: int, m: Member) {
    exists i :: 0 <= i < |es| && x < es[i].at && es[i].member == m
  }

  /** ... and a set of counted members is no larger than the count. */
  lemma {:induction false} CountCovers(es: seq<Entry>, x: int, keys: set<Member>)
    requires forall m :: m in keys ==> Counted(es, x, m)
    ensures |keys| <= CountAbove(es, x)
  {
    if es == [] {
      assert keys == {};
    } else {
      var init, last := es[..|es| - 1], es[|es| - 1];
      var rest := if x < last.at then keys - {last.member} else keys;
      forall m | m in rest ensures Counted(init, x, m) {
        var i :| 0 <= i < |es| && x < es[i].at && es[i].member == m;
        assert i < |init| && init[i] == es[i];
      }
      CountCovers(init, x, rest);
    }
  }

  lemma {:induction false} CountFrom(es: seq<Entry>, k: nat, x: int, y: int)
    requires k <= |es|
    requires forall i :: 0 <= i < k ==> !(x < es[i].at <= y)
    ensures CountIn(es, x, y) <= |es| - k
  {
    if es != [] {
      CountFrom(es[..|es| - 1], if k == |es| then k - 1 else k, x, y);
    }
  }
}
