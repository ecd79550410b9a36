/** Sums over finite sets of keys, as the SUM queries of the repositories compute them. */
module Sums {
  ghost function SumOver<K(!new)>(keys: set<K>, f: K -> int): int {
    if keys == {} then 0
    else var k :| k in keys; f(k) + SumOver(keys - {k}, f)
  }

  lemma {:induction false} SumRemove<K(!new)>(keys: set<K>, k: K, f: K -> int)
    requires k in keys
    ensures SumOver(keys, f) == f(k) + SumOver(keys - {k}, f)
  {
    var j :| j in keys && SumOver(keys, f) == f(j) + SumOver(keys - {j}, f);
    if j != k {
      SumRemove(keys - {j}, k, f);
      SumRemove(keys - {k}, j, f);
      assert keys - {j} - {k} == keys - {k} - {j};
    }
  }

  lemma {:induction false} SumSame<K(!new)>(keys: set<K>, f: K -> int, g: K -> int)
    requires forall k :: k in keys ==> f(k) == g(k)
    ensures SumOver(keys, f) == SumOver(keys, g)
  {
    if keys != {} {
      var k :| k in keys;
      SumRemove(keys, k, f);
      SumRemove(keys, k, g);
      SumSame(keys - {k}, f, g);
    }
  }

  lemma {:induction false} SumSplit<K(!new)>(part: set<K>, rest: set<K>, f: K -> int)
    requires part !! rest
    ensures SumOver(part + rest, f) == SumOver(part, f) + SumOver(rest, f)
  {
    if part == {} {
      assert part + rest == rest;
    } else {
      var k :| k in part;
      SumRemove(part, k, f);
      SumRemove(part + rest, k, f);
      assert part + rest - {k} == (part - {k}) + rest;
      SumSplit(part - {k}, rest, f);
    }
  }

  lemma {:induction false} SumNonNegative<K(!new)>(keys: set<K>, f: K -> int)
    requires forall k :: k in keys ==> f(k) >= 0
    ensures SumOver(keys, f) >= 0
  {
    if keys != {} {
      var k :| k in keys;
      SumRemove(keys, k, f);
      SumNonNegative(keys - {k}, f);
    }
  }

  lemma SumPart<K(!new)>(part: set<K>, whole: set<K>, f: K -> int)
    requires part <= whole && forall k :: k in whole ==> f(k) >= 0
    ensures SumOver(part, f) <= SumOver(whole, f)
  {
    assert whole == part + (whole - part);
    SumSplit(part, whole - part, f);
    SumNonNegative(whole - part, f);
  }

  lemma {:induction false} SumZero<K(!new)>(keys: set<K>, f: K -> int)
    requires forall k :: k in keys ==> f(k) == 0
    ensures SumOver(keys, f) == 0
  {
    if keys != {} {
      var k :| k in keys;
      SumRemove(keys, k, f);
      SumZero(keys - {k}, f);
    }
  }

  lemma {:induction false} SumBound<K(!new)>(keys: set<K>, f: K -> int, g: K -> int, h: K -> int)
    requires forall k :: k in keys ==> f(k) <= g(k) + h(k)
    ensures SumOver(keys, f) <= SumOver(keys, g) + SumOver(keys, h)
  {
    if keys != {} {
      var k :| k in keys;
      SumRemove(keys, k, f);
      SumRemove(keys, k, g);
      SumRemove(keys, k, h);
      SumBound(keys - {k}, f, g, h);
    }
  }

  method Total<K(!new)>(keys: set<K>, f: K -> int) returns (total: int)
    ensures total == SumOver(keys, f)
  {
    total := 0;
    var rest := keys;
    while rest != {}
      invariant total + SumOver(rest, f) == SumOver(keys, f)
      decreases rest
    {
      var k :| k in rest;
      SumRemove(rest, k, f);
      total := total + f(k);
      rest := rest - {k};
    }
  }
}
