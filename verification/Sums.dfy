/** Finite sums over the keys of a storage map, and how one update changes them. */
module Sums {

  ghost function Sum<K(!new)>(keys: set<K>, f: K -> int): int
    decreases |keys|
  {
    if keys == {} then 0
    else
      var k :| k in keys;
      f(k) + Sum(keys - {k}, f)
  }

  /** Which key is taken out first makes no difference. */
  lemma {:induction false} SumPick<K(!new)>(keys: set<K>, f: K -> int, k: K)
    requires k in keys
    ensures Sum(keys, f) == f(k) + Sum(keys - {k}, f)
    decreases |keys|
  {
    var first :| first in keys && Sum(keys, f) == f(first) + Sum(keys - {first}, f);
    if first != k {
      SumPick(keys - {first}, f, k);
      SumPick(keys - {k}, f, first);
      assert keys - {first} - {k} == keys - {k} - {first};
    }
  }

  lemma {:induction false} SumAgree<K(!new)>(keys: set<K>, f: K -> int, g: K -> int)
    requires forall k | k in keys :: f(k) == g(k)
    ensures Sum(keys, f) == Sum(keys, g)
    decreases |keys|
  {
    if keys != {} {
      var k :| k in keys;
      SumPick(keys, f, k);
      SumPick(keys, g, k);
      SumAgree(keys - {k}, f, g);
    }
  }

  /** Storing a new value under one key moves the sum by the difference of the two values. */
  lemma SumUpdate<K(!new)>(keys: set<K>, f: K -> int, g: K -> int, k: K)
    requires forall j | j in keys && j != k :: f(j) == g(j)
    requires k !in keys ==> f(k) == 0
    ensures Sum(keys + {k}, g) == Sum(keys, f) - f(k) + g(k)
  {
    SumPick(keys + {k}, g, k);
    assert keys + {k} - {k} == keys - {k};
    if k in keys {
      SumPick(keys, f, k);
    }
    SumAgree(keys - {k}, f, g);
  }

  /** If g = f + c * h pointwise then the sums are related the same way. */
  lemma {:induction false} SumLinear<K(!new)>(keys: set<K>, f: K -> int, c: int, h: K -> int, g: K -> int)
    requires forall k | k in keys :: g(k) == f(k) + c * h(k)
    ensures Sum(keys, g) == Sum(keys, f) + c * Sum(keys, h)
    decreases |keys|
  {
    if keys != {} {
      var k :| k in keys;
      SumPick(keys, f, k);
      SumPick(keys, g, k);
      SumPick(keys, h, k);
      SumLinear(keys - {k}, f, c, h, g);
      assert c * (h(k) + Sum(keys - {k}, h)) == c * h(k) + c * Sum(keys - {k}, h);
    }
  }

  lemma {:induction false} SumAtMost<K(!new)>(keys: set<K>, f: K -> int, hi: nat)
    requires forall k | k in keys :: f(k) <= hi
    ensures Sum(keys, f) <= |keys| * hi
    decreases |keys|
  {
    if keys != {} {
      var k :| k in keys;
      SumPick(keys, f, k);
      SumAtMost(keys - {k}, f, hi);
      Successor(|keys - {k}|, hi);
    }
  }

  lemma Successor(n: nat, x: int)
    ensures (n + 1) * x == n * x + x
  {
  }

  lemma {:induction false} SumNonNegative<K(!new)>(keys: set<K>, f: K -> int)
    requires forall k | k in keys :: f(k) >= 0
    ensures Sum(keys, f) >= 0
    ensures forall k | k in keys :: f(k) <= Sum(keys, f)
    decreases |keys|
  {
    forall k | k in keys
      ensures 0 <= f(k) <= Sum(keys, f)
    {
      SumPick(keys, f, k);
      SumNonNegative(keys - {k}, f);
    }
  }

  lemma {:induction false} SumMonotone<K(!new)>(keys: set<K>, f: K -> int, g: K -> int)
    requires forall k | k in keys :: f(k) <= g(k)
    ensures Sum(keys, f) <= Sum(keys, g)
    decreases |keys|
  {
    if keys != {} {
      var k :| k in keys;
      SumPick(keys, f, k);
      SumPick(keys, g, k);
      SumMonotone(keys - {k}, f, g);
    }
  }

  /** Keys where f vanishes do not matter: a sum over any keys is at most the sum over all the
      keys where it does not. */
  lemma {:induction false} SumWithin<K(!new)>(keys: set<K>, all: set<K>, f: K -> int)
    requires forall k :: f(k) >= 0 && (k !in all ==> f(k) == 0)
    ensures Sum(keys, f) <= Sum(all, f)
    decreases |keys|
  {
    if keys == {} {
      SumNonNegative(all, f);
    } else {
      var k :| k in keys;
      SumPick(keys, f, k);
      if k in all {
        SumPick(all, f, k);
        var g := j => if j == k then 0 else f(j);
        SumAgree(keys - {k}, f, g);
        SumAgree(all - {k}, f, g);
        SumWithin(keys - {k}, all - {k}, g);
      } else {
        SumWithin(keys - {k}, all, f);
      }
    }
  }

  lemma SumOfThree<K(!new)>(f: K -> int, a: K, b: K, c: K)
    requires a != b && b != c && a != c
    ensures Sum({a, b, c}, f) == f(a) + f(b) + f(c)
  {
    SumPick({a, b, c}, f, a);
    assert {a, b, c} - {a} == {b, c};
    SumPick({b, c}, f, b);
    assert {b, c} - {b} == {c};
    SumPick({c}, f, c);
  }
}
