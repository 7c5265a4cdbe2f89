/** Sums of a weight over a multiset. */
module Sums {

  ghost function Total<T(!new)>(w: T -> nat, pool: multiset<T>): nat
    decreases |pool|
  {
    if pool == multiset{} then 0
    else
      var x :| x in pool;
      w(x) + Total(w, pool - multiset{x})
  }

  lemma {:induction false} TotalPick<T(!new)>(w: T -> nat, pool: multiset<T>, x: T)
    requires x in pool
    ensures Total(w, pool) == w(x) + Total(w, pool - multiset{x})
    decreases |pool|
  {
    var y :| y in pool && Total(w, pool) == w(y) + Total(w, pool - multiset{y});
    if y != x {
      TotalPick(w, pool - multiset{y}, x);
      TotalPick(w, pool - multiset{x}, y);
      assert pool - multiset{x} - multiset{y} == pool - multiset{y} - multiset{x};
    }
  }

  lemma {:induction false} TotalAdd<T(!new)>(w: T -> nat, pool: multiset<T>, x: T, k: nat)
    ensures Total(w, pool[x := pool[x] + k]) == Total(w, pool) + Times(k, w(x))
    decreases k
  {
    if k == 0 {
      assert pool[x := pool[x]] == pool;
    } else {
      var more := pool[x := pool[x] + k];
      assert more - multiset{x} == pool[x := pool[x] + (k - 1)];
      TotalPick(w, more, x);
      TotalAdd(w, pool, x, k - 1);
      assert Times(k, w(x)) == Times(k - 1, w(x)) + w(x);
    }
  }

  lemma {:induction false} TotalZero<T(!new)>(w: T -> nat, pool: multiset<T>)
    requires forall x :: x in pool ==> w(x) == 0
    ensures Total(w, pool) == 0
    decreases |pool|
  {
    if pool == multiset{} {
    } else {
      var x :| x in pool && Total(w, pool) == w(x) + Total(w, pool - multiset{x});
      TotalZero(w, pool - multiset{x});
    }
  }

  /** One element replaced by k copies of another. */
  lemma TotalMove<T(!new)>(w: T -> nat, pool: multiset<T>, x: T, x': T, k: nat, pool': multiset<T>)
    requires x in pool && pool' == (pool - multiset{x})[x' := (pool - multiset{x})[x'] + k]
    ensures Total(w, pool') + w(x) == Total(w, pool) + Times(k, w(x'))
  {
    TotalChain(w, pool, pool - multiset{x}, pool', x, x', k);
  }

  lemma TotalChain<T(!new)>(w: T -> nat, pool: multiset<T>, rest: multiset<T>, pool': multiset<T>, x: T, x': T, k: nat)
    requires x in pool && rest == pool - multiset{x} && pool' == rest[x' := rest[x'] + k]
    ensures Total(w, pool') + w(x) == Total(w, pool) + Times(k, w(x'))
  {
    assert Total(w, pool') == Total(w, rest) + Times(k, w(x')) by {
      TotalAdd(w, rest, x', k);
    }
    assert Total(w, pool) == w(x) + Total(w, rest) by {
      TotalPick(w, pool, x);
    }
  }

  function Times(k: nat, w: nat): nat {
    k * w
  }

  lemma TimesFacts(k: nat, n: nat, w: nat)
    requires k <= n
    ensures Times(k, w) <= Times(n, w) && Times(k, 0) == 0 && Times(1, w) == w
  {
  }
}
