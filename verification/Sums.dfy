/** Finite sums of reals, and the few laws the matrix proofs use. */
module Sums {

  function Sum(n: nat, f: int -> real): real {
    if n == 0 then 0.0 else Sum(n - 1, f) + f(n - 1)
  }

  lemma {:induction false} SumExt(n: nat, f: int -> real, g: int -> real)
    requires forall k :: 0 <= k < n ==> f(k) == g(k)
    ensures Sum(n, f) == Sum(n, g)
  {
    if n > 0 { SumExt(n - 1, f, g); }
  }

  lemma {:induction false} SumZero(n: nat, f: int -> real)
    requires forall k :: 0 <= k < n ==> f(k) == 0.0
    ensures Sum(n, f) == 0.0
  {
    if n > 0 { SumZero(n - 1, f); }
  }

  lemma {:induction false} SumAdd(n: nat, f: int -> real, g: int -> real, h: int -> real)
    requires forall k :: 0 <= k < n ==> h(k) == f(k) + g(k)
    ensures Sum(n, h) == Sum(n, f) + Sum(n, g)
  {
    if n > 0 { SumAdd(n - 1, f, g, h); }
  }

  lemma {:induction false} SumScale(n: nat, c: real, f: int -> real, h: int -> real)
    requires forall k :: 0 <= k < n ==> h(k) == c * f(k)
    ensures Sum(n, h) == c * Sum(n, f)
  {
    if n > 0 { SumScale(n - 1, c, f, h); }
  }

  lemma {:induction false} SumNonneg(n: nat, f: int -> real)
    requires forall k :: 0 <= k < n ==> f(k) >= 0.0
    ensures Sum(n, f) >= 0.0
  {
    if n > 0 { SumNonneg(n - 1, f); }
  }

  /** Only one term is not zero. */
  lemma {:induction false} SumSingle(n: nat, i: nat, f: int -> real)
    requires i < n
    requires forall k :: 0 <= k < n && k != i ==> f(k) == 0.0
    ensures Sum(n, f) == f(i)
  {
    if i == n - 1 { SumZero(n - 1, f); } else { SumSingle(n - 1, i, f); }
  }

  /** Only two terms are not zero. */
  lemma SumPair(n: nat, i: nat, j: nat, f: int -> real)
    requires i < n && j < n && i != j
    requires forall k :: 0 <= k < n && k != i && k != j ==> f(k) == 0.0
    ensures Sum(n, f) == f(i) + f(j)
  {
    var p: int -> real := k => if k == i then f(i) else 0.0;
    var q: int -> real := k => if k == j then f(j) else 0.0;
    SumAdd(n, p, q, f);
    SumSingle(n, i, p);
    SumSingle(n, j, q);
  }

  /** Terms from m on are zero. */
  lemma {:induction false} SumTruncate(n: nat, m: nat, f: int -> real)
    requires m <= n
    requires forall k :: m <= k < n ==> f(k) == 0.0
    ensures Sum(n, f) == Sum(m, f)
  {
    if m < n { SumTruncate(n - 1, m, f); }
  }

  /** The order of a double sum does not matter. */
  lemma {:induction false} SumSwap(n: nat, m: nat, f: (int, int) -> real)
    ensures Sum(n, i => Sum(m, j => f(i, j))) == Sum(m, j => Sum(n, i => f(i, j)))
  {
    var whole := j => Sum(n, i => f(i, j));
    if n == 0 {
      SumZero(m, whole);
    } else {
      SumSwap(n - 1, m, f);
      var before := j => Sum(n - 1, i => f(i, j));
      var last := j => f(n - 1, j);
      forall j | 0 <= j < m ensures whole(j) == before(j) + last(j) {
        SumExt(n - 1, i => f(i, j), i => f(i, j));
      }
      SumAdd(m, before, last, whole);
      SumExt(m, last, j => f(n - 1, j));
    }
  }

  lemma Sum3(f: int -> real)
    ensures Sum(3, f) == f(0) + f(1) + f(2)
  {
    assert Sum(1, f) == Sum(0, f) + f(0);
    assert Sum(2, f) == Sum(1, f) + f(1);
  }
}
