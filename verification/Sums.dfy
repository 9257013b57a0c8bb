/**
 Finite sums of reals, the algebra every convolution argument below rests on.
 */
module Sums {

  /** f(0) + f(1) + ... + f(n-1). */
  function Sum(n: nat, f: int -> real): real {
    if n == 0 then 0.0 else Sum(n - 1, f) + f(n - 1)
  }

  /** Sample i of x, silent outside x. */
  function At(x: seq<real>, i: int): real {
    if 0 <= i < |x| then x[i] else 0.0
  }

  lemma {:induction false} SumEq(n: nat, f: int -> real, g: int -> real)
    requires forall i :: 0 <= i < n ==> f(i) == g(i)
    ensures Sum(n, f) == Sum(n, g)
  {
    if n > 0 {
      SumEq(n - 1, f, g);
    }
  }

  lemma {:induction false} SumZero(n: nat, f: int -> real)
    requires forall i :: 0 <= i < n ==> f(i) == 0.0
    ensures Sum(n, f) == 0.0
  {
    if n > 0 {
      SumZero(n - 1, f);
    }
  }

  /** Sums are linear: h is the combination a*f + b*g, given pointwise. */
  lemma {:induction false} SumLinear(n: nat, a: real, f: int -> real, b: real, g: int -> real, h: int -> real)
    requires forall i :: 0 <= i < n ==> h(i) == a * f(i) + b * g(i)
    ensures Sum(n, h) == a * Sum(n, f) + b * Sum(n, g)
  {
    if n > 0 {
      SumLinear(n - 1, a, f, b, g, h);
      LastTerm(n, f);
      LastTerm(n, g);
      LastTerm(n, h);
      hide Sum;
      Combine(a, Sum(n - 1, f), f(n - 1), Sum(n, f), b, Sum(n - 1, g), g(n - 1), Sum(n, g));
    }
  }

  lemma LastTerm(n: nat, f: int -> real)
    requires n > 0
    ensures Sum(n, f) == Sum(n - 1, f) + f(n - 1)
  {
  }

  /** The combination of two sums is the sum of the combinations. */
  lemma Combine(a: real, u: real, v: real, uv: real, b: real, p: real, q: real, pq: real)
    requires uv == u + v && pq == p + q
    ensures (a * u + b * p) + (a * v + b * q) == a * uv + b * pq
  {
    Distribute(a, u, v);
    Distribute(b, p, q);
  }

  lemma Distribute(a: real, u: real, v: real)
    ensures a * (u + v) == a * u + a * v
  {
  }

  lemma {:induction false} SumScale(n: nat, a: real, f: int -> real, h: int -> real)
    requires forall i :: 0 <= i < n ==> h(i) == a * f(i)
    ensures Sum(n, h) == a * Sum(n, f)
  {
    if n > 0 {
      SumScale(n - 1, a, f, h);
      Distribute(a, Sum(n - 1, f), f(n - 1));
    }
  }

  /** A sum over m + n indices is the sum over the first m plus the sum over the rest. */
  lemma {:induction false} SumSplit(m: nat, n: nat, f: int -> real, g: int -> real)
    requires forall i :: 0 <= i < n ==> g(i) == f(m + i)
    ensures Sum(m + n, f) == Sum(m, f) + Sum(n, g)
  {
    if n > 0 {
      SumSplit(m, n - 1, f, g);
      assert Sum(m + n, f) == Sum(m + (n - 1), f) + f(m + (n - 1));
    }
  }

  /** Only index k contributes. */
  lemma {:induction false} SumOnly(n: nat, k: int, f: int -> real)
    requires 0 <= k < n
    requires forall i :: 0 <= i < n && i != k ==> f(i) == 0.0
    ensures Sum(n, f) == f(k)
  {
    if k == n - 1 {
      SumZero(n - 1, f);
    } else {
      SumOnly(n - 1, k, f);
    }
  }

  /** One row of a matrix of terms, summed over its n columns. */
  function Row(n: nat, t: (int, int) -> real, i: int): real {
    Sum(n, j => t(i, j))
  }

  /** One column of a matrix of terms, summed over its m rows. */
  function Col(m: nat, t: (int, int) -> real, j: int): real {
    Sum(m, i => t(i, j))
  }

  /** Column j of m + 1 rows is column j of the first m, plus the last entry. */
  lemma ColStep(m: nat, t: (int, int) -> real, j: int)
    ensures Col(m + 1, t, j) == Col(m, t, j) + t(m, j)
  {
  }

  /** Summing a matrix by rows or by columns gives the same total. */
  lemma {:induction false} SumSwap(m: nat, n: nat, t: (int, int) -> real, rows: int -> real, cols: int -> real)
    requires forall i :: 0 <= i < m ==> rows(i) == Row(n, t, i)
    requires forall j :: 0 <= j < n ==> cols(j) == Col(m, t, j)
    ensures Sum(m, rows) == Sum(n, cols)
  {
    if m == 0 {
      SumZero(n, cols);
    } else {
      var less, last := j => Col(m - 1, t, j), j => t(m - 1, j);
      SumSwap(m - 1, n, t, rows, less);
      forall j | 0 <= j < n ensures cols(j) == 1.0 * less(j) + 1.0 * last(j) {
        ColStep(m - 1, t, j);
      }
      SumLinear(n, 1.0, less, 1.0, last, cols);
      SumEq(n, last, j => t(m - 1, j));
    }
  }
}
