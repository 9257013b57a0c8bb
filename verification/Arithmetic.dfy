/**
 Products and remainders with a variable factor: the facts about rows of equal width and about multiples that
 the modules share.
 */
module Arithmetic {

  lemma NextRow(n: int, width: int)
    ensures (n + 1) * width == n * width + width
  {
  }

  lemma RowsUpTo(a: int, b: int, width: nat)
    requires a <= b
    ensures a * width <= b * width
  {
  }

  /** A row lies before the end of the rows it is one of. */
  lemma RowInside(i: int, rows: int, width: nat)
    requires i < rows
    ensures i * width + width <= rows * width
  {
    NextRow(i, width);
    RowsUpTo(i + 1, rows, width);
  }

  lemma SmallMultiple(n: int, v: int, q: int)
    requires n > 0 && -n < v < n && v == n * q
    ensures v == 0
  {
  }

  lemma ModOfMultiple(n: int, q: int)
    requires n > 0
    ensures (n * q) % n == 0
  {
    var r, p := (n * q) % n, (n * q) / n;
    assert r == n * (q - p);
    SmallMultiple(n, r, q - p);
  }

  lemma SmallRemainder(n: int, q: int, r: int)
    requires 0 <= r < n
    ensures (n * q + r) % n == r
  {
    var v := n * q + r;
    assert n * (v / n - q) == r - v % n;
    SmallMultiple(n, r - v % n, v / n - q);
  }
}
