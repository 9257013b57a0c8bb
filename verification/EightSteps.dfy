/**
 A table of eight steps, the smallest size the packed layout takes: what the transform asks of a table can be met.
 */
module EightSteps {
  import opened HalfComplex

  /** Cosine and sine of i eighths of a turn, from a square root r of one half. */
  function EighthCos(r: real, i: int): real {
    if i == 0 then 1.0
    else if i == 1 || i == 7 then r
    else if i == 2 || i == 6 then 0.0
    else if i == 4 then -1.0
    else -r
  }

  function EighthSin(r: real, i: int): real {
    EighthCos(r, (i + 6) % 8)
  }

  function EightTable(r: real): Table {
    Table(8, k => EighthCos(r, k % 8), k => EighthSin(r, k % 8))
  }

  /** One eighth more. */
  lemma NextEighth(r: real, a: int)
    requires r * r == 0.5
    ensures var t := EightTable(r);
            t.cos(a + 1) == r * t.cos(a) - r * t.sin(a) && t.sin(a + 1) == r * t.sin(a) + r * t.cos(a)
  {
    var i := a % 8;
    assert (a + 1) % 8 == (i + 1) % 8;
    assert 0 <= i < 8;
  }

  lemma RotateOnce(r: real, ca: real, sa: real, cb: real, sb: real)
    ensures r * (ca * cb - sa * sb) - r * (sa * cb + ca * sb) == ca * (r * cb - r * sb) - sa * (r * sb + r * cb)
    ensures r * (sa * cb + ca * sb) + r * (ca * cb - sa * sb) == sa * (r * cb - r * sb) + ca * (r * sb + r * cb)
  {
  }

  lemma {:induction false} AddsUpTo(r: real, a: int, b: nat)
    requires r * r == 0.5
    ensures EightTable(r).Adds(a, b)
  {
    hide EightTable;
    var t := EightTable(r);
    if b == 0 {
      StartOfTable(r, a);
    } else {
      AddsUpTo(r, a, b - 1);
      NextEighth(r, a + (b - 1));
      NextEighth(r, b - 1);
      RotateOnce(r, t.cos(a), t.sin(a), t.cos(b - 1), t.sin(b - 1));
    }
  }

  lemma StartOfTable(r: real, a: int)
    ensures EightTable(r).cos(0) == 1.0 && EightTable(r).sin(0) == 0.0 && EightTable(r).Adds(a, 0)
  {
  }

  /** With a square root of one half the table is valid. */
  lemma EightStepsValid(r: real)
    requires r * r == 0.5
    ensures EightTable(r).Valid() && EightTable(r).n == 8
  {
    var t := EightTable(r);
    forall a: int, b: int ensures t.Adds(a, b) {
      AddsUpTo(r, a, b % 8);
      SameSteps(r, a, b);
    }
    forall a: int ensures t.Reflects(a) {
      Mirrored(r, a);
    }
    forall m: int | 0 < m < 8 ensures t.Turning(m) {
      NotFull(r, m);
    }
  }

  lemma SamePlace(r: real, a: int, b: int)
    requires a % 8 == b % 8
    ensures EightTable(r).cos(a) == EightTable(r).cos(b) && EightTable(r).sin(a) == EightTable(r).sin(b)
  {
  }

  lemma SameSteps(r: real, a: int, b: int)
    requires EightTable(r).Adds(a, b % 8)
    ensures EightTable(r).Adds(a, b)
  {
    hide EightTable;
    assert (a + b) % 8 == (a + b % 8) % 8 && b % 8 % 8 == b % 8;
    SamePlace(r, a + b, a + b % 8);
    SamePlace(r, b, b % 8);
  }

  lemma Mirrored(r: real, a: int)
    ensures EightTable(r).Reflects(a)
  {
    assert -a % 8 == (8 - a % 8) % 8;
  }

  lemma NotFull(r: real, m: int)
    requires r * r == 0.5 && 0 < m < 8
    ensures EightTable(r).Turning(m)
  {
  }
}
