/** Facts about remainders. */
module Arithmetic {
  lemma {:induction false} MultipleGrows(m: nat, a: int, b: int)
    requires a < b
    ensures m * a + m <= m * b
    decreases b - a
  {
    assert m * b == m * (b - 1) + m;
    if a < b - 1 {
      MultipleGrows(m, a, b - 1);
    }
  }

  lemma Remainder(x: int, q: int, r: nat, m: nat)
    requires x == m * q + r && r < m
    ensures x % m == r
  {
    var q', r' := x / m, x % m;
    assert x == m * q' + r';
    if q < q' {
      MultipleGrows(m, q, q');
    } else if q' < q {
      MultipleGrows(m, q', q);
    }
  }

  /** Moving by a multiple of the divisor keeps the remainder. */
  lemma RemainderOfShift(x: int, c: int, m: nat)
    requires m > 0
    ensures (x - m * c) % m == x % m
  {
    var q, r := x / m, x % m;
    assert m * (q - c) == m * q - m * c;
    Remainder(x - m * c, q - c, r, m);
  }

  /** The largest multiple of `m` below `t`. */
  function MultipleBelow(t: nat, m: nat): int
    requires m > 0
  {
    m * ((t - 1) / m)
  }

  lemma MultipleBelowIsBelow(t: nat, m: nat)
    requires m > 0 && t > 0
    ensures 0 <= MultipleBelow(t, m) < t < MultipleBelow(t, m) + m + 1 && MultipleBelow(t, m) % m == 0
  {
    var n := (t - 1) / m;
    assert t - 1 == m * n + (t - 1) % m;
    Remainder(m * n, n, 0, m);
  }

  lemma MultipleBelowIsLargest(t: nat, m: nat, x: int)
    requires m > 0 && t > 0 && x % m == 0 && x < t
    ensures x <= MultipleBelow(t, m)
  {
    MultipleBelowIsBelow(t, m);
    var q := x / m;
    assert x == m * q;
    if q > (t - 1) / m {
      MultipleGrows(m, (t - 1) / m, q);
    } else if q < (t - 1) / m {
      MultipleGrows(m, q, (t - 1) / m);
    }
  }
}
