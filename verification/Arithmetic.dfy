/** Products, quotients and remainders, in the forms the other modules reason with. */
module Arithmetic {
  /** n added up m times, nothing when m is not positive. */
  function Times(m: int, n: int): (r: int)
    ensures n >= 0 ==> r >= 0
    decreases m
  {
    if m <= 0 then 0 else n + Times(m - 1, n)
  }

  lemma {:induction false} TimesIsProduct(m: nat, n: int)
    ensures Times(m, n) == m * n
  {
    if m == 0 {
    } else {
      TimesIsProduct(m - 1, n);
    }
  }

  lemma MulMonotone(a: int, b: int, c: int)
    requires c >= 0 && a <= b
    ensures a * c <= b * c
  {
    assert b * c == a * c + (b - a) * c;
  }

  lemma DivideBound(x: int, c: int, d: int)
    requires c >= 1 && d >= 0 && (x >= 0 ==> x * c <= d)
    ensures x <= d / c
  {
    var q := d / c;
    assert d < (q + 1) * c;
    if q + 1 <= x {
      MulMonotone(q + 1, x, c);
    }
  }

  lemma QuotientExceeds(d: int, c: int)
    requires c >= 1 && d >= 0
    ensures d < (1 + d / c) * c
  {
  }

  /** A quotient and a remainder in range are the only ones. */
  lemma ModUnique(x: int, n: int, q: int, r: int)
    requires n > 0 && 0 <= r < n && x == q * n + r
    ensures x % n == r && x / n == q
  {
    var d := x / n - q;
    assert d * n == r - x % n;
    if d >= 1 {
      MulMonotone(1, d, n);
    } else if d <= -1 {
      MulMonotone(d, -1, n);
    }
  }

  /** Numbers leave the same remainder exactly when their difference leaves none. */
  lemma SameRemainder(x: int, y: int, n: int)
    requires n > 0
    ensures x % n == y % n <==> (y - x) % n == 0
  {
    var r, d := x % n, (y - x) / n;
    assert x == x / n * n + r;
    if (y - x) % n == 0 {
      assert y == (x / n + d) * n + r;
      ModUnique(y, n, x / n + d, r);
    }
    if y % n == r {
      assert y - x == (y / n - x / n) * n + 0;
      ModUnique(y - x, n, y / n - x / n, 0);
    }
  }

  lemma AddMultiple(x: int, e: int, n: int)
    requires n > 0 && e % n == 0
    ensures (x + e) % n == x % n
  {
    assert x + e - x == e;
    SameRemainder(x, x + e, n);
  }

  lemma QuotientMonotone(x: int, y: int, c: int)
    requires c >= 1 && 0 <= x <= y
    ensures 0 <= x / c <= y / c
  {
    assert x / c * c <= x;
    DivideBound(x / c, c, y);
  }
}
