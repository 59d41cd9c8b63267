/** Integer arithmetic facts about products, quotients and ceilings. */
module Arith {

  function Min(a: int, b: int): int {
    if a <= b then a else b
  }

  /** triton.cdiv */
  function CDiv(a: nat, b: nat): (q: nat)
    requires b > 0
  {
    (a + b - 1) / b
  }

  lemma QuotientUnique(d: int, q: int, r: int, q2: int, r2: int)
    requires 0 <= r < d && 0 <= r2 < d
    requires d * q + r == d * q2 + r2
    ensures q == q2 && r == r2
  {
    var gap := q - q2;
    assert d * gap == r2 - r;
    if gap >= 1 {
      MulAtLeast(d, gap);
    } else if gap <= -1 {
      MulAtLeast(d, -gap);
    }
  }

  lemma MulAtLeast(d: int, a: int)
    requires d > 0 && a >= 1
    ensures d * a >= d
  {
    assert d * (a - 1) >= 0;
  }

  lemma DivModUnique(x: int, d: int, q: int, r: int)
    requires d > 0 && 0 <= r < d && x == d * q + r
    ensures x / d == q && x % d == r
  {
    QuotientUnique(d, q, r, x / d, x % d);
  }

  /** Dividing by 2 * p in two steps. */
  lemma HalvedDivMod(x: int, p: int)
    requires p > 0
    ensures x / (2 * p) == x / 2 / p && x % (2 * p) == 2 * (x / 2 % p) + x % 2
  {
    var h := x / 2;
    var q, r := h / p, h % p;
    assert h == p * q + r;
    assert 2 * (p * q) == (2 * p) * q;
    DivModUnique(x, 2 * p, q, 2 * r + x % 2);
  }

  lemma QuotientInRange(k: int, d: int, q: int)
    requires d > 0 && 0 <= k < q * d
    ensures 0 <= k / d < q
  {
    if k / d >= q {
      MulMonotone(q, k / d, d);
    }
  }

  lemma MulMonotone(a: int, b: int, c: int)
    requires a <= b && c >= 0
    ensures a * c <= b * c
  {
    assert (b - a) * c >= 0;
  }

  lemma CDivCovers(x: int, a: nat, b: nat)
    requires b > 0 && 0 <= x < a
    ensures x / b < CDiv(a, b)
  {
    DivMonotone(x + b, a + b - 1, b);
    DivModUnique(x + b, b, x / b + 1, x % b);
  }

  lemma DivMonotone(x: int, y: int, d: int)
    requires d > 0 && x <= y
    ensures x / d <= y / d
  {
    if x / d > y / d {
      MulMonotone(y / d + 1, x / d, d);
    }
  }

  /** Row-major addresses separate rows and columns. */
  lemma RowMajorUnique(row: int, col: int, row2: int, col2: int, width: int)
    requires 0 <= col < width && 0 <= col2 < width
    requires row * width + col == row2 * width + col2
    ensures row == row2 && col == col2
  {
    QuotientUnique(width, row, col, row2, col2);
  }

  lemma RowMajorInRange(row: int, col: int, rows: int, width: int)
    requires 0 <= row < rows && 0 <= col < width
    ensures 0 <= row * width + col < rows * width
  {
    MulMonotone(row + 1, rows, width);
    assert row * width >= 0;
  }
}
