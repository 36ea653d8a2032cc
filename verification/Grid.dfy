/** Coordinates of a three-dimensional grid and their flat index, x running fastest. */
module Grid {

  datatype V3 = V3(x: int, y: int, z: int)

  function Plus(a: V3, b: V3): V3 { V3(a.x + b.x, a.y + b.y, a.z + b.z) }

  function Minus(a: V3, b: V3): V3 { V3(a.x - b.x, a.y - b.y, a.z - b.z) }

  /** p is a cell of the grid [0, n). */
  predicate Inside(p: V3, n: V3) {
    0 <= p.x < n.x && 0 <= p.y < n.y && 0 <= p.z < n.z
  }

  predicate NonNegative(n: V3) { 0 <= n.x && 0 <= n.y && 0 <= n.z }

  predicate Positive(n: V3) { 0 < n.x && 0 < n.y && 0 < n.z }

  function Volume(n: V3): nat
    requires NonNegative(n)
  {
    ProductNonNegative(n.x, n.y);
    ProductNonNegative(n.x * n.y, n.z);
    n.x * n.y * n.z
  }

  function Flat(p: V3, n: V3): int { p.x + n.x * (p.y + n.y * p.z) }

  function Unflat(i: int, n: V3): V3
    requires 0 < n.x && 0 < n.y
  {
    V3(i % n.x, i / n.x % n.y, i / n.x / n.y)
  }

  lemma ProductNonNegative(a: int, b: int)
    requires 0 <= a && 0 <= b
    ensures 0 <= a * b
  {
  }

  lemma ProductMonotone(a: int, b: int, c: int)
    requires 0 <= a && b <= c
    ensures a * b <= a * c
  {
    ProductNonNegative(a, c - b);
  }

  /** A digit and a quotient are determined by the number they form. */
  lemma DivModOf(r: int, m: int, q: int)
    requires 0 <= r < m
    ensures (r + m * q) / m == q && (r + m * q) % m == r
  {
    var n := r + m * q;
    assert n == m * (n / m) + n % m;
    var d := n / m - q;
    assert m * d == r - n % m by {
      assert m * d == m * (n / m) - m * q;
    }
    if d >= 1 {
      ProductMonotone(m, 1, d);
    } else if d <= -1 {
      ProductMonotone(m, d, -1);
    }
  }

  /** A two-digit number with digits below n and m is below their product. */
  lemma DigitsBound(r: int, m: int, q: int, k: int)
    requires 0 <= r < m && 0 <= q < k
    ensures 0 <= r + m * q < m * k
  {
    ProductNonNegative(m, q);
    ProductMonotone(m, q + 1, k);
    assert m * (q + 1) == m * q + m;
  }

  lemma FlatBounds(p: V3, n: V3)
    requires Inside(p, n)
    ensures 0 <= p.y + n.y * p.z < n.y * n.z
    ensures NonNegative(n) && 0 <= Flat(p, n) < Volume(n)
  {
    DigitsBound(p.y, n.y, p.z, n.z);
    DigitsBound(p.x, n.x, p.y + n.y * p.z, n.y * n.z);
    assert n.x * (n.y * n.z) == n.x * n.y * n.z;
  }

  /** `Unflat` undoes `Flat` on every cell of the grid. */
  lemma UnflatFlat(p: V3, n: V3)
    requires Inside(p, n)
    ensures Unflat(Flat(p, n), n) == p
  {
    DivModOf(p.x, n.x, p.y + n.y * p.z);
    DivModOf(p.y, n.y, p.z);
  }

  /** `Flat` undoes `Unflat` on every index of the grid, which is a cell of it. */
  lemma FlatUnflat(i: int, n: V3)
    requires NonNegative(n) && 0 <= i < Volume(n)
    ensures Positive(n) && Inside(Unflat(i, n), n) && Flat(Unflat(i, n), n) == i
  {
    if n.x == 0 || n.y == 0 || n.z == 0 {
      assert Volume(n) == 0 by {
        ZeroVolume(n);
      }
      assert false;
    }
    var q := i / n.x;
    assert i == n.x * q + i % n.x;
    QuotientBound(i, n.x, n.y * n.z) by {
      assert n.x * (n.y * n.z) == n.x * n.y * n.z;
    }
    QuotientBound(q, n.y, n.z);
    assert q == n.y * (q / n.y) + q % n.y;
  }

  lemma ZeroVolume(n: V3)
    requires NonNegative(n) && (n.x == 0 || n.y == 0 || n.z == 0)
    ensures Volume(n) == 0
  {
  }

  lemma QuotientBound(i: int, m: int, k: int)
    requires 0 < m && 0 <= i < m * k
    ensures 0 <= i / m < k
  {
    var q := i / m;
    assert i == m * q + i % m;
    if q >= k {
      ProductMonotone(m, k, q);
      assert false;
    }
    if q < 0 {
      ProductMonotone(m, q, -1);
      assert false;
    }
  }

  /** Different cells have different indices. */
  lemma FlatInjective(p: V3, q: V3, n: V3)
    requires Inside(p, n) && Inside(q, n) && Flat(p, n) == Flat(q, n)
    ensures p == q
  {
    UnflatFlat(p, n);
    UnflatFlat(q, n);
  }
}
