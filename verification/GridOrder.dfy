/** The order in which a flat index runs through the cells of a grid. */
module GridOrder {
  import opened Grid

  /** The cell after p: one further in x, at the end of a row in y, at the end of a plane in z. */
  predicate IsNext(p: V3, q: V3, n: V3) {
    if p.x + 1 < n.x then q == V3(p.x + 1, p.y, p.z)
    else if p.y + 1 < n.y then q == V3(0, p.y + 1, p.z)
    else q == V3(0, 0, p.z + 1)
  }

  /** Indices number the cells from the origin, each after the one before. */
  lemma CellsInOrder(i: int, n: V3)
    requires NonNegative(n) && 0 <= i < Volume(n)
    ensures Positive(n) && Inside(Unflat(i, n), n)
    ensures i == 0 <==> Unflat(i, n) == V3(0, 0, 0)
    ensures i + 1 < Volume(n) ==> IsNext(Unflat(i, n), Unflat(i + 1, n), n)
  {
    var p := Unflat(i, n);
    FlatUnflat(i, n);
    DivModOf(0, n.x, 0);
    DivModOf(0, n.y, 0);
    if i + 1 < Volume(n) {
      var q := if p.x + 1 < n.x then V3(p.x + 1, p.y, p.z)
               else if p.y + 1 < n.y then V3(0, p.y + 1, p.z) else V3(0, 0, p.z + 1);
      NextIndex(p, q, n);
      BelowVolume(q, n);
      UnflatFlat(q, n);
    }
  }

  lemma NextIndex(p: V3, q: V3, n: V3)
    requires Inside(p, n) && IsNext(p, q, n)
    ensures Flat(q, n) == Flat(p, n) + 1
  {
    if p.x + 1 == n.x && p.y + 1 < n.y {
      assert n.x * (p.y + 1 + n.y * p.z) == n.x * (p.y + n.y * p.z) + n.x;
    } else if p.x + 1 == n.x {
      assert n.y * (p.z + 1) == n.y * p.z + n.y;
      assert n.x * (0 + n.y * (p.z + 1)) == n.x * (p.y + n.y * p.z) + n.x;
    }
  }

  /** An index below the volume belongs to a cell of the grid. */
  lemma BelowVolume(q: V3, n: V3)
    requires Positive(n) && 0 <= q.x < n.x && 0 <= q.y < n.y && 0 <= q.z && Flat(q, n) < Volume(n)
    ensures Inside(q, n)
  {
    assert n.x * (n.y * n.z) == n.x * n.y * n.z;
    if q.z >= n.z {
      ProductMonotone(n.y, n.z, q.z);
      ProductMonotone(n.x, n.y * n.z, q.y + n.y * q.z);
    }
  }

  /** Cells are numbered by z, then y, then x. */
  predicate ComesBefore(p: V3, q: V3) {
    p.z < q.z || (p.z == q.z && (p.y < q.y || (p.y == q.y && p.x < q.x)))
  }

  lemma FlatOrders(p: V3, q: V3, n: V3)
    requires Inside(p, n) && Inside(q, n)
    ensures Flat(p, n) < Flat(q, n) <==> ComesBefore(p, q)
  {
    if ComesBefore(p, q) {
      FlatIncreases(p, q, n);
    } else if p != q {
      FlatIncreases(q, p, n);
    }
  }

  lemma FlatIncreases(p: V3, q: V3, n: V3)
    requires Inside(p, n) && Inside(q, n) && ComesBefore(p, q)
    ensures Flat(p, n) < Flat(q, n)
  {
    var a, b := p.y + n.y * p.z, q.y + n.y * q.z;
    if p.z < q.z {
      ProductMonotone(n.y, p.z + 1, q.z);
      assert n.y * (p.z + 1) == n.y * p.z + n.y;
    }
    if a < b {
      ProductMonotone(n.x, a + 1, b);
      assert n.x * (a + 1) == n.x * a + n.x;
    }
  }
}
