/** The regions of the three CPU transports, as flat index lists, and the shape of the halo shell. */
module Transports {
  import opened Grid
  import opened Regions

  /** Flat indices of the cells of a box, in packing order. */
  function Cells(n: V3, b: Box): (r: seq<int>)
    requires NonNegative(b.size)
    ensures |r| == Volume(b.size)
  {
    seq(Volume(b.size), i requires 0 <= i < Volume(b.size) =>
      (FlatUnflat(i, b.size); Flat(Plus(b.at, Unflat(i, b.size)), n)))
  }

  /** The packed exchange reads exactly the cells of the list, in its order. */
  lemma PackReadsCells<T>(f: seq<T>, n: V3, b: Box, i: nat)
    requires NonNegative(n) && BoxIn(b, n) && |f| == Volume(n) && i < Volume(b.size)
    ensures 0 <= Cells(n, b)[i] < |f| && Pack(f, n, b)[i] == f[Cells(n, b)[i]]
  {
    assert CellIndex(n, b, i) < Volume(n);
  }

  lemma CellAt(n: V3, b: Box, q: V3)
    requires NonNegative(b.size) && Inside(q, b.size)
    ensures 0 <= Flat(q, b.size) < Volume(b.size)
    ensures Cells(n, b)[Flat(q, b.size)] == Flat(Plus(b.at, q), n)
  {
    FlatBounds(q, b.size);
    UnflatFlat(q, b.size);
  }

  // ----- index lists (tausch) -----

  function Extent(lo: int, hi: int): nat { if lo < hi then hi - lo else 0 }

  function RangeBox(xl: int, xr: int, yl: int, yr: int, zl: int, zr: int): Box {
    Box(V3(xl, yl, zl), V3(Extent(xl, xr), Extent(yl, yr), Extent(zl, zr)))
  }

  /** The first k cells of a box have been listed. */
  ghost predicate Listed(idx: seq<int>, n: V3, b: Box, k: int)
    requires NonNegative(b.size)
  {
    |idx| == k <= Volume(b.size) && idx == Cells(n, b)[..k]
  }

  lemma NextListed(idx: seq<int>, n: V3, b: Box, q: V3)
    requires NonNegative(b.size) && Inside(q, b.size) && Listed(idx, n, b, SlotStart(b, q.y, q.z) + q.x)
    ensures var p := Plus(b.at, q);
            Listed(idx + [p.x + p.y * n.x + p.z * (n.x * n.y)], n, b, SlotStart(b, q.y, q.z) + q.x + 1)
  {
    CellAt(n, b, q);
    IndexForm(Plus(b.at, q), n);
  }

  /** The innermost loop: one row. */
  method ListRow(idx: seq<int>, xl: int, xr: int, y: int, z: int, n: V3, ghost b: Box) returns (more: seq<int>)
    requires NonNegative(b.size) && b.at.x == xl && b.size.x == Extent(xl, xr)
    requires b.at.y <= y < b.at.y + b.size.y && b.at.z <= z < b.at.z + b.size.z
    requires Listed(idx, n, b, SlotStart(b, y - b.at.y, z - b.at.z))
    ensures Listed(more, n, b, SlotStart(b, y - b.at.y + 1, z - b.at.z))
  {
    more := idx;
    var x := xl;
    while x < xr
      invariant xl <= x <= xl + b.size.x
      invariant Listed(more, n, b, SlotStart(b, y - b.at.y, z - b.at.z) + (x - xl))
    {
      NextListed(more, n, b, V3(x - xl, y - b.at.y, z - b.at.z));
      more := more + [x + y * n.x + z * (n.x * n.y)];
      x := x + 1;
    }
    SlotRows(b, y - b.at.y, z - b.at.z);
  }

  /** The index list a halo registers: the cells of its box, in packing order. */
  method HaloIndices(xl: int, xr: int, yl: int, yr: int, zl: int, zr: int, n: V3) returns (idx: seq<int>)
    ensures idx == Cells(n, RangeBox(xl, xr, yl, yr, zl, zr))
  {
    idx := [];
    ghost var b := RangeBox(xl, xr, yl, yr, zl, zr);
    SlotRows(b, 0, 0);
    var z := zl;
    while z < zr
      invariant zl <= z <= zl + b.size.z && Listed(idx, n, b, SlotStart(b, 0, z - zl))
    {
      var y := yl;
      while y < yr
        invariant yl <= y <= yl + b.size.y && Listed(idx, n, b, SlotStart(b, y - yl, z - zl))
      {
        idx := ListRow(idx, xl, xr, y, z, n, b);
        y := y + 1;
      }
      SlotRows(b, 0, z - zl);
      z := z + 1;
    }
    VolumeAsRows(b.size);
  }

  lemma IndexForm(p: V3, n: V3)
    ensures p.x + p.y * n.x + p.z * (n.x * n.y) == Flat(p, n)
  {
    assert n.x * (p.y + n.y * p.z) == n.x * p.y + n.x * (n.y * p.z);
    assert n.x * (n.y * p.z) == p.z * (n.x * n.y);
  }

  /** The twelve boxes of the tausch backend: lower and upper bound in each dimension. */
  function TauschSend(e: V3, h: Halos, dim: nat, left: bool): Box
    requires dim < 3
  {
    var n := Buffer(e, h);
    match (dim, left)
    case (0, true) => RangeBox(h.xl, h.xl + h.xr, h.yl, e.y + h.yr, h.zl, e.z + h.zr)
    case (0, false) => RangeBox(e.x, h.xl + e.x, h.yl, e.y + h.yr, h.zl, e.z + h.zr)
    case (1, true) => RangeBox(0, n.x, h.yl, h.yl + h.yr, h.zl, e.z + h.zr)
    case (1, false) => RangeBox(0, n.x, e.y, h.yl + e.y, h.zl, e.z + h.zr)
    case (_, true) => RangeBox(0, n.x, 0, n.y, h.zl, h.zl + h.zr)
    case (_, false) => RangeBox(0, n.x, 0, n.y, e.z, h.zl + e.z)
  }

  function TauschRecv(e: V3, h: Halos, dim: nat, left: bool): Box
    requires dim < 3
  {
    var n := Buffer(e, h);
    match (dim, left)
    case (0, true) => RangeBox(h.xl + e.x, n.x, h.yl, e.y + h.yr, h.zl, e.z + h.zr)
    case (0, false) => RangeBox(0, h.xl, h.yl, e.y + h.yr, h.zl, e.z + h.zr)
    case (1, true) => RangeBox(0, n.x, h.yl + e.y, n.y, h.zl, e.z + h.zr)
    case (1, false) => RangeBox(0, n.x, 0, h.yl, h.zl, e.z + h.zr)
    case (_, true) => RangeBox(0, n.x, 0, n.y, h.zl + e.z, n.z)
    case (_, false) => RangeBox(0, n.x, 0, n.y, 0, h.zl)
  }

  // ----- subarray datatypes -----

  /** `count` copies of a displacement list, `stride` apart, the first at start * stride. */
  function Replicate(m: seq<int>, start: int, stride: int, count: nat): (r: seq<int>)
  {
    if count == 0 then [] else
      Replicate(m, start, stride, count - 1) + seq(|m|, i requires 0 <= i < |m| => m[i] + (start + count - 1) * stride)
  }

  /** The displacements, in elements, of a Fortran-order subarray (section 4.1.3 of MPI 3.1). */
  function TypeMap(n: V3, b: Box): seq<int>
    requires NonNegative(b.size)
  {
    Replicate(Replicate(Replicate([0], b.at.x, 1, b.size.x), b.at.y, n.x, b.size.y), b.at.z, n.x * n.y, b.size.z)
  }

  lemma {:induction false} ReplicateAt(m: seq<int>, start: int, stride: int, count: nat, i: nat, j: nat)
    requires i < |m| && j < count
    ensures |Replicate(m, start, stride, count)| == |m| * count
    ensures 0 <= i + |m| * j < |m| * count
    ensures Replicate(m, start, stride, count)[i + |m| * j] == m[i] + (start + j) * stride
  {
    DigitsBound(i, |m|, j, count);
    assert |m| * count == |m| * (count - 1) + |m|;
    if count > 1 {
      ReplicateAt(m, start, stride, count - 1, i, if j < count - 1 then j else 0);
    } else {
      assert Replicate(m, start, stride, 0) == [];
    }
  }

  lemma {:induction false} ReplicateSize(m: seq<int>, start: int, stride: int, count: nat)
    ensures |Replicate(m, start, stride, count)| == |m| * count
  {
    if count > 0 {
      ReplicateSize(m, start, stride, count - 1);
      assert |m| * count == |m| * (count - 1) + |m|;
    }
  }

  /** A subarray datatype touches the cells of its box in packing order. */
  lemma TypeMapIsCells(n: V3, b: Box)
    requires NonNegative(b.size)
    ensures TypeMap(n, b) == Cells(n, b)
  {
    var line := Replicate([0], b.at.x, 1, b.size.x);
    var plane := Replicate(line, b.at.y, n.x, b.size.y);
    ReplicateSize([0], b.at.x, 1, b.size.x);
    ReplicateSize(line, b.at.y, n.x, b.size.y);
    ReplicateSize(plane, b.at.z, n.x * n.y, b.size.z);
    forall i | 0 <= i < Volume(b.size) ensures TypeMap(n, b)[i] == Cells(n, b)[i] {
      FlatUnflat(i, b.size);
      var q := Unflat(i, b.size);
      CellAt(n, b, q);
      ReplicateAt([0], b.at.x, 1, b.size.x, 0, q.x);
      ReplicateAt(line, b.at.y, n.x, b.size.y, q.x, q.y);
      ReplicateAt(plane, b.at.z, n.x * n.y, b.size.z, q.x + b.size.x * q.y, q.z);
      SlotForm(q, b.size);
      IndexForm(Plus(b.at, q), n);
    }
  }

  lemma SlotForm(q: V3, s: V3)
    ensures q.x + s.x * q.y + s.x * s.y * q.z == Flat(q, s)
  {
    assert s.x * (q.y + s.y * q.z) == s.x * q.y + s.x * (s.y * q.z);
    assert s.x * (s.y * q.z) == s.x * s.y * q.z;
  }

  function DatatypeSend(e: V3, h: Halos, dim: nat, left: bool): Box
    requires dim < 3
  {
    var n := Buffer(e, h);
    match (dim, left)
    case (0, true) => Box(V3(h.xl, h.yl, h.zl), V3(h.xr, e.y, e.z))
    case (0, false) => Box(V3(h.xl + e.x - h.xr, h.yl, h.zl), V3(h.xl, e.y, e.z))
    case (1, true) => Box(V3(0, h.yl, h.zl), V3(n.x, h.yr, e.z))
    case (1, false) => Box(V3(0, h.yl + e.y - h.yr, h.zl), V3(n.x, h.yl, e.z))
    case (_, true) => Box(V3(0, 0, h.zl), V3(n.x, n.y, h.zr))
    case (_, false) => Box(V3(0, 0, h.zl + e.z - h.zr), V3(n.x, n.y, h.zl))
  }

  function DatatypeRecv(e: V3, h: Halos, dim: nat, left: bool): Box
    requires dim < 3
  {
    var n := Buffer(e, h);
    match (dim, left)
    case (0, true) => Box(V3(h.xl + e.x, h.yl, h.zl), V3(h.xr, e.y, e.z))
    case (0, false) => Box(V3(0, h.yl, h.zl), V3(h.xl, e.y, e.z))
    case (1, true) => Box(V3(0, h.yl + e.y, h.zl), V3(n.x, h.yr, e.z))
    case (1, false) => Box(V3(0, 0, h.zl), V3(n.x, h.yl, e.z))
    case (_, true) => Box(V3(0, 0, h.zl + e.z), V3(n.x, n.y, h.zr))
    case (_, false) => Box(V3(0, 0, 0), V3(n.x, n.y, h.zl))
  }

  // ----- agreement -----

  predicate OppositeEqual(h: Halos) { h.xl == h.xr && h.yl == h.yr && h.zl == h.zr }

  predicate AllPositive(h: Halos) { 0 < h.xl && 0 < h.xr && 0 < h.yl && 0 < h.yr && 0 < h.zl && 0 < h.zr }

  /** In one stage and direction the three transports send, and receive, the same cells in
      the same order. */
  predicate SameCells(e: V3, h: Halos, dim: nat, left: bool)
    requires NonNegative(e) && dim < 3
  {
    var n := Buffer(e, h);
    && Cells(n, SendBox(e, h, dim, left)) == TypeMap(n, DatatypeSend(e, h, dim, left)) ==
        Cells(n, TauschSend(e, h, dim, left))
    && Cells(n, RecvBox(e, h, dim, left)) == TypeMap(n, DatatypeRecv(e, h, dim, left)) ==
        Cells(n, TauschRecv(e, h, dim, left))
  }

  predicate Hollow(b: Box) { b.size.x == 0 || b.size.y == 0 || b.size.z == 0 }

  /** Equal boxes, or two without cells. */
  predicate SameRegion(b: Box, b': Box) { b == b' || (Hollow(b) && Hollow(b')) }

  predicate SameRegions(e: V3, h: Halos, dim: nat, left: bool)
    requires dim < 3
  {
    && SameRegion(SendBox(e, h, dim, left), DatatypeSend(e, h, dim, left))
    && SameRegion(SendBox(e, h, dim, left), TauschSend(e, h, dim, left))
    && SameRegion(RecvBox(e, h, dim, left), DatatypeRecv(e, h, dim, left))
    && SameRegion(RecvBox(e, h, dim, left), TauschRecv(e, h, dim, left))
  }

  lemma HollowVolume(b: Box)
    requires NonNegative(b.size)
    ensures Hollow(b) <==> Volume(b.size) == 0
  {
    if !Hollow(b) {
      ProductMonotone(b.size.x, 1, b.size.y);
      ProductMonotone(b.size.x * b.size.y, 1, b.size.z);
    } else {
      ZeroVolume(b.size);
    }
  }

  lemma SameRegionSameCells(n: V3, b: Box, b': Box)
    requires NonNegative(b.size) && NonNegative(b'.size) && SameRegion(b, b')
    ensures Cells(n, b) == Cells(n, b')
  {
    HollowVolume(b);
    HollowVolume(b');
  }

  lemma FirstCell(n: V3, b: Box, b': Box)
    requires Positive(b.size) && NonNegative(b'.size) && Cells(n, b) == Cells(n, b')
    ensures Flat(b.at, n) == Flat(b'.at, n)
  {
    CellAt(n, b, V3(0, 0, 0));
    FlatUnflat(0, b'.size);
    assert Unflat(0, b'.size) == V3(0, 0, 0) by {
      DivModOf(0, b'.size.x, 0);
      DivModOf(0, b'.size.y, 0);
    }
    assert Flat(V3(0, 0, 0), b.size) == 0;
  }

  // ----- lists that agree come from one region -----

  lemma SameSizeHollow(n: V3, b: Box, b': Box)
    requires NonNegative(b.size) && NonNegative(b'.size) && Cells(n, b) == Cells(n, b')
    ensures Hollow(b) <==> Hollow(b')
  {
    HollowVolume(b);
    HollowVolume(b');
  }

  /** Boxes of one size, shifted along x, y or z. */
  lemma ShiftedX(n: V3, b: Box, b': Box)
    requires NonNegative(b.size) && b'.size == b.size && Cells(n, b) == Cells(n, b')
    requires b.at.y == b'.at.y && b.at.z == b'.at.z
    ensures SameRegion(b, b')
  {
    if !Hollow(b) {
      FirstCell(n, b, b');
    }
  }

  lemma ShiftedY(n: V3, b: Box, b': Box)
    requires NonNegative(b.size) && b'.size == b.size && Cells(n, b) == Cells(n, b') && b.size.x <= n.x
    requires b.at.x == b'.at.x && b.at.z == b'.at.z
    ensures SameRegion(b, b')
  {
    if !Hollow(b) {
      FirstCell(n, b, b');
      FlatCancelY(n, b.at, b'.at);
    }
  }

  lemma ShiftedZ(n: V3, b: Box, b': Box)
    requires NonNegative(b.size) && b'.size == b.size && Cells(n, b) == Cells(n, b') && b.size.x <= n.x
        && b.size.y <= n.y
    requires b.at.x == b'.at.x && b.at.y == b'.at.y
    ensures SameRegion(b, b')
  {
    if !Hollow(b) {
      FirstCell(n, b, b');
      FlatCancelZ(n, b.at, b'.at);
    }
  }

  lemma FactorsEqual(w: int, p: int, q: int)
    requires 0 < w && w * p == w * q
    ensures p == q
  {
    DivModOf(0, w, p);
    DivModOf(0, w, q);
  }

  /** Boxes with one corner and one width: equal lists, equal heights. */
  lemma HeightsEqual(n: V3, b: Box, b': Box)
    requires Positive(b.size) && Positive(b'.size) && Cells(n, b) == Cells(n, b')
    requires b.at == b'.at && b.size.x == b'.size.x <= n.x && b'.size.y <= n.y
    ensures b'.size.y <= b.size.y
  {
    var w, y, y' := b.size.x, b.size.y, b'.size.y;
    if y < y' {
      assert b.size.z > 1 by {
        VolumeAsRows(b.size);
        VolumeAsRows(b'.size);
        FactorsEqual(w, y * b.size.z, y' * b'.size.z);
        ProductMonotone(y', 1, b'.size.z);
      }
      CellAt(n, b, V3(0, 0, 1));
      CellAt(n, b', V3(0, y, 0));
      assert Flat(V3(0, 0, 1), b.size) == w * y == Flat(V3(0, y, 0), b'.size);
      OneUp(n, b.at, y);
      assert false;
    }
  }

  lemma OneUp(n: V3, p: V3, y: int)
    requires 0 < n.x && 0 <= y < n.y
    ensures Flat(Plus(p, V3(0, 0, 1)), n) != Flat(Plus(p, V3(0, y, 0)), n)
  {
    var a, b := p.y + n.y * (p.z + 1), p.y + y + n.y * p.z;
    assert n.y * (p.z + 1) == n.y * p.z + n.y;
    if n.x * a == n.x * b {
      FactorsEqual(n.x, a, b);
    }
  }

  /** Boxes with one corner and one width list the same cells only if they are one region. */
  lemma Resized(n: V3, b: Box, b': Box)
    requires NonNegative(b.size) && NonNegative(b'.size) && Cells(n, b) == Cells(n, b')
    requires b.at == b'.at && b.size.x == b'.size.x <= n.x && b.size.y <= n.y && b'.size.y <= n.y
    ensures SameRegion(b, b')
  {
    SameSizeHollow(n, b, b');
    if !Hollow(b) {
      HeightsEqual(n, b, b');
      HeightsEqual(n, b', b);
      VolumeAsRows(b.size);
      VolumeAsRows(b'.size);
      FactorsEqual(b.size.x, b.size.y * b.size.z, b.size.y * b'.size.z);
      FactorsEqual(b.size.y, b.size.z, b'.size.z);
    }
  }

  lemma DatatypeRegion(e: V3, h: Halos, dim: nat, left: bool)
    requires NonNegative(e) && dim < 3
    requires Cells(Buffer(e, h), SendBox(e, h, dim, left)) == Cells(Buffer(e, h), DatatypeSend(e, h, dim, left))
    ensures SameRegion(SendBox(e, h, dim, left), DatatypeSend(e, h, dim, left))
  {
    var n, b, b' := Buffer(e, h), SendBox(e, h, dim, left), DatatypeSend(e, h, dim, left);
    match dim
    case 0 => ShiftedX(n, b, b');
    case 1 => ShiftedY(n, b, b');
    case _ => ShiftedZ(n, b, b');
  }

  lemma TauschSendRegion(e: V3, h: Halos, dim: nat, left: bool)
    requires NonNegative(e) && dim < 3
    requires Cells(Buffer(e, h), SendBox(e, h, dim, left)) == Cells(Buffer(e, h), TauschSend(e, h, dim, left))
    ensures SameRegion(SendBox(e, h, dim, left), TauschSend(e, h, dim, left))
  {
    Resized(Buffer(e, h), SendBox(e, h, dim, left), TauschSend(e, h, dim, left));
  }

  lemma TauschRecvRegion(e: V3, h: Halos, dim: nat, left: bool)
    requires NonNegative(e) && dim < 3
    requires Cells(Buffer(e, h), RecvBox(e, h, dim, left)) == Cells(Buffer(e, h), TauschRecv(e, h, dim, left))
    ensures SameRegion(RecvBox(e, h, dim, left), TauschRecv(e, h, dim, left))
  {
    Resized(Buffer(e, h), RecvBox(e, h, dim, left), TauschRecv(e, h, dim, left));
  }

  lemma DatatypeRecvIsRecv(e: V3, h: Halos, dim: nat, left: bool)
    requires dim < 3
    ensures DatatypeRecv(e, h, dim, left) == RecvBox(e, h, dim, left)
  {
  }

  /** Equal lists come from equal regions, in every stage and direction. */
  lemma CellsAreRegions(e: V3, h: Halos, dim: nat, left: bool)
    requires NonNegative(e) && dim < 3
    ensures SameCells(e, h, dim, left) ==> SameRegions(e, h, dim, left)
  {
    TypeMapIsCells(Buffer(e, h), DatatypeSend(e, h, dim, left));
    if SameCells(e, h, dim, left) {
      DatatypeRegion(e, h, dim, left);
      TauschSendRegion(e, h, dim, left);
      TauschRecvRegion(e, h, dim, left);
      DatatypeRecvIsRecv(e, h, dim, left);
    }
  }

  lemma RegionsAreCells(e: V3, h: Halos, dim: nat, left: bool)
    requires NonNegative(e) && dim < 3 && SameRegions(e, h, dim, left)
    ensures SameCells(e, h, dim, left)
  {
    var n := Buffer(e, h);
    TypeMapIsCells(n, DatatypeSend(e, h, dim, left));
    TypeMapIsCells(n, DatatypeRecv(e, h, dim, left));
    SameRegionSameCells(n, SendBox(e, h, dim, left), DatatypeSend(e, h, dim, left));
    SameRegionSameCells(n, SendBox(e, h, dim, left), TauschSend(e, h, dim, left));
    SameRegionSameCells(n, RecvBox(e, h, dim, left), DatatypeRecv(e, h, dim, left));
    SameRegionSameCells(n, RecvBox(e, h, dim, left), TauschRecv(e, h, dim, left));
  }

  lemma EqualHalosSameCells(e: V3, h: Halos, dim: nat, left: bool)
    requires NonNegative(e) && OppositeEqual(h) && dim < 3
    ensures SameCells(e, h, dim, left)
  {
    RegionsAreCells(e, h, dim, left);
  }

  /** [lo, ext + hi), which the index lists use for an interior, has the interior's length. */
  predicate Measures(ext: int, lo: nat, hi: nat) { Extent(lo, ext + hi) == ext }

  /** When the transports agree: opposite halos are equal, or regions in which it would show
      are empty. */
  predicate Agreeable(e: V3, h: Halos) {
    var n := Buffer(e, h);
    && (h.xl == h.xr || h.xl == 0 || e.y == 0 || e.z == 0)
    && (h.yl == h.yr || h.yl == 0 || n.x == 0 || e.z == 0)
    && (h.zl == h.zr || h.zl == 0 || n.x == 0 || n.y == 0)
    && (|| (h.xl == 0 && h.xr == 0)
        || (Measures(e.y, h.yl, h.yr) && Measures(e.z, h.zl, h.zr))
        || ((e.y == 0 || e.z == 0) && (Extent(h.yl, e.y + h.yr) == 0 || Extent(h.zl, e.z + h.zr) == 0)))
    && (n.x == 0 || (h.yl == 0 && h.yr == 0) || Measures(e.z, h.zl, h.zr))
  }

  ghost predicate AllSameCells(e: V3, h: Halos)
    requires NonNegative(e)
  {
    forall dim: nat, left {:trigger SameCells(e, h, dim, left)} :: dim < 3 ==> SameCells(e, h, dim, left)
  }

  predicate SideBySide(e: V3, h: Halos, dim: nat)
    requires dim < 3
  {
    SameRegions(e, h, dim, true) && SameRegions(e, h, dim, false)
  }

  lemma AgreeingSides(e: V3, h: Halos, dim: nat)
    requires NonNegative(e) && dim < 3 && AllSameCells(e, h)
    ensures SideBySide(e, h, dim)
  {
    CellsAreRegions(e, h, dim, true);
    CellsAreRegions(e, h, dim, false);
  }

  lemma AgreeingCells(e: V3, h: Halos, dim: nat, left: bool)
    requires NonNegative(e) && dim < 3 && SideBySide(e, h, dim)
    ensures SameCells(e, h, dim, left)
  {
    RegionsAreCells(e, h, dim, left);
  }

  lemma AllAgree(e: V3, h: Halos)
    requires NonNegative(e) && SideBySide(e, h, 0) && SideBySide(e, h, 1) && SideBySide(e, h, 2)
    ensures AllSameCells(e, h)
  {
    forall dim: nat, left | dim < 3 ensures SameCells(e, h, dim, left) {
      AgreeingCells(e, h, dim, left);
    }
  }

  lemma AgreeX(e: V3, h: Halos)
    requires NonNegative(e)
    ensures SideBySide(e, h, 0) <==>
      && (h.xl == h.xr || h.xl == 0 || e.y == 0 || e.z == 0)
      && (|| (h.xl == 0 && h.xr == 0)
          || (Measures(e.y, h.yl, h.yr) && Measures(e.z, h.zl, h.zr))
          || ((e.y == 0 || e.z == 0) && (Extent(h.yl, e.y + h.yr) == 0 || Extent(h.zl, e.z + h.zr) == 0)))
  {
  }

  lemma AgreeY(e: V3, h: Halos)
    requires NonNegative(e)
    ensures SideBySide(e, h, 1) <==>
      && (h.yl == h.yr || h.yl == 0 || Buffer(e, h).x == 0 || e.z == 0)
      && (Buffer(e, h).x == 0 || (h.yl == 0 && h.yr == 0) || Measures(e.z, h.zl, h.zr))
  {
  }

  lemma AgreeZ(e: V3, h: Halos)
    requires NonNegative(e)
    ensures SideBySide(e, h, 2) <==>
      h.zl == h.zr || h.zl == 0 || Buffer(e, h).x == 0 || Buffer(e, h).y == 0
  {
  }

  /** The transports agree in all stages and directions exactly when `Agreeable` says so, for
      all blocks and halos, empty ones included. */
  lemma TransportsAgreeIff(e: V3, h: Halos)
    requires NonNegative(e)
    ensures AllSameCells(e, h) <==> Agreeable(e, h)
  {
    AgreeX(e, h);
    AgreeY(e, h);
    AgreeZ(e, h);
    if AllSameCells(e, h) {
      AgreeingSides(e, h, 0);
      AgreeingSides(e, h, 1);
      AgreeingSides(e, h, 2);
    }
    if Agreeable(e, h) {
      AllAgree(e, h);
    }
  }

  /** Equal opposite halos always suffice, and where no block and no halo is empty they are
      needed. */
  lemma AgreeableMeans(e: V3, h: Halos)
    requires NonNegative(e)
    ensures OppositeEqual(h) ==> Agreeable(e, h)
    ensures Positive(e) && AllPositive(h) && Agreeable(e, h) ==> OppositeEqual(h)
  {
  }

  lemma FlatCancelY(n: V3, p: V3, q: V3)
    requires 0 < n.x && p.x == q.x && p.z == q.z && Flat(p, n) == Flat(q, n)
    ensures p.y == q.y
  {
    var a, b := p.y + n.y * p.z, q.y + n.y * q.z;
    DivModOf(0, n.x, a);
    DivModOf(0, n.x, b);
  }

  lemma FlatCancelZ(n: V3, p: V3, q: V3)
    requires 0 < n.x && 0 < n.y && p.x == q.x && p.y == q.y && Flat(p, n) == Flat(q, n)
    ensures p.z == q.z
  {
    DivModOf(0, n.x, p.y + n.y * p.z);
    DivModOf(0, n.x, q.y + n.y * q.z);
    DivModOf(0, n.y, p.z);
    DivModOf(0, n.y, q.z);
  }

  // ----- the z stage without packing -----

  predicate Slab(n: V3, b: Box) {
    NonNegative(n) && BoxIn(b, n) && b.at.x == 0 && b.at.y == 0 && b.size.x == n.x && b.size.y == n.y
  }

  lemma SlabFlat(n: V3, b: Box, q: V3)
    requires Slab(n, b)
    ensures Flat(Plus(b.at, q), n) == n.x * n.y * b.at.z + Flat(q, b.size)
  {
    SlotForm(q, n);
    SlotForm(Plus(b.at, q), n);
    assert n.x * n.y * (b.at.z + q.z) == n.x * n.y * b.at.z + n.x * n.y * q.z;
  }

  lemma SlabBounds(n: V3, b: Box)
    requires Slab(n, b)
    ensures 0 <= n.x * n.y * b.at.z
        && n.x * n.y * b.at.z + Volume(b.size) == n.x * n.y * (b.at.z + b.size.z) <= Volume(n)
  {
    ProductNonNegative(n.x, n.y);
    ProductNonNegative(n.x * n.y, b.at.z);
    ProductMonotone(n.x * n.y, b.at.z + b.size.z, n.z);
    assert n.x * n.y * (b.at.z + b.size.z) == n.x * n.y * b.at.z + n.x * n.y * b.size.z;
  }

  /** A message of the z stage is a contiguous piece of the buffer: sending it in place is
      the same as packing it. */
  lemma SlabIsContiguous<T>(f: seq<T>, n: V3, b: Box)
    requires Slab(n, b) && |f| == Volume(n)
    ensures 0 <= n.x * n.y * b.at.z <= n.x * n.y * (b.at.z + b.size.z) <= |f|
    ensures Pack(f, n, b) == f[n.x * n.y * b.at.z..n.x * n.y * (b.at.z + b.size.z)]
  {
    SlabBounds(n, b);
    forall i | 0 <= i < Volume(b.size) ensures Pack(f, n, b)[i] == f[n.x * n.y * b.at.z + i] {
      FlatUnflat(i, b.size);
      SlabFlat(n, b, Unflat(i, b.size));
    }
  }

  /** Receiving the z messages in place is the same as unpacking them: they become the
      first and the last planes of the buffer. */
  lemma SlabsInPlace<T>(f: seq<T>, e: V3, h: Halos, m: seq<T>, m': seq<T>)
    requires NonNegative(e) && |f| == Volume(Buffer(e, h))
    requires |m| == Volume(RecvBox(e, h, 2, false).size) && |m'| == Volume(RecvBox(e, h, 2, true).size)
    ensures |m| + |m'| <= |f|
    ensures Unpack(f, Buffer(e, h), RecvBox(e, h, 2, false), m, RecvBox(e, h, 2, true), m') ==
        m + f[|m|..|f| - |m'|] + m'
  {
    var n, b, b' := Buffer(e, h), RecvBox(e, h, 2, false), RecvBox(e, h, 2, true);
    SlabBounds(n, b);
    SlabBounds(n, b');
    assert n.x * n.y * b.at.z == 0;
    assert b'.at.z + b'.size.z == n.z;
    ProductMonotone(n.x * n.y, b.size.z, b'.at.z) by {
      ProductNonNegative(n.x, n.y);
    }
    var r := Unpack(f, n, b, m, b', m');
    forall i | 0 <= i < |f| ensures r[i] == (m + f[|m|..|f| - |m'|] + m')[i] {
      FlatUnflat(i, n);
      var p := Unflat(i, n);
      UnpackAt(f, n, b, m, b', m', p);
      SlabMember(n, b, p);
      SlabMember(n, b', p);
    }
  }

  lemma SlabInside(n: V3, b: Box, p: V3)
    requires Slab(n, b) && Inside(p, n) && InBox(p, b)
    ensures var first := n.x * n.y * b.at.z;
            Flat(p, n) == first + Slot(p, b) && first <= Flat(p, n) < first + Volume(b.size)
  {
    var q := Minus(p, b.at);
    assert Plus(b.at, q) == p;
    SlabFlat(n, b, q);
    FlatBounds(q, b.size);
  }

  /** The index of a cell lies among those of its plane. */
  lemma PlaneBounds(n: V3, p: V3)
    requires Inside(p, n)
    ensures n.x * n.y * p.z <= Flat(p, n) < n.x * n.y * (p.z + 1)
  {
    SlotForm(p, n);
    DigitsBound(p.x, n.x, p.y, n.y);
    assert n.x * n.y * (p.z + 1) == n.x * n.y * p.z + n.x * n.y;
  }

  lemma SlabOutside(n: V3, b: Box, p: V3)
    requires Slab(n, b) && Inside(p, n) && !InBox(p, b)
    ensures Flat(p, n) < n.x * n.y * b.at.z || n.x * n.y * (b.at.z + b.size.z) <= Flat(p, n)
  {
    PlaneBounds(n, p);
    ProductNonNegative(n.x, n.y);
    if p.z < b.at.z {
      ProductMonotone(n.x * n.y, p.z + 1, b.at.z);
    } else {
      ProductMonotone(n.x * n.y, b.at.z + b.size.z, p.z);
    }
  }

  /** A cell lies in a slab exactly when its index lies in the slab's range. */
  lemma SlabMember(n: V3, b: Box, p: V3)
    requires Slab(n, b) && Inside(p, n)
    ensures var first := n.x * n.y * b.at.z;
            && InBox(p, b) == (first <= Flat(p, n) < first + Volume(b.size))
            && (InBox(p, b) ==> Flat(p, n) == first + Slot(p, b))
  {
    SlabBounds(n, b);
    if InBox(p, b) {
      SlabInside(n, b, p);
    } else {
      SlabOutside(n, b, p);
    }
  }

  // ----- the halo shell -----

  function Interior(e: V3, h: Halos): Box { Box(V3(h.xl, h.yl, h.zl), e) }

  /** Every cell of the buffer that is not interior is received in exactly one stage from
      exactly one side; interior cells never are. */
  lemma ShellTiled(e: V3, h: Halos, p: V3)
    requires NonNegative(e) && Inside(p, Buffer(e, h))
    ensures InBox(p, Interior(e, h)) <==> forall dim: nat, left :: dim < 3 ==> !InBox(p, RecvBox(e, h, dim, left))
    ensures forall dim: nat, left, dim': nat, left' | dim < 3 && dim' < 3 ::
              InBox(p, RecvBox(e, h, dim, left)) && InBox(p, RecvBox(e, h, dim', left')) ==>
                  dim == dim' && left == left'
  {
    if !InBox(p, Interior(e, h)) {
      assert InBox(p, RecvBox(e, h, 0, true)) || InBox(p, RecvBox(e, h, 0, false))
          || InBox(p, RecvBox(e, h, 1, true)) || InBox(p, RecvBox(e, h, 1, false))
          || InBox(p, RecvBox(e, h, 2, true)) || InBox(p, RecvBox(e, h, 2, false));
    }
  }

  function RecvSize(e: V3, h: Halos, dim: nat, left: bool): nat
    requires NonNegative(e) && dim < 3
  {
    Volume(RecvBox(e, h, dim, left).size)
  }

  /** The element count a run reports is the number of elements the six messages carry. */
  lemma ReportedCount(e: V3, h: Halos)
    requires NonNegative(e)
    ensures RecvSize(e, h, 0, true) + RecvSize(e, h, 0, false) + RecvSize(e, h, 1, true) + RecvSize(e, h, 1, false)
            + RecvSize(e, h, 2, true) + RecvSize(e, h, 2, false)
         == (e.x + h.xl + h.xr) * (e.y + h.yl + h.yr) * (e.z + h.zl + h.zr) - e.x * e.y * e.z
  {
    var n := Buffer(e, h);
    Spread(h.xr, h.xl, e.y, e.z);
    Spread3(n.x, h.yr, h.yl, e.z);
    var a := n.x * n.y;
    assert a * h.zr + a * h.zl + a * e.z == a * n.z;
    assert n.x * (h.yr + h.yl) * e.z + n.x * e.y * e.z == a * e.z by {
      assert n.x * (h.yr + h.yl) + n.x * e.y == a;
    }
    assert (h.xr + h.xl) * e.y * e.z + e.x * e.y * e.z == n.x * e.y * e.z by {
      assert (h.xr + h.xl) * e.y + e.x * e.y == n.x * e.y;
    }
  }

  lemma Spread(a: int, b: int, y: int, z: int)
    ensures a * y * z + b * y * z == (a + b) * y * z
  {
    assert a * y + b * y == (a + b) * y;
  }

  lemma Spread3(x: int, a: int, b: int, z: int)
    ensures x * a * z + x * b * z == x * (a + b) * z
  {
    assert x * a + x * b == x * (a + b);
  }
}
