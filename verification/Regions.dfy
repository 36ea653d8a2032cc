/** The box-shaped regions of an extended buffer that a halo exchange packs and unpacks. */
module Regions {
  import opened Grid

  datatype Halos = Halos(xl: nat, xr: nat, yl: nat, yr: nat, zl: nat, zr: nat)

  datatype Box = Box(at: V3, size: V3)

  /** Size of the buffer of a domain of extent e: interior plus halos. */
  function Buffer(e: V3, h: Halos): V3 {
    V3(e.x + h.xl + h.xr, e.y + h.yl + h.yr, e.z + h.zl + h.zr)
  }

  predicate BoxIn(b: Box, n: V3) {
    && NonNegative(b.at) && NonNegative(b.size)
    && b.at.x + b.size.x <= n.x && b.at.y + b.size.y <= n.y && b.at.z + b.size.z <= n.z
  }

  predicate InBox(p: V3, b: Box) { Inside(Minus(p, b.at), b.size) }

  // ----- the regions of the packed exchange -----

  /** What a domain sends in dimension `dim`: to the left, the lowest interior cells; to the
      right, the highest.  Later dimensions include the halos filled by earlier ones. */
  function SendBox(e: V3, h: Halos, dim: nat, left: bool): Box
    requires dim < 3
  {
    var n := Buffer(e, h);
    match (dim, left)
    case (0, true) => Box(V3(h.xl, h.yl, h.zl), V3(h.xr, e.y, e.z))
    case (0, false) => Box(V3(e.x, h.yl, h.zl), V3(h.xl, e.y, e.z))
    case (1, true) => Box(V3(0, h.yl, h.zl), V3(n.x, h.yr, e.z))
    case (1, false) => Box(V3(0, e.y, h.zl), V3(n.x, h.yl, e.z))
    case (_, true) => Box(V3(0, 0, h.zl), V3(n.x, n.y, h.zr))
    case (_, false) => Box(V3(0, 0, e.z), V3(n.x, n.y, h.zl))
  }

  /** Where a domain puts the message its right neighbour sent to the left (`left`), or its
      left neighbour sent to the right. */
  function RecvBox(e: V3, h: Halos, dim: nat, left: bool): Box
    requires dim < 3
  {
    var n := Buffer(e, h);
    match (dim, left)
    case (0, true) => Box(V3(h.xl + e.x, h.yl, h.zl), V3(h.xr, e.y, e.z))
    case (0, false) => Box(V3(0, h.yl, h.zl), V3(h.xl, e.y, e.z))
    case (1, true) => Box(V3(0, h.yl + e.y, h.zl), V3(n.x, h.yr, e.z))
    case (1, false) => Box(V3(0, 0, h.zl), V3(n.x, h.yl, e.z))
    case (_, true) => Box(V3(0, 0, h.zl + e.z), V3(n.x, n.y, h.zr))
    case (_, false) => Box(V3(0, 0, 0), V3(n.x, n.y, h.zl))
  }

  // ----- packing and unpacking -----

  function At<T>(f: seq<T>, n: V3, p: V3): T
    requires Inside(p, n) && NonNegative(n) && |f| == Volume(n)
  {
    FlatBounds(p, n);
    f[Flat(p, n)]
  }

  /** Flat index in the buffer of the i-th cell of a box, x running fastest. */
  function CellIndex(n: V3, b: Box, i: nat): nat
    requires NonNegative(n) && BoxIn(b, n) && i < Volume(b.size)
    ensures CellIndex(n, b, i) < Volume(n)
  {
    FlatUnflat(i, b.size);
    FlatBounds(Plus(b.at, Unflat(i, b.size)), n);
    Flat(Plus(b.at, Unflat(i, b.size)), n)
  }

  function Pack<T>(f: seq<T>, n: V3, b: Box): (r: seq<T>)
    requires NonNegative(n) && BoxIn(b, n) && |f| == Volume(n)
    ensures |r| == Volume(b.size)
  {
    seq(Volume(b.size), i requires 0 <= i < Volume(b.size) => f[CellIndex(n, b, i)])
  }

  /** The number of the row of b on which p lies. */
  function RowOf(p: V3, b: Box): int { p.y - b.at.y + b.size.y * (p.z - b.at.z) }

  function Slot(p: V3, b: Box): int { Flat(Minus(p, b.at), b.size) }

  /** The buffer after the first k rows of b and the first k' rows of b' have been filled. */
  function Filled<T>(f: seq<T>, n: V3, b: Box, m: seq<T>, k: int, b': Box, m': seq<T>, k': int): (r: seq<T>)
    requires NonNegative(n) && |f| == Volume(n)
    requires NonNegative(b.size) && |m| == Volume(b.size) && NonNegative(b'.size) && |m'| == Volume(b'.size)
    ensures |r| == |f|
  {
    seq(|f|, i requires 0 <= i < |f| =>
      FlatUnflat(i, n);
      var p := Unflat(i, n);
      if InBox(p, b) && RowOf(p, b) < k then FlatBounds(Minus(p, b.at), b.size); m[Slot(p, b)]
      else if InBox(p, b') && RowOf(p, b') < k' then FlatBounds(Minus(p, b'.at), b'.size); m'[Slot(p, b')]
      else f[i])
  }

  /** The buffer after both messages of a stage have been unpacked. */
  function Unpack<T>(f: seq<T>, n: V3, b: Box, m: seq<T>, b': Box, m': seq<T>): (r: seq<T>)
    requires NonNegative(n) && |f| == Volume(n)
    requires NonNegative(b.size) && |m| == Volume(b.size) && NonNegative(b'.size) && |m'| == Volume(b'.size)
    ensures |r| == |f|
  {
    Filled(f, n, b, m, b.size.y * b.size.z, b', m', b'.size.y * b'.size.z)
  }

  /** Cell q of a packed box is cell b.at + q of the buffer. */
  lemma PackAt<T>(f: seq<T>, n: V3, b: Box, q: V3)
    requires NonNegative(n) && BoxIn(b, n) && |f| == Volume(n) && Inside(q, b.size)
    ensures At(Pack(f, n, b), b.size, q) == At(f, n, Plus(b.at, q))
  {
    FlatBounds(q, b.size);
    UnflatFlat(q, b.size);
  }

  lemma RowBound(p: V3, b: Box)
    requires InBox(p, b)
    ensures 0 <= RowOf(p, b) < b.size.y * b.size.z
  {
    DigitsBound(p.y - b.at.y, b.size.y, p.z - b.at.z, b.size.z);
  }

  /** Every cell after unpacking: from the message of its box, or unchanged. */
  lemma UnpackAt<T>(f: seq<T>, n: V3, b: Box, m: seq<T>, b': Box, m': seq<T>, p: V3)
    requires NonNegative(n) && |f| == Volume(n) && Inside(p, n)
    requires NonNegative(b.size) && |m| == Volume(b.size) && NonNegative(b'.size) && |m'| == Volume(b'.size)
    ensures At(Unpack(f, n, b, m, b', m'), n, p) ==
            if InBox(p, b) then At(m, b.size, Minus(p, b.at))
            else if InBox(p, b') then At(m', b'.size, Minus(p, b'.at))
            else At(f, n, p)
  {
    FlatBounds(p, n);
    UnflatFlat(p, n);
    if InBox(p, b) {
      RowBound(p, b);
    } else if InBox(p, b') {
      RowBound(p, b');
    }
  }

  // ----- one row at a time -----

  function Splice<T>(f: seq<T>, at: int, row: seq<T>): seq<T>
    requires 0 <= at && at + |row| <= |f|
  {
    f[..at] + row + f[at + |row|..]
  }

  function RowStart(n: V3, b: Box, y: int, z: int): int { Flat(V3(b.at.x, b.at.y + y, b.at.z + z), n) }

  function SlotStart(b: Box, y: int, z: int): int { b.size.x * (y + b.size.y * z) }

  /** Rows and planes of a message follow each other. */
  lemma SlotRows(b: Box, y: int, z: int)
    ensures SlotStart(b, y, z) + b.size.x == SlotStart(b, y + 1, z)
    ensures SlotStart(b, b.size.y, z) == SlotStart(b, 0, z + 1) && SlotStart(b, 0, 0) == 0
  {
    assert b.size.x * (y + b.size.y * z + 1) == b.size.x * (y + b.size.y * z) + b.size.x;
    assert b.size.y + b.size.y * z == b.size.y * (z + 1);
  }

  lemma SegmentFits(x: int, w: int, m: int, k: int, rows: int)
    requires 0 <= x && 0 <= w && x + w <= m && 0 <= k < rows
    ensures 0 <= x + m * k && x + m * k + w <= m * rows && m * (k + 1) == m * k + m
  {
    ProductNonNegative(m, k);
    ProductMonotone(m, k + 1, rows);
    assert m * (k + 1) == m * k + m;
  }

  lemma VolumeAsRows(n: V3)
    requires NonNegative(n)
    ensures Volume(n) == n.x * (n.y * n.z)
  {
    assert n.x * (n.y * n.z) == n.x * n.y * n.z;
  }

  /** A row of a box is a contiguous range, both in the buffer and in the packed message. */
  lemma RowBounds(n: V3, b: Box, y: int, z: int)
    requires NonNegative(n) && BoxIn(b, n) && 0 <= y < b.size.y && 0 <= z < b.size.z
    ensures 0 <= RowStart(n, b, y, z) && RowStart(n, b, y, z) + b.size.x <= Volume(n)
    ensures 0 <= SlotStart(b, y, z)
        && SlotStart(b, y, z) + b.size.x == b.size.x * (y + b.size.y * z + 1) <= Volume(b.size)
  {
    VolumeAsRows(n);
    VolumeAsRows(b.size);
    DigitsBound(y, b.size.y, z, b.size.z);
    SegmentFits(0, b.size.x, b.size.x, y + b.size.y * z, b.size.y * b.size.z);
    DigitsBound(b.at.y + y, n.y, b.at.z + z, n.z);
    SegmentFits(b.at.x, b.size.x, n.x, b.at.y + y + n.y * (b.at.z + z), n.y * n.z);
  }

  lemma PackedCell<T>(f: seq<T>, n: V3, b: Box, x: int, y: int, z: int)
    requires NonNegative(n) && BoxIn(b, n) && |f| == Volume(n) && Inside(V3(x, y, z), b.size)
    ensures 0 <= SlotStart(b, y, z) + x < Volume(b.size) && 0 <= RowStart(n, b, y, z) + x < |f|
    ensures Pack(f, n, b)[SlotStart(b, y, z) + x] == f[RowStart(n, b, y, z) + x]
  {
    var q := V3(x, y, z);
    FlatBounds(q, b.size);
    FlatBounds(Plus(b.at, q), n);
    PackAt(f, n, b, q);
  }

  lemma PackedRow<T>(f: seq<T>, n: V3, b: Box, y: int, z: int)
    requires NonNegative(n) && BoxIn(b, n) && |f| == Volume(n) && 0 <= y < b.size.y && 0 <= z < b.size.z
    ensures 0 <= RowStart(n, b, y, z) && RowStart(n, b, y, z) + b.size.x <= |f|
    ensures 0 <= SlotStart(b, y, z)
        && SlotStart(b, y, z) + b.size.x == b.size.x * (y + b.size.y * z + 1) <= Volume(b.size)
    ensures Pack(f, n, b)[SlotStart(b, y, z)..SlotStart(b, y, z) + b.size.x] ==
        f[RowStart(n, b, y, z)..RowStart(n, b, y, z) + b.size.x]
  {
    RowBounds(n, b, y, z);
    var s, r := SlotStart(b, y, z), RowStart(n, b, y, z);
    var packed, row := Pack(f, n, b)[s..s + b.size.x], f[r..r + b.size.x];
    forall x | 0 <= x < b.size.x ensures packed[x] == row[x] {
      PackedCell(f, n, b, x, y, z);
    }
  }

  /** Filling one more row of the first box is splicing that row into the buffer. */
  lemma FillRow<T>(f: seq<T>, n: V3, b: Box, m: seq<T>, y: int, z: int, b': Box, m': seq<T>, k': int)
    requires NonNegative(n) && BoxIn(b, n) && |f| == Volume(n) && 0 <= y < b.size.y && 0 <= z < b.size.z
    requires |m| == Volume(b.size) && NonNegative(b'.size) && |m'| == Volume(b'.size)
    ensures 0 <= RowStart(n, b, y, z) && RowStart(n, b, y, z) + b.size.x <= |f|
    ensures 0 <= SlotStart(b, y, z) && SlotStart(b, y, z) + b.size.x <= |m|
    ensures var k := y + b.size.y * z;
            Filled(f, n, b, m, k + 1, b', m', k') ==
            Splice(Filled(f, n, b, m, k, b', m', k'), RowStart(n, b, y, z),
                m[SlotStart(b, y, z)..SlotStart(b, y, z) + b.size.x])
  {
    RowBounds(n, b, y, z);
    var k, s, r := y + b.size.y * z, SlotStart(b, y, z), RowStart(n, b, y, z);
    var before, after := Filled(f, n, b, m, k, b', m', k'), Filled(f, n, b, m, k + 1, b', m', k');
    forall i | 0 <= i < |f|
      ensures after[i] == Splice(before, r, m[s..s + b.size.x])[i]
    {
      FlatUnflat(i, n);
      var p := Unflat(i, n);
      if r <= i < r + b.size.x {
        UnflatFlat(V3(b.at.x + i - r, b.at.y + y, b.at.z + z), n);
      } else if InBox(p, b) && RowOf(p, b) == k {
        SameRow(p, b, y, z);
        assert false;
      }
    }
  }

  lemma SameRow(p: V3, b: Box, y: int, z: int)
    requires InBox(p, b) && RowOf(p, b) == y + b.size.y * z && 0 <= y < b.size.y
    ensures p.y == b.at.y + y && p.z == b.at.z + z
  {
    DivModOf(y, b.size.y, z);
    DivModOf(p.y - b.at.y, b.size.y, p.z - b.at.z);
  }

  /** Boxes that share no cell can be filled in either order. */
  lemma FillCommutes<T>(f: seq<T>, n: V3, b: Box, m: seq<T>, k: int, b': Box, m': seq<T>, k': int)
    requires NonNegative(n) && |f| == Volume(n)
    requires NonNegative(b.size) && |m| == Volume(b.size) && NonNegative(b'.size) && |m'| == Volume(b'.size)
    requires forall p :: InBox(p, b) ==> !InBox(p, b')
    ensures Filled(f, n, b, m, k, b', m', k') == Filled(f, n, b', m', k', b, m, k)
  {
    forall i | 0 <= i < |f| ensures Filled(f, n, b, m, k, b', m', k')[i] == Filled(f, n, b', m', k', b, m, k)[i] {
      FlatUnflat(i, n);
    }
  }

  lemma FillNothing<T>(f: seq<T>, n: V3, b: Box, m: seq<T>, b': Box, m': seq<T>)
    requires NonNegative(n) && |f| == Volume(n)
    requires NonNegative(b.size) && |m| == Volume(b.size) && NonNegative(b'.size) && |m'| == Volume(b'.size)
    ensures Filled(f, n, b, m, 0, b', m', 0) == f
  {
    forall i | 0 <= i < |f| ensures Filled(f, n, b, m, 0, b', m', 0)[i] == f[i] {
      FlatUnflat(i, n);
      var p := Unflat(i, n);
      if InBox(p, b) {
        RowBound(p, b);
      }
      if InBox(p, b') {
        RowBound(p, b');
      }
    }
  }
}
