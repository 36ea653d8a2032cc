/** The fields a run starts from, and the check it makes after the first step. */
module SelfCheck {
  import opened Grid
  import opened Blocks
  import opened Layouts
  import opened Decomposition
  import opened Regions
  import opened StagedExchange

  /** The number that field i of n stores for global cell q. */
  function Number(q: V3, cells: V3, n: nat, i: nat): int { Flat(q, cells) * n + i }

  /** The initial buffer of field i: numbered interior, zero halos. */
  function Made(l: Layout, h: Halos, n: nat, i: nat, c: V3): (buf: seq<int>)
    requires WellFormed(l) && Inside(c, Domains(l))
    ensures |buf| == Volume(Size(l, h, c))
  {
    seq(Volume(Size(l, h, c)), k requires 0 <= k < Volume(Size(l, h, c)) =>
      FlatUnflat(k, Size(l, h, c));
      MadeCell(l, h, n, i, c, Unflat(k, Size(l, h, c))))
  }

  function MadeCell(l: Layout, h: Halos, n: nat, i: nat, c: V3, p: V3): int
    requires WellFormed(l) && Inside(c, Domains(l))
  {
    if InBox(p, Box(Low(h), Extent(l, c))) then Number(Position(l, h, Spot(c, p)), l.cells, n, i) else 0
  }

  lemma MadeAt(l: Layout, h: Halos, n: nat, i: nat, c: V3, p: V3)
    requires WellFormed(l) && Inside(c, Domains(l)) && Inside(p, Size(l, h, c))
    ensures At(Made(l, h, n, i, c), Size(l, h, c), p) == MadeCell(l, h, n, i, c, p)
  {
    FlatBounds(p, Size(l, h, c));
    UnflatFlat(p, Size(l, h, c));
  }

  // ----- make_fields -----

  ghost predicate FilledTo(buf: seq<int>, goal: seq<int>, n: V3, b: Box, k: int)
    requires NonNegative(n) && BoxIn(b, n) && |buf| == |goal| == Volume(n)
  {
    forall p {:trigger At(buf, n, p)} :: Inside(p, n) ==>
      At(buf, n, p) == if InBox(p, b) && Slot(p, b) < k then At(goal, n, p) else 0
  }

  lemma NextCell(buf: seq<int>, goal: seq<int>, n: V3, b: Box, q: V3)
    requires NonNegative(n) && BoxIn(b, n) && |buf| == |goal| == Volume(n) && Inside(q, b.size)
    requires FilledTo(buf, goal, n, b, Flat(q, b.size))
    ensures 0 <= Flat(Plus(b.at, q), n) < |buf|
    ensures FilledTo(buf[Flat(Plus(b.at, q), n) := At(goal, n, Plus(b.at, q))], goal, n, b, Flat(q, b.size) + 1)
  {
    var p0, k := Plus(b.at, q), Flat(q, b.size);
    FlatBounds(p0, n);
    var buf' := buf[Flat(p0, n) := At(goal, n, p0)];
    forall p | Inside(p, n)
      ensures At(buf', n, p) == if InBox(p, b) && Slot(p, b) < k + 1 then At(goal, n, p) else 0
    {
      FlatBounds(p, n);
      assert At(buf, n, p) == if InBox(p, b) && Slot(p, b) < k then At(goal, n, p) else 0;
      if Flat(p, n) == Flat(p0, n) {
        FlatInjective(p, p0, n);
      } else if InBox(p, b) && Slot(p, b) == k {
        FlatInjective(Minus(p, b.at), q, b.size);
        assert false;
      }
    }
  }

  ghost predicate MadeTo(l: Layout, h: Halos, numFields: nat, i: nat, c: V3, buf: seq<int>, k: int)
    requires WellFormed(l) && Inside(c, Domains(l))
  {
    && |buf| == Volume(Size(l, h, c))
    && FilledTo(buf, Made(l, h, numFields, i, c), Size(l, h, c), Box(Low(h), Extent(l, c)), k)
  }

  lemma MadeInterior(l: Layout, h: Halos, numFields: nat, i: nat, c: V3, q: V3)
    requires WellFormed(l) && Inside(c, Domains(l)) && Inside(q, Extent(l, c))
    ensures Inside(Plus(Low(h), q), Size(l, h, c))
    ensures At(Made(l, h, numFields, i, c), Size(l, h, c), Plus(Low(h), q)) ==
        Number(Plus(Origin(l, c), q), l.cells, numFields, i)
  {
    MadeAt(l, h, numFields, i, c, Plus(Low(h), q));
    assert Position(l, h, Spot(c, Plus(Low(h), q))) == Plus(Origin(l, c), q);
  }

  lemma NextMade(l: Layout, h: Halos, numFields: nat, i: nat, c: V3, buf: seq<int>, q: V3, idx: int, v: int)
    requires WellFormed(l) && Inside(c, Domains(l)) && Inside(q, Extent(l, c))
    requires MadeTo(l, h, numFields, i, c, buf, Flat(q, Extent(l, c)))
    requires idx == Flat(Plus(Low(h), q), Size(l, h, c)) && v == Number(Plus(Origin(l, c), q), l.cells, numFields, i)
    ensures 0 <= idx < |buf| && MadeTo(l, h, numFields, i, c, buf[idx := v], Flat(q, Extent(l, c)) + 1)
  {
    MadeInterior(l, h, numFields, i, c, q);
    NextCell(buf, Made(l, h, numFields, i, c), Size(l, h, c), Box(Low(h), Extent(l, c)), q);
  }

  /** The index and the number that make_fields works out for interior cell q. */
  lemma StoredAs(q: V3, d: Domain, h: Halos, n: V3, last: V3, cells: V3, numFields: nat, i: nat)
    requires last == Minus(cells, V3(1, 1, 1))
    ensures q.x + h.xl + n.x * (q.y + h.yl + n.y * (q.z + h.zl)) == Flat(Plus(Low(h), q), n)
    ensures (d.origin.x + q.x + (last.x + 1) * (d.origin.y + q.y + (last.y + 1) * (d.origin.z + q.z))) * numFields + i
            == Number(Plus(d.origin, q), cells, numFields, i)
  {
    assert last.x + 1 == cells.x && last.y + 1 == cells.y;
  }

  lemma NothingMade(l: Layout, h: Halos, numFields: nat, i: nat, c: V3, buf: seq<int>)
    requires WellFormed(l) && Inside(c, Domains(l)) && |buf| == Volume(Size(l, h, c))
    requires forall k :: 0 <= k < |buf| ==> buf[k] == 0
    ensures MadeTo(l, h, numFields, i, c, buf, 0)
  {
    var b := Box(Low(h), Extent(l, c));
    var n := Size(l, h, c);
    forall p | Inside(p, n) ensures At(buf, n, p) == 0 && !(InBox(p, b) && Slot(p, b) < 0) {
      FlatBounds(p, n);
      if InBox(p, b) {
        FlatBounds(Minus(p, b.at), b.size);
      }
    }
  }

  ghost predicate IsDomain(l: Layout, d: Domain)
  {
    WellFormed(l) && Inside(d.coord, Domains(l)) && d.origin == Origin(l, d.coord) && d.ext == Extent(l, d.coord)
  }

  method StoreCell(ghost l: Layout, d: Domain, h: Halos, n: V3, last: V3, numFields: nat, i: nat, buf: array<int>,
      x: int, y: int, z: int)
    requires IsDomain(l, d) && last == Minus(l.cells, V3(1, 1, 1)) && n == Size(l, h, d.coord)
    requires Inside(V3(x, y, z), d.ext) && MadeTo(l, h, numFields, i, d.coord, buf[..], Flat(V3(x, y, z), d.ext))
    modifies buf
    ensures MadeTo(l, h, numFields, i, d.coord, buf[..], Flat(V3(x, y, z), d.ext) + 1)
  {
    var idx := x + h.xl + n.x * (y + h.yl + n.y * (z + h.zl));
    var v := (d.origin.x + x + (last.x + 1) * (d.origin.y + y + (last.y + 1) * (d.origin.z + z))) * numFields + i;
    StoredAs(V3(x, y, z), d, h, n, last, l.cells, numFields, i);
    NextMade(l, h, numFields, i, d.coord, buf[..], V3(x, y, z), idx, v);
    ghost var before := buf[..];
    buf[idx] := v;
    assert buf[..] == before[idx := v];
  }

  /** The innermost loop of make_fields. */
  method StoreRow(ghost l: Layout, d: Domain, h: Halos, n: V3, last: V3, numFields: nat, i: nat, buf: array<int>,
      y: int, z: int)
    requires IsDomain(l, d) && last == Minus(l.cells, V3(1, 1, 1)) && n == Size(l, h, d.coord)
    requires 0 <= y < d.ext.y && 0 <= z < d.ext.z
    requires MadeTo(l, h, numFields, i, d.coord, buf[..], SlotStart(Box(Low(h), d.ext), y, z))
    modifies buf
    ensures MadeTo(l, h, numFields, i, d.coord, buf[..], SlotStart(Box(Low(h), d.ext), y + 1, z))
  {
    ghost var k := SlotStart(Box(Low(h), d.ext), y, z);
    for x := 0 to d.ext.x
      invariant MadeTo(l, h, numFields, i, d.coord, buf[..], k + x)
    {
      assert k + x == Flat(V3(x, y, z), d.ext);
      StoreCell(l, d, h, n, last, numFields, i, buf, x, y, z);
    }
    SlotRows(Box(Low(h), d.ext), y, z);
  }

  /** One field of make_fields, for domain d of the layout. */
  method MakeField(ghost l: Layout, d: Domain, h: Halos, last: V3, numFields: nat, i: nat) returns (buf: array<int>)
    requires IsDomain(l, d) && last == Minus(l.cells, V3(1, 1, 1))
    ensures fresh(buf) && buf[..] == Made(l, h, numFields, i, d.coord)
  {
    var n := V3(d.ext.x + h.xl + h.xr, d.ext.y + h.yl + h.yr, d.ext.z + h.zl + h.zr);
    ProductNonNegative(n.x, n.y);
    ProductNonNegative(n.x * n.y, n.z);
    buf := new int[n.x * n.y * n.z](_ => 0);
    ghost var b := Box(Low(h), d.ext);
    SlotRows(b, 0, 0);
    NothingMade(l, h, numFields, i, d.coord, buf[..]);
    for z := 0 to d.ext.z
      invariant MadeTo(l, h, numFields, i, d.coord, buf[..], SlotStart(b, 0, z))
    {
      for y := 0 to d.ext.y
        invariant MadeTo(l, h, numFields, i, d.coord, buf[..], SlotStart(b, y, z))
      {
        StoreRow(l, d, h, n, last, numFields, i, buf, y, z);
      }
      SlotRows(b, 0, z);
    }
    AllFilled(buf[..], Made(l, h, numFields, i, d.coord), n, b, l, h, numFields, i, d.coord);
  }

  lemma AllFilled(buf: seq<int>, goal: seq<int>, n: V3, b: Box, l: Layout, h: Halos, numFields: nat, i: nat, c: V3)
    requires WellFormed(l) && Inside(c, Domains(l)) && n == Size(l, h, c) && b == Box(Low(h), Extent(l, c))
    requires goal == Made(l, h, numFields, i, c) && |buf| == Volume(n)
    requires FilledTo(buf, goal, n, b, SlotStart(b, 0, b.size.z))
    ensures buf == goal
  {
    VolumeAsRows(b.size);
    forall k | 0 <= k < |buf| ensures buf[k] == goal[k] {
      FlatUnflat(k, n);
      var p := Unflat(k, n);
      assert At(buf, n, p) == buf[k];
      MadeAt(l, h, numFields, i, c, p);
      if InBox(p, b) {
        FlatBounds(Minus(p, b.at), b.size);
      }
    }
  }

  // ----- check -----

  /** First cell and extent of the piece that `check` compares on one axis, for offset d. */
  function First(d: int, lo: nat, ext: nat): int { if d < 0 then 0 else if d == 0 then lo else lo + ext }

  function Width(d: int, lo: nat, hi: nat, ext: nat): nat { if d < 0 then lo else if d == 0 then ext else hi }

  function FirstN(d: int, lo: nat, extN: nat): int { if d < 0 then extN - lo else 0 }

  function Firsts(d: V3, h: Halos, e: V3): V3
    requires NonNegative(e)
  {
    V3(First(d.x, h.xl, e.x), First(d.y, h.yl, e.y), First(d.z, h.zl, e.z))
  }

  function Widths(d: V3, h: Halos, e: V3): V3
    requires NonNegative(e)
  {
    V3(Width(d.x, h.xl, h.xr, e.x), Width(d.y, h.yl, h.yr, e.y), Width(d.z, h.zl, h.zr, e.z))
  }

  function FirstsN(d: V3, h: Halos, e: V3): V3
    requires NonNegative(e)
  {
    V3(FirstN(d.x, h.xl, e.x), FirstN(d.y, h.yl, e.y), FirstN(d.z, h.zl, e.z))
  }

  predicate Unit(d: V3) { -1 <= d.x <= 1 && -1 <= d.y <= 1 && -1 <= d.z <= 1 }

  lemma PieceFits(d: V3, h: Halos, e: V3, q: V3)
    requires NonNegative(e) && Unit(d) && Inside(q, Widths(d, h, e))
    ensures Inside(Plus(Firsts(d, h, e), q), Buffer(e, h))
  {
  }

  /** The piece of the buffer at `first` of the given width holds the numbers from `base` on. */
  ghost predicate PieceOk(buf: seq<int>, n: V3, first: V3, width: V3, base: V3, cells: V3, numFields: nat, i: nat) {
    && NonNegative(n) && |buf| == Volume(n)
    && forall q {:trigger Plus(first, q)} :: Inside(q, width) ==>
         Inside(Plus(first, q), n) && At(buf, n, Plus(first, q)) == Number(Plus(base, q), cells, numFields, i)
  }

  method CheckPiece(buf: array<int>, n: V3, first: V3, width: V3, base: V3, cells: V3, numFields: nat, i: nat)
      returns (ok: bool)
    requires NonNegative(n) && buf.Length == Volume(n)
    requires forall q {:trigger Plus(first, q)} :: Inside(q, width) ==> Inside(Plus(first, q), n)
    ensures ok <==> PieceOk(buf[..], n, first, width, base, cells, numFields, i)
  {
    var kk := 0;
    while kk < width.z
      invariant 0 <= kk
      invariant forall q {:trigger Plus(first, q)} :: Inside(q, width) && q.z < kk ==>
        At(buf[..], n, Plus(first, q)) == Number(Plus(base, q), cells, numFields, i)
    {
      var jj := 0;
      while jj < width.y
        invariant 0 <= jj
        invariant forall q {:trigger Plus(first, q)} :: Inside(q, width) && (q.z < kk || (q.z == kk && q.y < jj)) ==>
          At(buf[..], n, Plus(first, q)) == Number(Plus(base, q), cells, numFields, i)
      {
        var ii := 0;
        while ii < width.x
          invariant 0 <= ii
          invariant forall q {:trigger Plus(first, q)} ::
            Inside(q, width) && (q.z < kk || (q.z == kk && (q.y < jj || (q.y == jj && q.x < ii)))) ==>
            At(buf[..], n, Plus(first, q)) == Number(Plus(base, q), cells, numFields, i)
        {
          ghost var q := V3(ii, jj, kk);
          var p := V3(first.x + ii, first.y + jj, first.z + kk);
          assert p == Plus(first, q);
          FlatBounds(p, n);
          var expected := (base.x + ii + cells.x * (base.y + jj + cells.y * (base.z + kk))) * numFields + i;
          if buf[p.x + n.x * (p.y + n.y * p.z)] != expected {
            return false;
          }
          ii := ii + 1;
        }
        jj := jj + 1;
      }
      kk := kk + 1;
    }
    return true;
  }

  /** What `check` demands of one offset. */
  ghost predicate OffsetOk(l: Layout, h: Halos, c: V3, buf: seq<int>, numFields: nat, i: nat, d: V3)
    requires WellFormed(l) && Inside(c, Domains(l)) && Unit(d)
  {
    ShiftInverse(l, c, d);
    var b := Shift(l, c, d);
    PieceOk(buf, Size(l, h, c), Firsts(d, h, Extent(l, c)), Widths(d, h, Extent(l, c)),
            Plus(Origin(l, b), FirstsN(d, h, Extent(l, b))), l.cells, numFields, i)
  }

  ghost predicate FieldOk(l: Layout, h: Halos, c: V3, buf: seq<int>, numFields: nat, i: nat)
    requires WellFormed(l) && Inside(c, Domains(l))
  {
    forall z :: -1 <= z <= 1 ==> PlaneOk(l, h, c, buf, numFields, i, z)
  }

  ghost predicate PlaneOk(l: Layout, h: Halos, c: V3, buf: seq<int>, numFields: nat, i: nat, z: int)
    requires WellFormed(l) && Inside(c, Domains(l)) && -1 <= z <= 1
  {
    forall y :: -1 <= y <= 1 ==> LineOk(l, h, c, buf, numFields, i, y, z)
  }

  ghost predicate LineOk(l: Layout, h: Halos, c: V3, buf: seq<int>, numFields: nat, i: nat, y: int, z: int)
    requires WellFormed(l) && Inside(c, Domains(l)) && -1 <= y <= 1 && -1 <= z <= 1
  {
    forall x {:trigger V3(x, y, z)} :: -1 <= x <= 1 ==> OffsetOk(l, h, c, buf, numFields, i, V3(x, y, z))
  }

  lemma FieldOkOffsets(l: Layout, h: Halos, c: V3, buf: seq<int>, numFields: nat, i: nat)
    requires WellFormed(l) && Inside(c, Domains(l))
    ensures FieldOk(l, h, c, buf, numFields, i) <==> forall d :: Unit(d) ==> OffsetOk(l, h, c, buf, numFields, i, d)
  {
    if FieldOk(l, h, c, buf, numFields, i) {
      forall d | Unit(d) ensures OffsetOk(l, h, c, buf, numFields, i, d) {
        assert PlaneOk(l, h, c, buf, numFields, i, d.z);
        assert LineOk(l, h, c, buf, numFields, i, d.y, d.z);
        assert d == V3(d.x, d.y, d.z);
      }
    }
    if forall d :: Unit(d) ==> OffsetOk(l, h, c, buf, numFields, i, d) {
      forall z | -1 <= z <= 1 ensures PlaneOk(l, h, c, buf, numFields, i, z) {
        forall y | -1 <= y <= 1 ensures LineOk(l, h, c, buf, numFields, i, y, z) {
          forall x | -1 <= x <= 1 ensures OffsetOk(l, h, c, buf, numFields, i, V3(x, y, z)) {
            assert Unit(V3(x, y, z));
          }
        }
      }
    }
  }

  method CheckOffset(view: View, threadId: int, own: Domain, buf: array<int>, h: Halos, numFields: nat, i: nat,
      dx: int, dy: int, dz: int)
    returns (ok: bool)
    requires view.Valid() && 0 <= threadId < NumThreads(view.Cfg()) && Unit(V3(dx, dy, dz))
    requires WellFormed(LayoutOf(view.Cfg())) && own.coord == CoordOf(view.Cfg(), view.place, threadId)
    requires Inside(own.coord, Domains(LayoutOf(view.Cfg()))) && own.ext == Extent(LayoutOf(view.Cfg()), own.coord)
    requires buf.Length == Volume(Size(LayoutOf(view.Cfg()), h, own.coord))
    ensures ok <==> OffsetOk(LayoutOf(view.Cfg()), h, own.coord, buf[..], numFields, i, V3(dx, dy, dz))
  {
    ghost var l := LayoutOf(view.Cfg());
    ghost var d := V3(dx, dy, dz);
    ShiftInverse(l, own.coord, d);
    var n := view.Neighbor(threadId, dx, dy, dz);
    forall q {:trigger Plus(Firsts(d, h, own.ext), q)} | Inside(q, Widths(d, h, own.ext))
      ensures Inside(Plus(Firsts(d, h, own.ext), q), Buffer(own.ext, h))
    {
      PieceFits(d, h, own.ext, q);
    }
    var first := V3(First(dx, h.xl, own.ext.x), First(dy, h.yl, own.ext.y), First(dz, h.zl, own.ext.z));
    var width := V3(Width(dx, h.xl, h.xr, own.ext.x), Width(dy, h.yl, h.yr, own.ext.y),
        Width(dz, h.zl, h.zr, own.ext.z));
    var firstN := V3(FirstN(dx, h.xl, n.ext.x), FirstN(dy, h.yl, n.ext.y), FirstN(dz, h.zl, n.ext.z));
    var last := view.lastDomainCoord;
    ok := CheckPiece(buf, Buffer(own.ext, h), first, width, Plus(n.origin, firstN),
        V3(last.x + 1, last.y + 1, last.z + 1), numFields, i);
  }

  /** The three outer loops of check, innermost first. */
  method CheckLine(view: View, threadId: int, own: Domain, buf: array<int>, h: Halos, numFields: nat, i: nat,
      yn: int, zn: int) returns (ok: bool)
    requires view.Valid() && 0 <= threadId < NumThreads(view.Cfg()) && -1 <= yn <= 1 && -1 <= zn <= 1
    requires WellFormed(LayoutOf(view.Cfg())) && own.coord == CoordOf(view.Cfg(), view.place, threadId)
    requires Inside(own.coord, Domains(LayoutOf(view.Cfg()))) && own.ext == Extent(LayoutOf(view.Cfg()), own.coord)
    requires buf.Length == Volume(Size(LayoutOf(view.Cfg()), h, own.coord))
    ensures ok <==> LineOk(LayoutOf(view.Cfg()), h, own.coord, buf[..], numFields, i, yn, zn)
  {
    ghost var l := LayoutOf(view.Cfg());
    for xn := -1 to 2
      invariant forall x {:trigger V3(x, yn, zn)} :: -1 <= x < xn ==>
        OffsetOk(l, h, own.coord, buf[..], numFields, i, V3(x, yn, zn))
    {
      var good := CheckOffset(view, threadId, own, buf, h, numFields, i, xn, yn, zn);
      if !good {
        assert !OffsetOk(l, h, own.coord, buf[..], numFields, i, V3(xn, yn, zn));
        return false;
      }
    }
    return true;
  }

  method CheckPlane(view: View, threadId: int, own: Domain, buf: array<int>, h: Halos, numFields: nat, i: nat,
      zn: int) returns (ok: bool)
    requires view.Valid() && 0 <= threadId < NumThreads(view.Cfg()) && -1 <= zn <= 1
    requires WellFormed(LayoutOf(view.Cfg())) && own.coord == CoordOf(view.Cfg(), view.place, threadId)
    requires Inside(own.coord, Domains(LayoutOf(view.Cfg()))) && own.ext == Extent(LayoutOf(view.Cfg()), own.coord)
    requires buf.Length == Volume(Size(LayoutOf(view.Cfg()), h, own.coord))
    ensures ok <==> PlaneOk(LayoutOf(view.Cfg()), h, own.coord, buf[..], numFields, i, zn)
  {
    for yn := -1 to 2
      invariant forall y :: -1 <= y < yn ==> LineOk(LayoutOf(view.Cfg()), h, own.coord, buf[..], numFields, i, y, zn)
    {
      var good := CheckLine(view, threadId, own, buf, h, numFields, i, yn, zn);
      if !good {
        return false;
      }
    }
    return true;
  }

  method CheckField(view: View, threadId: int, own: Domain, buf: array<int>, h: Halos, numFields: nat, i: nat)
      returns (ok: bool)
    requires view.Valid() && 0 <= threadId < NumThreads(view.Cfg())
    requires WellFormed(LayoutOf(view.Cfg())) && own.coord == CoordOf(view.Cfg(), view.place, threadId)
    requires Inside(own.coord, Domains(LayoutOf(view.Cfg()))) && own.ext == Extent(LayoutOf(view.Cfg()), own.coord)
    requires buf.Length == Volume(Size(LayoutOf(view.Cfg()), h, own.coord))
    ensures ok <==> FieldOk(LayoutOf(view.Cfg()), h, own.coord, buf[..], numFields, i)
  {
    for zn := -1 to 2
      invariant forall z :: -1 <= z < zn ==> PlaneOk(LayoutOf(view.Cfg()), h, own.coord, buf[..], numFields, i, z)
    {
      var good := CheckPlane(view, threadId, own, buf, h, numFields, i, zn);
      if !good {
        return false;
      }
    }
    return true;
  }

  /** check(j): every field of the domain passes. */
  method Check(view: View, threadId: int, bufs: seq<array<int>>, h: Halos) returns (ok: bool)
    requires view.Valid() && 0 <= threadId < NumThreads(view.Cfg())
    requires WellFormed(LayoutOf(view.Cfg()))
        && Inside(CoordOf(view.Cfg(), view.place, threadId), Domains(LayoutOf(view.Cfg())))
    requires forall i :: 0 <= i < |bufs| ==>
        bufs[i].Length == Volume(Size(LayoutOf(view.Cfg()), h, CoordOf(view.Cfg(), view.place, threadId)))
    ensures ok <==> forall i :: 0 <= i < |bufs| ==>
      FieldOk(LayoutOf(view.Cfg()), h, CoordOf(view.Cfg(), view.place, threadId), bufs[i][..], |bufs|, i)
  {
    var own := view.DomainOf(threadId);
    view.NoOffset(threadId);
    for i := 0 to |bufs|
      invariant forall k :: 0 <= k < i ==>
        FieldOk(LayoutOf(view.Cfg()), h, CoordOf(view.Cfg(), view.place, threadId), bufs[k][..], |bufs|, k)
    {
      var good := CheckField(view, threadId, own, bufs[i], h, |bufs|, i);
      if !good {
        return false;
      }
    }
    return true;
  }

  // ----- what the check establishes -----

  lemma PieceFrom(a: Axis, g: nat, lo: nat, hi: nat, c: int, d: int, q: int)
    requires Tiles(a, g) && 0 <= c < |a.ext| && -1 <= d <= 1 && 0 <= q < Width(d, lo, hi, a.ext[c])
    ensures var s, b := From(a, lo, c, First(d, lo, a.ext[c]) + q), WrapBlock(|a.ext|, c + d);
            0 <= b < |a.ext| && s.block == b && a.org[b] + s.cell - lo == a.org[b] + FirstN(d, lo, a.ext[b]) + q
  {
  }

  lemma SourceOnAxes(l: Layout, h: Halos, c: V3, p: V3)
    requires WellFormed(l) && Inside(c, Domains(l)) && Inside(p, Size(l, h, c))
    ensures var s := Source(l, h, Spot(c, p));
            var fx, fy, fz := From(l.x, h.xl, c.x, p.x), From(l.y, h.yl, c.y, p.y), From(l.z, h.zl, c.z, p.z);
            s == Spot(V3(fx.block, fy.block, fz.block), V3(fx.cell, fy.cell, fz.cell))
  {
  }

  lemma PositionOnAxes(l: Layout, h: Halos, s: Spot, b: V3, first: V3, q: V3)
    requires WellFormed(l) && Inside(b, Domains(l)) && s.dom == b
    requires l.x.org[b.x] + s.cell.x - h.xl == l.x.org[b.x] + first.x + q.x
    requires l.y.org[b.y] + s.cell.y - h.yl == l.y.org[b.y] + first.y + q.y
    requires l.z.org[b.z] + s.cell.z - h.zl == l.z.org[b.z] + first.z + q.z
    ensures Position(l, h, s) == Plus(Plus(Origin(l, b), first), q)
  {
  }

  /** What the fully exchanged value of a piece's cell is: the neighbour's number. */
  lemma PieceSource(l: Layout, h: Halos, c: V3, d: V3, q: V3)
    requires WellFormed(l) && Inside(c, Domains(l)) && Unit(d) && Inside(q, Widths(d, h, Extent(l, c)))
    ensures Inside(Plus(Firsts(d, h, Extent(l, c)), q), Size(l, h, c)) && Inside(Shift(l, c, d), Domains(l))
    ensures var s := Source(l, h, Spot(c, Plus(Firsts(d, h, Extent(l, c)), q)));
            && Inside(s.dom, Domains(l))
            && Position(l, h, s) == Plus(Plus(Origin(l, Shift(l, c, d)), FirstsN(d, h, Extent(l, Shift(l, c, d)))), q)
  {
    var p, b := Plus(Firsts(d, h, Extent(l, c)), q), Shift(l, c, d);
    PieceFits(d, h, Extent(l, c), q);
    SourceOnAxes(l, h, c, p);
    var s := Source(l, h, Spot(c, p));
    PieceFrom(l.x, l.cells.x, h.xl, h.xr, c.x, d.x, q.x);
    PieceFrom(l.y, l.cells.y, h.yl, h.yr, c.y, d.y, q.y);
    PieceFrom(l.z, l.cells.z, h.zl, h.zr, c.z, d.z, q.z);
    PositionOnAxes(l, h, s, b, FirstsN(d, h, Extent(l, b)), q);
  }

  function PieceOnAxis(x: int, lo: nat, ext: nat): (int, int) {
    if x < lo then (-1, x) else if x < lo + ext then (0, x - lo) else (1, x - lo - ext)
  }

  /** The offset in whose piece a cell lies, and its place there. */
  function PieceOf(h: Halos, e: V3, p: V3): (V3, V3)
    requires NonNegative(e)
  {
    var (dx, qx) := PieceOnAxis(p.x, h.xl, e.x);
    var (dy, qy) := PieceOnAxis(p.y, h.yl, e.y);
    var (dz, qz) := PieceOnAxis(p.z, h.zl, e.z);
    (V3(dx, dy, dz), V3(qx, qy, qz))
  }

  lemma PieceCovers(h: Halos, e: V3, p: V3)
    requires NonNegative(e) && Inside(p, Buffer(e, h))
    ensures var (d, q) := PieceOf(h, e, p); Unit(d) && Inside(q, Widths(d, h, e)) && Plus(Firsts(d, h, e), q) == p
  {
  }

  /** The number a fully exchanged buffer holds in cell p. */
  function Expected(l: Layout, h: Halos, c: V3, p: V3, numFields: nat, i: nat): int
    requires WellFormed(l) && Inside(c, Domains(l))
  {
    Number(Position(l, h, Source(l, h, Spot(c, p))), l.cells, numFields, i)
  }

  /** Where the halos fit, that is the number of the wrapped global cell. */
  lemma ExpectedIsWrapped(l: Layout, h: Halos, c: V3, p: V3, numFields: nat, i: nat)
    requires WellFormed(l) && Fits(l, h) && IsSpot(l, h, Spot(c, p))
    ensures Expected(l, h, c, p, numFields, i) ==
            Number(WrapPosition(l, Position(l, h, Spot(c, p))), l.cells, numFields, i)
  {
    SourceIsWrapped(l, h, Spot(c, p));
  }

  lemma OffsetOkCells(l: Layout, h: Halos, c: V3, buf: seq<int>, numFields: nat, i: nat, d: V3)
    requires WellFormed(l) && Inside(c, Domains(l)) && Unit(d) && |buf| == Volume(Size(l, h, c))
    ensures OffsetOk(l, h, c, buf, numFields, i, d) <==>
            forall q {:trigger Plus(Firsts(d, h, Extent(l, c)), q)} :: Inside(q, Widths(d, h, Extent(l, c))) ==>
              && Inside(Plus(Firsts(d, h, Extent(l, c)), q), Size(l, h, c))
              && At(buf, Size(l, h, c), Plus(Firsts(d, h, Extent(l, c)), q)) ==
                  Expected(l, h, c, Plus(Firsts(d, h, Extent(l, c)), q), numFields, i)
  {
    var first, base := Firsts(d, h, Extent(l, c)),
        Plus(Origin(l, Shift(l, c, d)), FirstsN(d, h, Extent(l, Shift(l, c, d))));
    forall q {:trigger Plus(first, q)} | Inside(q, Widths(d, h, Extent(l, c)))
      ensures Inside(Plus(first, q), Size(l, h, c))
      ensures Expected(l, h, c, Plus(first, q), numFields, i) == Number(Plus(base, q), l.cells, numFields, i)
    {
      PieceSource(l, h, c, d, q);
    }
  }

  /** The check is exact: it passes if and only if every cell of the buffer, halo or
      interior, holds the number of the cell it should have come from. */
  lemma CheckIsExact(l: Layout, h: Halos, c: V3, buf: seq<int>, numFields: nat, i: nat)
    requires WellFormed(l) && Inside(c, Domains(l)) && |buf| == Volume(Size(l, h, c))
    ensures FieldOk(l, h, c, buf, numFields, i) <==>
            forall p :: Inside(p, Size(l, h, c)) ==> At(buf, Size(l, h, c), p) == Expected(l, h, c, p, numFields, i)
  {
    FieldOkOffsets(l, h, c, buf, numFields, i);
    if FieldOk(l, h, c, buf, numFields, i) {
      forall p | Inside(p, Size(l, h, c)) ensures At(buf, Size(l, h, c), p) == Expected(l, h, c, p, numFields, i) {
        PieceCovers(h, Extent(l, c), p);
        var (d, q) := PieceOf(h, Extent(l, c), p);
        assert OffsetOk(l, h, c, buf, numFields, i, d);
        OffsetOkCells(l, h, c, buf, numFields, i, d);
        assert Plus(Firsts(d, h, Extent(l, c)), q) == p;
      }
    }
    if forall p :: Inside(p, Size(l, h, c)) ==> At(buf, Size(l, h, c), p) == Expected(l, h, c, p, numFields, i) {
      forall d | Unit(d) ensures OffsetOk(l, h, c, buf, numFields, i, d) {
        OffsetOkCells(l, h, c, buf, numFields, i, d);
        forall q {:trigger Plus(Firsts(d, h, Extent(l, c)), q)} | Inside(q, Widths(d, h, Extent(l, c)))
          ensures Inside(Plus(Firsts(d, h, Extent(l, c)), q), Size(l, h, c))
        {
          PieceFits(d, h, Extent(l, c), q);
        }
      }
    }
  }

  /** The check is sound: a made field that has been exchanged at least once passes. */
  lemma ExchangedFieldPasses(l: Layout, h: Halos, numFields: nat, i: nat, fam: Family<int>, k: nat, c: V3)
    requires WellFormed(l) && Fits(l, h) && WellSized(l, h, fam) && 0 < k && Inside(c, Domains(l))
    requires forall b :: Inside(b, Domains(l)) ==> fam(b) == Made(l, h, numFields, i, b)
    ensures FieldOk(l, h, c, After(l, h, fam, 3 * k, c), numFields, i)
  {
    var buf := After(l, h, fam, 3 * k, c);
    forall p | Inside(p, Size(l, h, c)) ensures At(buf, Size(l, h, c), p) == Expected(l, h, c, p, numFields, i) {
      var s := Spot(c, p);
      CellsComeFromSource(l, h, fam, k, s);
      var t := Source(l, h, s);
      MadeAt(l, h, numFields, i, t.dom, t.cell);
      assert Value(l, h, fam, 3 * k, s) == At(buf, Size(l, h, c), p);
    }
    CheckIsExact(l, h, c, buf, numFields, i);
  }
}
