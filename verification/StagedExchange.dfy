/** The staged halo exchange in lockstep: three one-dimensional exchanges, each passing on
    what the earlier ones delivered. */
module StagedExchange {
  import opened Grid
  import opened Blocks
  import opened Layouts
  import opened Regions

  /** A field on the whole grid: the extended buffer of every domain. */
  type Family<T> = V3 -> seq<T>

  function Size(g: Layout, h: Halos, c: V3): V3
    requires Inside(c, Domains(g))
  {
    Buffer(Extent(g, c), h)
  }

  ghost predicate WellSized<T>(g: Layout, h: Halos, fam: Family<T>)
  {
    forall c :: Inside(c, Domains(g)) ==> |fam(c)| == Volume(Size(g, h, c))
  }

  /** The left or right neighbour of c in dimension dim. */
  function Nbr(g: Layout, c: V3, dim: nat, left: bool): (b: V3)
    requires Inside(c, Domains(g)) && dim < 3
    ensures Inside(b, Domains(g))
  {
    match dim
    case 0 => V3(if left then Left(g.x, c.x) else Right(g.x, c.x), c.y, c.z)
    case 1 => V3(c.x, if left then Left(g.y, c.y) else Right(g.y, c.y), c.z)
    case _ => V3(c.x, c.y, if left then Left(g.z, c.z) else Right(g.z, c.z))
  }

  lemma NbrInverse(g: Layout, c: V3, dim: nat, left: bool)
    requires Inside(c, Domains(g)) && dim < 3
    ensures Nbr(g, Nbr(g, c, dim, left), dim, !left) == c
  {
  }

  function Offset(dim: nat, d: int): V3
    requires dim < 3
  {
    match dim case 0 => V3(d, 0, 0) case 1 => V3(0, d, 0) case _ => V3(0, 0, d)
  }

  lemma NbrIsShift(g: Layout, c: V3, dim: nat, left: bool)
    requires Inside(c, Domains(g)) && dim < 3
    ensures Nbr(g, c, dim, left) == Shift(g, c, Offset(dim, if left then -1 else 1))
  {
  }

  /** Neighbours in one dimension agree on the size of the messages between them. */
  lemma SameMessageSize(g: Layout, h: Halos, c: V3, dim: nat, left: bool)
    requires Inside(c, Domains(g)) && dim < 3
    ensures var b := Nbr(g, c, dim, !left);
            SendBox(Extent(g, b), h, dim, left).size == RecvBox(Extent(g, c), h, dim, left).size
    ensures BoxIn(SendBox(Extent(g, c), h, dim, left), Size(g, h, c))
        && BoxIn(RecvBox(Extent(g, c), h, dim, left), Size(g, h, c))
  {
  }

  /** What c receives with the `left` (or right) message of stage dim. */
  function Message<T>(g: Layout, h: Halos, c: V3, dim: nat, left: bool, from: seq<T>): (m: seq<T>)
    requires Inside(c, Domains(g)) && dim < 3
    requires |from| == Volume(Size(g, h, Nbr(g, c, dim, !left)))
    ensures |m| == Volume(RecvBox(Extent(g, c), h, dim, left).size)
  {
    SameMessageSize(g, h, c, dim, left);
    var b := Nbr(g, c, dim, !left);
    SameMessageSize(g, h, b, dim, left);
    Pack(from, Size(g, h, b), SendBox(Extent(g, b), h, dim, left))
  }

  function Deliver<T>(g: Layout, h: Halos, c: V3, dim: nat, f: seq<T>, fromLeft: seq<T>, fromRight: seq<T>): (r: seq<T>)
    requires Inside(c, Domains(g)) && dim < 3 && |f| == Volume(Size(g, h, c))
    requires |fromLeft| == Volume(RecvBox(Extent(g, c), h, dim, false).size)
    requires |fromRight| == Volume(RecvBox(Extent(g, c), h, dim, true).size)
    ensures |r| == |f|
  {
    Unpack(f, Size(g, h, c), RecvBox(Extent(g, c), h, dim, false), fromLeft, RecvBox(Extent(g, c), h, dim, true),
        fromRight)
  }

  /** The buffer of c after m stages (x, y, z, x, ...), all domains in lockstep. */
  function After<T>(g: Layout, h: Halos, fam: Family<T>, m: nat, c: V3): (r: seq<T>)
    requires WellSized(g, h, fam) && Inside(c, Domains(g))
    ensures |r| == Volume(Size(g, h, c))
    decreases m
  {
    if m == 0 then fam(c) else
      var dim := (m - 1) % 3;
      Deliver(g, h, c, dim, After(g, h, fam, m - 1, c),
        Message(g, h, c, dim, false, After(g, h, fam, m - 1, Nbr(g, c, dim, true))),
        Message(g, h, c, dim, true, After(g, h, fam, m - 1, Nbr(g, c, dim, false))))
  }

  // ----- one stage, cell by cell -----

  function InnerY(g: Layout, h: Halos, c: V3, p: V3): bool
    requires Inside(c, Domains(g))
  {
    h.yl <= p.y < h.yl + Extent(g, c).y
  }

  function InnerZ(g: Layout, h: Halos, c: V3, p: V3): bool
    requires Inside(c, Domains(g))
  {
    h.zl <= p.z < h.zl + Extent(g, c).z
  }

  datatype Spot = Spot(dom: V3, cell: V3)

  ghost predicate IsSpot(g: Layout, h: Halos, s: Spot)
  {
    Inside(s.dom, Domains(g)) && Inside(s.cell, Size(g, h, s.dom))
  }

  function FromX(g: Layout, h: Halos, s: Spot): Spot
    requires Inside(s.dom, Domains(g))
  {
    var f := From(g.x, h.xl, s.dom.x, s.cell.x);
    Spot(s.dom.(x := f.block), s.cell.(x := f.cell))
  }

  function FromY(g: Layout, h: Halos, s: Spot): Spot
    requires Inside(s.dom, Domains(g))
  {
    var f := From(g.y, h.yl, s.dom.y, s.cell.y);
    Spot(s.dom.(y := f.block), s.cell.(y := f.cell))
  }

  function FromZ(g: Layout, h: Halos, s: Spot): Spot
    requires Inside(s.dom, Domains(g))
  {
    var f := From(g.z, h.zl, s.dom.z, s.cell.z);
    Spot(s.dom.(z := f.block), s.cell.(z := f.cell))
  }

  ghost function Value<T>(g: Layout, h: Halos, fam: Family<T>, m: nat, s: Spot): T
    requires WellSized(g, h, fam) && IsSpot(g, h, s)
  {
    At(After(g, h, fam, m, s.dom), Size(g, h, s.dom), s.cell)
  }

  lemma MessageAt<T>(g: Layout, h: Halos, c: V3, dim: nat, left: bool, from: seq<T>, q: V3)
    requires Inside(c, Domains(g)) && dim < 3
    requires |from| == Volume(Size(g, h, Nbr(g, c, dim, !left)))
    requires Inside(q, RecvBox(Extent(g, c), h, dim, left).size)
    ensures var b := Nbr(g, c, dim, !left);
            && Inside(Plus(SendBox(Extent(g, b), h, dim, left).at, q), Size(g, h, b))
            && At(Message(g, h, c, dim, left, from), RecvBox(Extent(g, c), h, dim, left).size, q)
               == At(from, Size(g, h, b), Plus(SendBox(Extent(g, b), h, dim, left).at, q))
  {
    var b := Nbr(g, c, dim, !left);
    SameMessageSize(g, h, c, dim, left);
    SameMessageSize(g, h, b, dim, left);
    PackAt(from, Size(g, h, b), SendBox(Extent(g, b), h, dim, left), q);
  }

  /** The cell that a stage of dimension dim moves to s; s itself if it is not received. */
  function Upstream(g: Layout, h: Halos, dim: nat, s: Spot): Spot
    requires Inside(s.dom, Domains(g)) && dim < 3
  {
    var c, e := s.dom, Extent(g, s.dom);
    var lo, hi := RecvBox(e, h, dim, false), RecvBox(e, h, dim, true);
    var l, r := Nbr(g, c, dim, true), Nbr(g, c, dim, false);
    if InBox(s.cell, lo) then Spot(l, Plus(SendBox(Extent(g, l), h, dim, false).at, Minus(s.cell, lo.at)))
    else if InBox(s.cell, hi) then Spot(r, Plus(SendBox(Extent(g, r), h, dim, true).at, Minus(s.cell, hi.at)))
    else s
  }

  lemma UpstreamIsSpot(g: Layout, h: Halos, dim: nat, s: Spot)
    requires IsSpot(g, h, s) && dim < 3
    ensures IsSpot(g, h, Upstream(g, h, dim, s))
  {
  }

  lemma DeliverCell<T>(g: Layout, h: Halos, dim: nat, f: seq<T>, fl: seq<T>, fr: seq<T>, s: Spot)
    requires dim < 3 && IsSpot(g, h, s) && |f| == Volume(Size(g, h, s.dom))
    requires |fl| == Volume(Size(g, h, Nbr(g, s.dom, dim, true)))
        && |fr| == Volume(Size(g, h, Nbr(g, s.dom, dim, false)))
    ensures var c, t := s.dom, Upstream(g, h, dim, s);
            var r := Deliver(g, h, c, dim, f, Message(g, h, c, dim, false, fl), Message(g, h, c, dim, true, fr));
            && IsSpot(g, h, t)
            && At(r, Size(g, h, c), s.cell) ==
               if InBox(s.cell, RecvBox(Extent(g, c), h, dim, false)) then At(fl, Size(g, h, t.dom), t.cell)
               else if InBox(s.cell, RecvBox(Extent(g, c), h, dim, true)) then At(fr, Size(g, h, t.dom), t.cell)
               else At(f, Size(g, h, c), s.cell)
  {
    var c, e := s.dom, Extent(g, s.dom);
    var lo, hi := RecvBox(e, h, dim, false), RecvBox(e, h, dim, true);
    var ml, mr := Message(g, h, c, dim, false, fl), Message(g, h, c, dim, true, fr);
    UnpackAt(f, Size(g, h, c), lo, ml, hi, mr, s.cell);
    if InBox(s.cell, lo) {
      MessageAt(g, h, c, dim, false, fl, Minus(s.cell, lo.at));
    } else if InBox(s.cell, hi) {
      MessageAt(g, h, c, dim, true, fr, Minus(s.cell, hi.at));
    }
  }

  /** One stage, cell by cell. */
  lemma StageCell<T>(g: Layout, h: Halos, fam: Family<T>, m: nat, s: Spot)
    requires WellSized(g, h, fam) && IsSpot(g, h, s)
    ensures IsSpot(g, h, Upstream(g, h, m % 3, s))
    ensures Value(g, h, fam, m + 1, s) == Value(g, h, fam, m, Upstream(g, h, m % 3, s))
  {
    var dim, c := m % 3, s.dom;
    DeliverCell(g, h, dim, After(g, h, fam, m, c), After(g, h, fam, m, Nbr(g, c, dim, true)),
        After(g, h, fam, m, Nbr(g, c, dim, false)), s);
  }

  lemma UpstreamX(g: Layout, h: Halos, s: Spot)
    requires IsSpot(g, h, s)
    ensures Upstream(g, h, 0, s) ==
            if InnerY(g, h, s.dom, s.cell) && InnerZ(g, h, s.dom, s.cell) then FromX(g, h, s) else s
  {
  }

  lemma UpstreamY(g: Layout, h: Halos, s: Spot)
    requires IsSpot(g, h, s)
    ensures Upstream(g, h, 1, s) == if InnerZ(g, h, s.dom, s.cell) then FromY(g, h, s) else s
  {
  }

  lemma UpstreamZ(g: Layout, h: Halos, s: Spot)
    requires IsSpot(g, h, s)
    ensures Upstream(g, h, 2, s) == FromZ(g, h, s)
  {
  }

  /** Where a cell comes from in three stages. */
  function Source(g: Layout, h: Halos, s: Spot): Spot
    requires Inside(s.dom, Domains(g))
  {
    FromX(g, h, FromY(g, h, FromZ(g, h, s)))
  }

  // ----- tracing a cell back to the initial field -----

  /** One step back: `hop(m, s)` is the cell that stage m moves to s. */
  type Hop = (nat, Spot) -> Spot

  ghost predicate HopAt(g: Layout, h: Halos, hop: Hop, m: nat, s: Spot) {
    IsSpot(g, h, s) ==> hop(m, s) == Upstream(g, h, m % 3, s)
  }

  ghost predicate IsHop(g: Layout, h: Halos, hop: Hop) {
    forall m: nat, s: Spot {:trigger HopAt(g, h, hop, m, s)} :: HopAt(g, h, hop, m, s)
  }

  lemma SomeHop(g: Layout, h: Halos) returns (hop: Hop)
    ensures IsHop(g, h, hop)
  {
    hop := (m: nat, s: Spot) => if Inside(s.dom, Domains(g)) then Upstream(g, h, m % 3, s) else s;
  }

  /** The initial cell that m stages move to s. */
  function Trace(hop: Hop, m: nat, s: Spot): Spot {
    if m == 0 then s else Trace(hop, m - 1, hop(m - 1, s))
  }

  lemma ThreeHops(hop: Hop, m: nat, s: Spot)
    ensures Trace(hop, m + 3, s) == Trace(hop, m, hop(m, hop(m + 1, hop(m + 2, s))))
  {
    assert Trace(hop, m + 3, s) == Trace(hop, m + 2, hop(m + 2, s));
    assert Trace(hop, m + 2, hop(m + 2, s)) == Trace(hop, m + 1, hop(m + 1, hop(m + 2, s)));
  }

  ghost function Initial<T>(g: Layout, h: Halos, fam: Family<T>, s: Spot): T
    requires WellSized(g, h, fam) && IsSpot(g, h, s)
  {
    At(fam(s.dom), Size(g, h, s.dom), s.cell)
  }

  /** The exchange moves cells and never computes: every cell after m stages is an initial cell. */
  lemma {:induction false} ValueIsTraced<T>(g: Layout, h: Halos, hop: Hop, fam: Family<T>, m: nat, s: Spot)
    requires IsHop(g, h, hop) && WellSized(g, h, fam) && IsSpot(g, h, s)
    ensures IsSpot(g, h, Trace(hop, m, s))
    ensures Value(g, h, fam, m, s) == Initial(g, h, fam, Trace(hop, m, s))
    decreases m
  {
    if m > 0 {
      assert HopAt(g, h, hop, m - 1, s);
      StageCell(g, h, fam, m - 1, s);
      ValueIsTraced(g, h, hop, fam, m - 1, hop(m - 1, s));
    }
  }

  // ----- three stages -----

  /** No halo is wider than any block. */
  ghost predicate Fits(g: Layout, h: Halos) {
    HaloFits(g.x, h.xl, h.xr) && HaloFits(g.y, h.yl, h.yr) && HaloFits(g.z, h.zl, h.zr)
  }

  function Low(h: Halos): V3 { V3(h.xl, h.yl, h.zl) }

  ghost predicate IsInterior(g: Layout, h: Halos, s: Spot) {
    IsSpot(g, h, s) && InBox(s.cell, Box(Low(h), Extent(g, s.dom)))
  }

  /** Position of a buffer cell in the global grid, before wrapping. */
  function Position(g: Layout, h: Halos, s: Spot): V3
    requires WellFormed(g) && Inside(s.dom, Domains(g))
  {
    Minus(Plus(Origin(g, s.dom), s.cell), Low(h))
  }

  function WrapPosition(g: Layout, p: V3): V3
    requires WellFormed(g)
  {
    V3(p.x % g.cells.x, p.y % g.cells.y, p.z % g.cells.z)
  }

  lemma SourceIsWrapped(g: Layout, h: Halos, s: Spot)
    requires WellFormed(g) && Fits(g, h) && IsSpot(g, h, s)
    ensures IsInterior(g, h, Source(g, h, s))
    ensures Position(g, h, Source(g, h, s)) == WrapPosition(g, Position(g, h, s))
  {
    FromIsWrapped(g.x, g.cells.x, h.xl, h.xr, s.dom.x, s.cell.x);
    FromIsWrapped(g.y, g.cells.y, h.yl, h.yr, s.dom.y, s.cell.y);
    FromIsWrapped(g.z, g.cells.z, h.zl, h.zr, s.dom.z, s.cell.z);
  }

  /** No stage moves anything into an interior cell. */
  lemma {:induction false} InteriorTrace(g: Layout, h: Halos, hop: Hop, m: nat, s: Spot)
    requires IsHop(g, h, hop) && IsInterior(g, h, s)
    ensures Trace(hop, m, s) == s
    decreases m
  {
    if m > 0 {
      assert HopAt(g, h, hop, m - 1, s);
      InteriorTrace(g, h, hop, m - 1, s);
    }
  }

  /** A z stage traces a cell to its source along z; a y stage does so if the cell is
      interior in z; an x stage if it is interior in y and z. */
  lemma HopZ(g: Layout, h: Halos, hop: Hop, m: nat, s: Spot)
    requires IsHop(g, h, hop) && IsSpot(g, h, s) && m % 3 == 2
    ensures hop(m, s) == FromZ(g, h, s) && IsSpot(g, h, hop(m, s))
  {
    assert HopAt(g, h, hop, m, s);
    UpstreamZ(g, h, s);
    UpstreamIsSpot(g, h, 2, s);
  }

  lemma HopY(g: Layout, h: Halos, hop: Hop, m: nat, s: Spot)
    requires IsHop(g, h, hop) && IsSpot(g, h, s) && m % 3 == 1
    ensures hop(m, s) == (if InnerZ(g, h, s.dom, s.cell) then FromY(g, h, s) else s) && IsSpot(g, h, hop(m, s))
  {
    assert HopAt(g, h, hop, m, s);
    UpstreamY(g, h, s);
    UpstreamIsSpot(g, h, 1, s);
  }

  lemma HopX(g: Layout, h: Halos, hop: Hop, m: nat, s: Spot)
    requires IsHop(g, h, hop) && IsSpot(g, h, s) && m % 3 == 0
    ensures hop(m, s) == (if InnerY(g, h, s.dom, s.cell) && InnerZ(g, h, s.dom, s.cell) then FromX(g, h, s) else s)
    ensures IsSpot(g, h, hop(m, s))
  {
    assert HopAt(g, h, hop, m, s);
    UpstreamX(g, h, s);
    UpstreamIsSpot(g, h, 0, s);
  }

  lemma InnerOnTheWay(g: Layout, h: Halos, s: Spot)
    requires WellFormed(g) && Fits(g, h) && IsSpot(g, h, s)
    ensures var s2 := FromZ(g, h, s); var s1 := FromY(g, h, s2);
            && Inside(s2.dom, Domains(g)) && InnerZ(g, h, s2.dom, s2.cell)
            && Inside(s1.dom, Domains(g)) && InnerZ(g, h, s1.dom, s1.cell) && InnerY(g, h, s1.dom, s1.cell)
  {
    FromIsWrapped(g.z, g.cells.z, h.zl, h.zr, s.dom.z, s.cell.z);
    FromIsWrapped(g.y, g.cells.y, h.yl, h.yr, s.dom.y, s.cell.y);
  }

  /** Three or more stages move every cell, halo or interior, from its source. */
  lemma StepTrace(g: Layout, h: Halos, hop: Hop, m: nat, s: Spot)
    requires IsHop(g, h, hop) && WellFormed(g) && Fits(g, h) && IsSpot(g, h, s) && m % 3 == 0
    ensures IsInterior(g, h, Source(g, h, s)) && Trace(hop, m + 3, s) == Source(g, h, s)
  {
    ThreeHops(hop, m, s);
    SourceIsWrapped(g, h, s);
    InnerOnTheWay(g, h, s);
    HopZ(g, h, hop, m + 2, s);
    HopY(g, h, hop, m + 1, FromZ(g, h, s));
    HopX(g, h, hop, m, FromY(g, h, FromZ(g, h, s)));
    InteriorTrace(g, h, hop, m, Source(g, h, s));
  }

  /** The value of global cell q: what its owner holds in its interior. */
  ghost predicate IsGlobalCell<T>(g: Layout, h: Halos, fam: Family<T>, q: V3, v: T)
    requires WellFormed(g) && WellSized(g, h, fam)
  {
    exists s :: IsInterior(g, h, s) && Position(g, h, s) == q && Initial(g, h, fam, s) == v
  }

  /** Every global cell is the position of exactly one interior cell. */
  lemma OneInterior(g: Layout, h: Halos, q: V3) returns (s: Spot)
    requires WellFormed(g) && Inside(q, g.cells)
    ensures IsInterior(g, h, s) && Position(g, h, s) == q
    ensures forall t :: IsInterior(g, h, t) && Position(g, h, t) == q ==> t == s
  {
    EveryCellOwned(g.x, g.cells.x, q.x);
    EveryCellOwned(g.y, g.cells.y, q.y);
    EveryCellOwned(g.z, g.cells.z, q.z);
    var i :| Owns(g.x, i, q.x);
    var j :| Owns(g.y, j, q.y);
    var k :| Owns(g.z, k, q.z);
    s := Spot(V3(i, j, k), Plus(Minus(q, Origin(g, V3(i, j, k))), Low(h)));
    forall t | IsInterior(g, h, t) && Position(g, h, t) == q ensures t == s {
      assert Owns(g.x, t.dom.x, q.x) && Owns(g.y, t.dom.y, q.y) && Owns(g.z, t.dom.z, q.z);
    }
  }

  lemma GlobalCellUnique<T>(g: Layout, h: Halos, fam: Family<T>, q: V3)
    requires WellFormed(g) && WellSized(g, h, fam) && Inside(q, g.cells)
    ensures exists v :: IsGlobalCell(g, h, fam, q, v)
    ensures forall v, v' :: IsGlobalCell(g, h, fam, q, v) && IsGlobalCell(g, h, fam, q, v') ==> v == v'
  {
    var s := OneInterior(g, h, q);
    assert IsGlobalCell(g, h, fam, q, Initial(g, h, fam, s));
  }

  /** After m stages every cell of every buffer -- interior, face, edge or corner -- holds the
      initial value of the periodically wrapped global cell. */
  ghost predicate FullyExchanged<T>(g: Layout, h: Halos, fam: Family<T>, m: nat)
    requires WellFormed(g) && WellSized(g, h, fam)
  {
    forall s :: IsSpot(g, h, s) ==> IsGlobalCell(g, h, fam, WrapPosition(g, Position(g, h, s)), Value(g, h, fam, m, s))
  }

  /** No number of stages changes an interior cell, whatever the halos. */
  lemma InteriorsKept<T>(g: Layout, h: Halos, fam: Family<T>, m: nat, s: Spot)
    requires WellSized(g, h, fam) && IsInterior(g, h, s)
    ensures Value(g, h, fam, m, s) == Initial(g, h, fam, s)
  {
    var hop := SomeHop(g, h);
    ValueIsTraced(g, h, hop, fam, m, s);
    InteriorTrace(g, h, hop, m, s);
  }

  lemma CellsComeFromSource<T>(g: Layout, h: Halos, fam: Family<T>, k: nat, s: Spot)
    requires WellFormed(g) && Fits(g, h) && WellSized(g, h, fam) && IsSpot(g, h, s) && 0 < k
    ensures IsInterior(g, h, Source(g, h, s))
    ensures Value(g, h, fam, 3 * k, s) == Initial(g, h, fam, Source(g, h, s))
  {
    var hop := SomeHop(g, h);
    StepTrace(g, h, hop, 3 * k - 3, s);
    ValueIsTraced(g, h, hop, fam, 3 * k, s);
  }

  /** The staged exchange is a full exchange, after the first and after every later step. */
  lemma StagedIsFull<T>(g: Layout, h: Halos, fam: Family<T>, k: nat)
    requires WellFormed(g) && Fits(g, h) && WellSized(g, h, fam) && 0 < k
    ensures FullyExchanged(g, h, fam, 3 * k)
  {
    forall s | IsSpot(g, h, s)
      ensures IsGlobalCell(g, h, fam, WrapPosition(g, Position(g, h, s)), Value(g, h, fam, 3 * k, s))
    {
      CellsComeFromSource(g, h, fam, k, s);
      SourceIsWrapped(g, h, s);
    }
  }

  // ----- a field that shows where cells come from -----

  /** All interior cells 0, all halo cells 1. */
  ghost function Marked(g: Layout, h: Halos): (fam: Family<int>)
    ensures WellSized(g, h, fam)
  {
    (c: V3) =>
      if Inside(c, Domains(g)) then
        seq(Volume(Size(g, h, c)), i requires 0 <= i < Volume(Size(g, h, c)) =>
          FlatUnflat(i, Size(g, h, c));
          if InBox(Unflat(i, Size(g, h, c)), Box(Low(h), Extent(g, c))) then 0 else 1)
      else []
  }

  lemma MarkedAt(g: Layout, h: Halos, s: Spot)
    requires IsSpot(g, h, s)
    ensures Initial(g, h, Marked(g, h), s) == if IsInterior(g, h, s) then 0 else 1
  {
    FlatBounds(s.cell, Size(g, h, s.dom));
    UnflatFlat(s.cell, Size(g, h, s.dom));
  }

  lemma MarkedGlobal(g: Layout, h: Halos, q: V3)
    requires WellFormed(g)
    ensures !IsGlobalCell(g, h, Marked(g, h), q, 1)
  {
    forall u | IsInterior(g, h, u) ensures Initial(g, h, Marked(g, h), u) != 1 {
      MarkedAt(g, h, u);
    }
  }

  lemma MarkedValue(g: Layout, h: Halos, hop: Hop, m: nat, s: Spot)
    requires IsHop(g, h, hop) && IsSpot(g, h, s) && !IsInterior(g, h, Trace(hop, m, s))
    ensures Value(g, h, Marked(g, h), m, s) == 1
  {
    ValueIsTraced(g, h, hop, Marked(g, h), m, s);
    MarkedAt(g, h, Trace(hop, m, s));
  }
}
