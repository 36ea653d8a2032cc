/** Sending from the field itself while receives write into it, as the datatype exchange does
    and, in z, the exchange without packing. */
module InPlace {
  import opened Grid
  import opened Layouts
  import opened Regions
  import opened StagedExchange

  /** Two buffers that differ at most where the messages of a stage are received. */
  ghost predicate DifferInHalos<T>(f: seq<T>, g: seq<T>, e: V3, h: Halos, dim: nat)
    requires NonNegative(e) && dim < 3
  {
    var n := Buffer(e, h);
    && |f| == |g| == Volume(n)
    && forall p {:trigger At(g, n, p)} ::
         Inside(p, n) && !InBox(p, RecvBox(e, h, dim, true)) && !InBox(p, RecvBox(e, h, dim, false)) ==>
             At(g, n, p) == At(f, n, p)
  }

  /** However much of a stage has been received, what it sends reads the same. */
  ghost predicate SendsUndisturbed<T(!new)>(e: V3, h: Halos, dim: nat)
    requires NonNegative(e) && dim < 3
  {
    forall f: seq<T>, g: seq<T>, left
      {:trigger Pack(f, Buffer(e, h), SendBox(e, h, dim, left)), Pack(g, Buffer(e, h), SendBox(e, h, dim, left))} ::
      DifferInHalos(f, g, e, h, dim) ==>
        Pack(g, Buffer(e, h), SendBox(e, h, dim, left)) == Pack(f, Buffer(e, h), SendBox(e, h, dim, left))
  }

  /** No cell is both sent and received in the stage. */
  ghost predicate Clear(e: V3, h: Halos, dim: nat)
    requires dim < 3
  {
    forall p, left, left' :: InBox(p, SendBox(e, h, dim, left)) ==> !InBox(p, RecvBox(e, h, dim, left'))
  }

  /** Neither halo of the dimension is wider than the block, or the messages are empty. */
  predicate Narrow(e: V3, h: Halos, dim: nat)
    requires dim < 3
  {
    var n := Buffer(e, h);
    match dim
    case 0 => (h.xl <= e.x && h.xr <= e.x) || e.y == 0 || e.z == 0
    case 1 => (h.yl <= e.y && h.yr <= e.y) || n.x == 0 || e.z == 0
    case _ => (h.zl <= e.z && h.zr <= e.z) || n.x == 0 || n.y == 0
  }

  /** A cell that a stage both sends and receives. */
  function Shared(e: V3, h: Halos, dim: nat): (V3, bool)
    requires dim < 3
  {
    match dim
    case 0 => if h.xl > e.x then (V3(e.x, h.yl, h.zl), false) else (V3(h.xl + e.x, h.yl, h.zl), true)
    case 1 => if h.yl > e.y then (V3(0, e.y, h.zl), false) else (V3(0, h.yl + e.y, h.zl), true)
    case _ => if h.zl > e.z then (V3(0, 0, e.z), false) else (V3(0, 0, h.zl + e.z), true)
  }

  lemma SharedIsBoth(e: V3, h: Halos, dim: nat)
    requires NonNegative(e) && dim < 3 && !Narrow(e, h, dim)
    ensures var (p, left) := Shared(e, h, dim);
            InBox(p, SendBox(e, h, dim, left))
                && (InBox(p, RecvBox(e, h, dim, left)) || InBox(p, RecvBox(e, h, dim, !left)))
  {
  }

  lemma ClearIff(e: V3, h: Halos, dim: nat)
    requires NonNegative(e) && dim < 3
    ensures Clear(e, h, dim) <==> Narrow(e, h, dim)
  {
    if !Narrow(e, h, dim) {
      SharedIsBoth(e, h, dim);
    }
  }

  /** Any part of the unpacking differs from the field in the halos of the stage only. */
  lemma PartlyReceived<T>(f: seq<T>, e: V3, h: Halos, dim: nat, m: seq<T>, k: int, m': seq<T>, k': int)
    requires NonNegative(e) && dim < 3 && |f| == Volume(Buffer(e, h))
    requires |m| == Volume(RecvBox(e, h, dim, false).size) && |m'| == Volume(RecvBox(e, h, dim, true).size)
    ensures var g := Filled(f, Buffer(e, h), RecvBox(e, h, dim, false), m, k, RecvBox(e, h, dim, true), m', k');
            DifferInHalos(f, g, e, h, dim)
  {
    var n := Buffer(e, h);
    var g := Filled(f, n, RecvBox(e, h, dim, false), m, k, RecvBox(e, h, dim, true), m', k');
    forall p | Inside(p, n) && !InBox(p, RecvBox(e, h, dim, true)) && !InBox(p, RecvBox(e, h, dim, false))
      ensures At(g, n, p) == At(f, n, p)
    {
      FlatBounds(p, n);
      UnflatFlat(p, n);
    }
  }

  lemma SameMessage<T>(f: seq<T>, g: seq<T>, e: V3, h: Halos, dim: nat, left: bool)
    requires NonNegative(e) && dim < 3 && Clear(e, h, dim) && DifferInHalos(f, g, e, h, dim)
    ensures Pack(g, Buffer(e, h), SendBox(e, h, dim, left)) == Pack(f, Buffer(e, h), SendBox(e, h, dim, left))
  {
    var n, b := Buffer(e, h), SendBox(e, h, dim, left);
    forall i | 0 <= i < Volume(b.size) ensures Pack(g, n, b)[i] == Pack(f, n, b)[i] {
      FlatUnflat(i, b.size);
      var q := Unflat(i, b.size);
      var p := Plus(b.at, q);
      PackAt(f, n, b, q);
      PackAt(g, n, b, q);
      assert InBox(p, b);
      assert At(g, n, p) == At(f, n, p);
    }
  }

  lemma NarrowUndisturbed<T(!new)>(e: V3, h: Halos, dim: nat)
    requires NonNegative(e) && dim < 3 && Narrow(e, h, dim)
    ensures SendsUndisturbed<T>(e, h, dim)
  {
    ClearIff(e, h, dim);
    forall f: seq<T>, g: seq<T>, left | DifferInHalos(f, g, e, h, dim)
      ensures Pack(g, Buffer(e, h), SendBox(e, h, dim, left)) == Pack(f, Buffer(e, h), SendBox(e, h, dim, left))
    {
      SameMessage(f, g, e, h, dim, left);
    }
  }

  /** Any field can be disturbed: one cell, received while it is being sent. */
  lemma Disturb(f: seq<int>, e: V3, h: Halos, dim: nat) returns (g: seq<int>, left: bool)
    requires NonNegative(e) && dim < 3 && !Narrow(e, h, dim) && |f| == Volume(Buffer(e, h))
    ensures DifferInHalos(f, g, e, h, dim)
    ensures Pack(g, Buffer(e, h), SendBox(e, h, dim, left)) != Pack(f, Buffer(e, h), SendBox(e, h, dim, left))
  {
    var n := Buffer(e, h);
    var p := Shared(e, h, dim).0;
    left := Shared(e, h, dim).1;
    var b := SendBox(e, h, dim, left);
    SharedIsBoth(e, h, dim);
    FlatBounds(p, n);
    g := f[Flat(p, n) := f[Flat(p, n)] + 1];
    OneCellDiffers(f, g, e, h, dim, p);
    PackAt(f, n, b, Minus(p, b.at));
    PackAt(g, n, b, Minus(p, b.at));
    assert Plus(b.at, Minus(p, b.at)) == p;
  }

  lemma SharedDisturbs(e: V3, h: Halos, dim: nat)
    requires NonNegative(e) && dim < 3 && !Narrow(e, h, dim)
    ensures !SendsUndisturbed<int>(e, h, dim)
  {
    var f := seq(Volume(Buffer(e, h)), _ => 0);
    var g, left := Disturb(f, e, h, dim);
  }

  lemma OneCellDiffers(f: seq<int>, g: seq<int>, e: V3, h: Halos, dim: nat, p: V3)
    requires NonNegative(e) && dim < 3 && Inside(p, Buffer(e, h)) && |f| == Volume(Buffer(e, h))
    requires InBox(p, RecvBox(e, h, dim, true)) || InBox(p, RecvBox(e, h, dim, false))
    requires 0 <= Flat(p, Buffer(e, h)) < |f| && g == f[Flat(p, Buffer(e, h)) := f[Flat(p, Buffer(e, h))] + 1]
    ensures DifferInHalos(f, g, e, h, dim)
  {
    var n := Buffer(e, h);
    forall q | Inside(q, n) && q != p ensures At(g, n, q) == At(f, n, q) {
      FlatBounds(q, n);
      if Flat(q, n) == Flat(p, n) {
        FlatInjective(q, p, n);
      }
    }
  }

  /** Sending in place is the same as packing before any message is received, whenever in the
      stage the cells are read, exactly when no halo is wider than the block it belongs to, or
      the messages are empty. */
  lemma InPlaceIff(e: V3, h: Halos, dim: nat)
    requires NonNegative(e) && dim < 3
    ensures SendsUndisturbed<int>(e, h, dim) <==> Narrow(e, h, dim)
  {
    if Narrow(e, h, dim) {
      NarrowUndisturbed<int>(e, h, dim);
    } else {
      SharedDisturbs(e, h, dim);
    }
  }

  /** Where the exchange is full after one round, every domain may send in place. */
  lemma FitsUndisturbed<T(!new)>(g: Layout, h: Halos, c: V3, dim: nat)
    requires WellFormed(g) && Fits(g, h) && Inside(c, Domains(g)) && dim < 3
    ensures SendsUndisturbed<T>(Extent(g, c), h, dim)
  {
    NarrowUndisturbed<T>(Extent(g, c), h, dim);
  }
}
