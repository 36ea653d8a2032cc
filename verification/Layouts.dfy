/** A periodic block layout of a three-dimensional grid: one axis per dimension. */
module Layouts {
  import opened Grid
  import opened Blocks

  datatype Layout = Layout(x: Axis, y: Axis, z: Axis, cells: V3)

  ghost predicate WellFormed(l: Layout) {
    && 0 < l.cells.x && 0 < l.cells.y && 0 < l.cells.z
    && Tiles(l.x, l.cells.x) && Tiles(l.y, l.cells.y) && Tiles(l.z, l.cells.z)
  }

  /** The grid of domains. */
  function Domains(l: Layout): V3 { V3(|l.x.ext|, |l.y.ext|, |l.z.ext|) }

  function Origin(l: Layout, c: V3): V3
    requires 0 <= c.x < |l.x.org| && 0 <= c.y < |l.y.org| && 0 <= c.z < |l.z.org|
  {
    V3(l.x.org[c.x], l.y.org[c.y], l.z.org[c.z])
  }

  function Extent(l: Layout, c: V3): V3
    requires Inside(c, Domains(l))
  {
    V3(l.x.ext[c.x], l.y.ext[c.y], l.z.ext[c.z])
  }

  function Shift(l: Layout, c: V3, d: V3): V3 {
    V3(WrapBlock(|l.x.ext|, c.x + d.x), WrapBlock(|l.y.ext|, c.y + d.y), WrapBlock(|l.z.ext|, c.z + d.z))
  }

  function Negate(d: V3): V3 { V3(-d.x, -d.y, -d.z) }

  /** An offset for which a single wrap suffices; {-1, 0, 1} always is one. */
  predicate Reaches(l: Layout, d: V3) {
    && -|l.x.ext| <= d.x <= |l.x.ext|
    && -|l.y.ext| <= d.y <= |l.y.ext|
    && -|l.z.ext| <= d.z <= |l.z.ext|
  }

  /** Offset d followed by -d is the identity. */
  lemma ShiftInverse(l: Layout, c: V3, d: V3)
    requires Inside(c, Domains(l)) && Reaches(l, d)
    ensures Inside(Shift(l, c, d), Domains(l))
    ensures Shift(l, Shift(l, c, d), Negate(d)) == c
  {
    WrapInverse(|l.x.ext|, c.x, d.x);
    WrapInverse(|l.y.ext|, c.y, d.y);
    WrapInverse(|l.z.ext|, c.z, d.z);
  }

  /** Every offset is a permutation of the domains: each domain is the neighbour of exactly one. */
  lemma ShiftPermutes(l: Layout, c: V3, d: V3)
    requires Inside(c, Domains(l)) && Reaches(l, d)
    ensures var b := Shift(l, c, Negate(d)); Inside(b, Domains(l)) && Shift(l, b, d) == c
    ensures forall b :: Inside(b, Domains(l)) && Shift(l, b, d) == c ==> b == Shift(l, c, Negate(d))
  {
    ShiftInverse(l, c, Negate(d));
    forall b | Inside(b, Domains(l)) && Shift(l, b, d) == c ensures b == Shift(l, c, Negate(d)) {
      ShiftInverse(l, b, d);
    }
  }
}
