/** Halos wider than a block: how many rounds of the staged exchange fill them. */
module RepeatedExchange {
  import opened Grid
  import opened Blocks
  import opened Layouts
  import opened Regions
  import opened StagedExchange

  // ----- one axis -----

  /** Where a place comes from in n moves along one axis. */
  function Walk(a: Axis, lo: nat, n: nat, p: Place): (r: Place)
    requires 0 <= p.block < |a.ext|
    ensures 0 <= r.block < |a.ext|
  {
    if n == 0 then p else Walk(a, lo, n - 1, From(a, lo, p.block, p.cell))
  }

  /** The extents of the n blocks to the left of block c, going round. */
  function LeftSum(a: Axis, c: int, n: nat): nat
    requires 0 <= c < |a.ext|
    decreases n
  {
    if n == 0 then 0 else a.ext[Left(a, c)] + LeftSum(a, Left(a, c), n - 1)
  }

  function RightSum(a: Axis, c: int, n: nat): nat
    requires 0 <= c < |a.ext|
    decreases n
  {
    if n == 0 then 0 else a.ext[Right(a, c)] + RightSum(a, Right(a, c), n - 1)
  }

  /** The halos are no wider than the next n blocks together, from every block. */
  ghost predicate Covers(a: Axis, lo: nat, hi: nat, n: nat) {
    forall c :: 0 <= c < |a.ext| ==> lo <= LeftSum(a, c, n) && hi <= RightSum(a, c, n)
  }

  lemma {:induction false} WalkStays(a: Axis, lo: nat, n: nat, p: Place)
    requires Interior(a, lo, p)
    ensures Walk(a, lo, n, p) == p
  {
    if n > 0 {
      WalkStays(a, lo, n - 1, p);
    }
  }

  lemma {:induction false} WalkMore(a: Axis, lo: nat, n: nat, m: nat, p: Place)
    requires 0 <= p.block < |a.ext| && n <= m && Interior(a, lo, Walk(a, lo, n, p))
    ensures Walk(a, lo, m, p) == Walk(a, lo, n, p)
  {
    if n == 0 {
      WalkStays(a, lo, m, p);
    } else {
      WalkMore(a, lo, n - 1, m - 1, From(a, lo, p.block, p.cell));
    }
  }

  lemma {:induction false} WalkLeft(a: Axis, lo: nat, n: nat, c: int, x: int)
    requires 0 <= c < |a.ext| && 0 <= x < lo
    ensures Interior(a, lo, Walk(a, lo, n, Place(c, x))) <==> lo <= x + LeftSum(a, c, n)
    decreases n
  {
    if n > 0 {
      var l := Left(a, c);
      if x + a.ext[l] >= lo {
        WalkStays(a, lo, n - 1, Place(l, x + a.ext[l]));
      } else {
        WalkLeft(a, lo, n - 1, l, x + a.ext[l]);
      }
    }
  }

  lemma {:induction false} WalkRight(a: Axis, lo: nat, n: nat, c: int, x: int)
    requires 0 <= c < |a.ext| && lo + a.ext[c] <= x
    ensures Interior(a, lo, Walk(a, lo, n, Place(c, x))) <==> x < lo + a.ext[c] + RightSum(a, c, n)
    decreases n
  {
    if n > 0 {
      var r := Right(a, c);
      if x - a.ext[c] < lo + a.ext[r] {
        WalkStays(a, lo, n - 1, Place(r, x - a.ext[c]));
      } else {
        WalkRight(a, lo, n - 1, r, x - a.ext[c]);
      }
    }
  }

  predicate InBuffer(a: Axis, lo: nat, hi: nat, p: Place) {
    0 <= p.block < |a.ext| && 0 <= p.cell < lo + a.ext[p.block] + hi
  }

  /** n moves bring every cell to an interior exactly when the next n blocks cover the halos. */
  lemma CoversIff(a: Axis, lo: nat, hi: nat, n: nat)
    ensures Covers(a, lo, hi, n) <==>
        forall p {:trigger Walk(a, lo, n, p)} :: InBuffer(a, lo, hi, p) ==> Interior(a, lo, Walk(a, lo, n, p))
  {
    if Covers(a, lo, hi, n) {
      forall p | InBuffer(a, lo, hi, p) ensures Interior(a, lo, Walk(a, lo, n, p)) {
        if p.cell < lo {
          WalkLeft(a, lo, n, p.block, p.cell);
        } else if p.cell >= lo + a.ext[p.block] {
          WalkRight(a, lo, n, p.block, p.cell);
        } else {
          WalkStays(a, lo, n, p);
        }
      }
    } else {
      var p := Uncovered(a, lo, hi, n);
    }
  }

  lemma Uncovered(a: Axis, lo: nat, hi: nat, n: nat) returns (p: Place)
    requires !Covers(a, lo, hi, n)
    ensures InBuffer(a, lo, hi, p) && !Interior(a, lo, Walk(a, lo, n, p))
  {
    var c :| 0 <= c < |a.ext| && !(lo <= LeftSum(a, c, n) && hi <= RightSum(a, c, n));
    if lo > LeftSum(a, c, n) {
      p := Place(c, 0);
      WalkLeft(a, lo, n, c, 0);
    } else {
      p := Place(c, lo + a.ext[c] + hi - 1);
      WalkRight(a, lo, n, c, p.cell);
    }
  }

  lemma FromShifts(a: Axis, g: nat, lo: nat, p: Place) returns (q: int)
    requires Tiles(a, g) && 0 <= p.block < |a.ext|
    ensures var r := From(a, lo, p.block, p.cell);
            a.org[r.block] + r.cell == a.org[p.block] + p.cell + g * q
  {
    var r := From(a, lo, p.block, p.cell);
    assert a.org[r.block + 1] == a.org[r.block] + a.ext[r.block];
    assert a.org[p.block + 1] == a.org[p.block] + a.ext[p.block];
    q := if p.cell < lo && p.block == 0 then 1
         else if p.cell >= lo + a.ext[p.block] && p.block == |a.ext| - 1 then -1
         else 0;
  }

  lemma Distribute(g: int, p: int, q: int)
    ensures g * (p + q) == g * p + g * q
  {
  }

  /** Every From moves by a multiple of the grid. */
  ghost predicate Shifting(a: Axis, g: nat, lo: nat) {
    forall p: Place {:trigger ShiftsAt(a, g, lo, p)} :: 0 <= p.block < |a.ext| && |a.ext| < |a.org| ==>
        ShiftsAt(a, g, lo, p)
  }

  ghost predicate ShiftsAt(a: Axis, g: nat, lo: nat, p: Place)
    requires 0 <= p.block < |a.ext| < |a.org|
  {
    var r := From(a, lo, p.block, p.cell);
    exists q :: a.org[r.block] + r.cell == a.org[p.block] + p.cell + g * q
  }

  lemma AxisShifts(a: Axis, g: nat, lo: nat)
    requires Tiles(a, g)
    ensures Shifting(a, g, lo)
  {
    forall p: Place | 0 <= p.block < |a.ext| ensures ShiftsAt(a, g, lo, p) {
      var q := FromShifts(a, g, lo, p);
    }
  }

  lemma {:induction false} WalkShifts(a: Axis, g: nat, lo: nat, n: nat, p: Place) returns (q: int)
    requires Shifting(a, g, lo) && 0 <= p.block < |a.ext| < |a.org|
    ensures var r := Walk(a, lo, n, p); a.org[r.block] + r.cell == a.org[p.block] + p.cell + g * q
    decreases n
  {
    if n == 0 {
      q := 0;
    } else {
      assert ShiftsAt(a, g, lo, p);
      var r := From(a, lo, p.block, p.cell);
      var q1 :| a.org[r.block] + r.cell == a.org[p.block] + p.cell + g * q1;
      var q2 := WalkShifts(a, g, lo, n - 1, r);
      q := q1 + q2;
      Distribute(g, q1, q2);
    }
  }

  /** The interior cell that moves arrive at is the wrapped global cell. */
  lemma WalkIsWrapped(a: Axis, g: nat, lo: nat, n: nat, p: Place)
    requires Tiles(a, g) && 0 < g && 0 <= p.block < |a.ext| && Interior(a, lo, Walk(a, lo, n, p))
    ensures var r := Walk(a, lo, n, p); a.org[r.block] + r.cell - lo == (a.org[p.block] + p.cell - lo) % g
  {
    var r := Walk(a, lo, n, p);
    AxisShifts(a, g, lo);
    var q := WalkShifts(a, g, lo, n, p);
    assert a.org[r.block + 1] == a.org[r.block] + a.ext[r.block];
    OrgMonotone(a, g, r.block + 1, |a.ext|);
    var v := a.org[r.block] + r.cell - lo;
    assert g * (-q) == -(g * q);
    DivModOf(v, g, -q);
  }

  // ----- rounds on three axes -----

  /** How many of k rounds move along y: those after whose z stage the place is interior in z. */
  function MovesY(g: Layout, h: Halos, k: nat, z: Place): nat
    requires 0 <= z.block < |g.z.ext|
  {
    if k == 0 then 0 else
      var z' := From(g.z, h.zl, z.block, z.cell);
      (if Interior(g.z, h.zl, z') then 1 else 0) + MovesY(g, h, k - 1, z')
  }

  /** And along x: those in which it is interior in z and in y. */
  function MovesX(g: Layout, h: Halos, k: nat, z: Place, y: Place): nat
    requires 0 <= z.block < |g.z.ext| && 0 <= y.block < |g.y.ext|
  {
    if k == 0 then 0 else
      var z' := From(g.z, h.zl, z.block, z.cell);
      var y' := if Interior(g.z, h.zl, z') then From(g.y, h.yl, y.block, y.cell) else y;
      (if Interior(g.z, h.zl, z') && Interior(g.y, h.yl, y') then 1 else 0) + MovesX(g, h, k - 1, z', y')
  }

  function AlongX(s: Spot): Place { Place(s.dom.x, s.cell.x) }
  function AlongY(s: Spot): Place { Place(s.dom.y, s.cell.y) }
  function AlongZ(s: Spot): Place { Place(s.dom.z, s.cell.z) }

  function Across(x: Place, y: Place, z: Place): Spot {
    Spot(V3(x.block, y.block, z.block), V3(x.cell, y.cell, z.cell))
  }

  /** Where a cell comes from in one round. */
  function Round(g: Layout, h: Halos, s: Spot): (r: Spot)
    requires Inside(s.dom, Domains(g))
    ensures Inside(r.dom, Domains(g))
  {
    var s2 := FromZ(g, h, s);
    var s1 := if InnerZ(g, h, s2.dom, s2.cell) then FromY(g, h, s2) else s2;
    if InnerY(g, h, s1.dom, s1.cell) && InnerZ(g, h, s1.dom, s1.cell) then FromX(g, h, s1) else s1
  }

  function Rounds(g: Layout, h: Halos, k: nat, s: Spot): (r: Spot)
    requires Inside(s.dom, Domains(g))
    ensures Inside(r.dom, Domains(g))
  {
    if k == 0 then s else Rounds(g, h, k - 1, Round(g, h, s))
  }

  lemma RoundAxes(g: Layout, h: Halos, s: Spot)
    requires Inside(s.dom, Domains(g))
    ensures var z := From(g.z, h.zl, s.dom.z, s.cell.z);
            var y := if Interior(g.z, h.zl, z) then From(g.y, h.yl, s.dom.y, s.cell.y) else AlongY(s);
            var x := if Interior(g.z, h.zl, z) && Interior(g.y, h.yl, y) then From(g.x, h.xl, s.dom.x, s.cell.x)
                     else AlongX(s);
            Round(g, h, s) == Across(x, y, z)
  {
  }

  /** After k rounds: k moves along z, fewer along y, fewest along x. */
  lemma {:induction false} RoundsAxes(g: Layout, h: Halos, k: nat, s: Spot)
    requires Inside(s.dom, Domains(g))
    ensures Rounds(g, h, k, s) ==
            Across(Walk(g.x, h.xl, MovesX(g, h, k, AlongZ(s), AlongY(s)), AlongX(s)),
                   Walk(g.y, h.yl, MovesY(g, h, k, AlongZ(s)), AlongY(s)),
                   Walk(g.z, h.zl, k, AlongZ(s)))
    decreases k
  {
    if k > 0 {
      RoundAxes(g, h, s);
      RoundsAxes(g, h, k - 1, Round(g, h, s));
    }
  }

  // ----- how many moves k rounds make -----

  lemma {:induction false} MovesYAtLeast(g: Layout, h: Halos, k: nat, z: Place, l: nat)
    requires 0 <= z.block < |g.z.ext| && 1 <= l && Interior(g.z, h.zl, Walk(g.z, h.zl, l, z))
    ensures MovesY(g, h, k, z) + l >= k + 1 || k == 0
    decreases k
  {
    if k > 0 {
      var z' := From(g.z, h.zl, z.block, z.cell);
      if l == 1 {
        assert Walk(g.z, h.zl, 1, z) == Walk(g.z, h.zl, 0, z');
        WalkStays(g.z, h.zl, 1, z');
        MovesYAtLeast(g, h, k - 1, z', 1);
      } else {
        MovesYAtLeast(g, h, k - 1, z', l - 1);
      }
    }
  }

  lemma {:induction false} MovesYAtMost(g: Layout, h: Halos, k: nat, z: Place, l: nat)
    requires 0 <= z.block < |g.z.ext| && (l == 0 || !Interior(g.z, h.zl, Walk(g.z, h.zl, l, z)))
    ensures MovesY(g, h, k, z) <= if k < l then 0 else k - l
    decreases k
  {
    if k > 0 {
      var z' := From(g.z, h.zl, z.block, z.cell);
      if l == 0 {
        MovesYAtMost(g, h, k - 1, z', 0);
      } else {
        if Interior(g.z, h.zl, z') {
          WalkStays(g.z, h.zl, l - 1, z');
        }
        MovesYAtMost(g, h, k - 1, z', l - 1);
      }
    }
  }

  lemma OneMove(a: Axis, lo: nat, p: Place)
    requires 0 <= p.block < |a.ext|
    ensures Walk(a, lo, 1, p) == From(a, lo, p.block, p.cell)
  {
    assert Walk(a, lo, 1, p) == Walk(a, lo, 0, From(a, lo, p.block, p.cell));
  }

  lemma OneMoreMove(a: Axis, lo: nat, n: nat, p: Place)
    requires 0 <= p.block < |a.ext| && Interior(a, lo, Walk(a, lo, n, p))
    ensures Interior(a, lo, Walk(a, lo, n, From(a, lo, p.block, p.cell)))
  {
    WalkMore(a, lo, n, n + 1, p);
  }

  lemma {:induction false} MovesXAtLeast(g: Layout, h: Halos, k: nat, z: Place, y: Place, l: nat, j: nat)
    requires 0 <= z.block < |g.z.ext| && 1 <= l && Interior(g.z, h.zl, Walk(g.z, h.zl, l, z))
    requires 0 <= y.block < |g.y.ext| && 1 <= j && Interior(g.y, h.yl, Walk(g.y, h.yl, j, y))
    ensures MovesX(g, h, k, z, y) + l + j >= k + 2 || k == 0
    decreases k
  {
    if k > 0 {
      var z' := From(g.z, h.zl, z.block, z.cell);
      var y' := if Interior(g.z, h.zl, z') then From(g.y, h.yl, y.block, y.cell) else y;
      OneMoreMove(g.y, h.yl, j, y);
      if l > 1 {
        MovesXAtLeast(g, h, k - 1, z', y', l - 1, j);
      } else {
        OneMove(g.z, h.zl, z);
        OneMoreMove(g.z, h.zl, 1, z);
        if j > 1 {
          MovesXAtLeast(g, h, k - 1, z', y', 1, j - 1);
        } else {
          OneMove(g.y, h.yl, y);
          MovesXAtLeast(g, h, k - 1, z', y', 1, 1);
        }
      }
    }
  }

  lemma {:induction false} MovesXAtMost(g: Layout, h: Halos, k: nat, z: Place, y: Place, l: nat, j: nat)
    requires 0 <= z.block < |g.z.ext| && (l == 0 || !Interior(g.z, h.zl, Walk(g.z, h.zl, l, z)))
    requires 0 <= y.block < |g.y.ext| && (j == 0 || !Interior(g.y, h.yl, Walk(g.y, h.yl, j, y)))
    ensures MovesX(g, h, k, z, y) <= if k < l + j then 0 else k - l - j
    decreases k
  {
    if k > 0 {
      var z' := From(g.z, h.zl, z.block, z.cell);
      var y' := if Interior(g.z, h.zl, z') then From(g.y, h.yl, y.block, y.cell) else y;
      if l > 0 {
        if Interior(g.z, h.zl, z') {
          WalkStays(g.z, h.zl, l - 1, z');
        }
        MovesXAtMost(g, h, k - 1, z', y, l - 1, j);
      } else if j > 0 && Interior(g.z, h.zl, z') {
        if Interior(g.y, h.yl, y') {
          WalkStays(g.y, h.yl, j - 1, y');
        }
        MovesXAtMost(g, h, k - 1, z', y', 0, j - 1);
      } else {
        MovesXAtMost(g, h, k - 1, z', y', 0, j);
      }
    }
  }

  // ----- the exact number of rounds -----

  /** k rounds suffice: i, j and l moves along x, y and z reach interiors from everywhere, and
      the last of the z moves, the first of the y moves and so on share a round. */
  ghost predicate Suffice(g: Layout, h: Halos, k: nat) {
    exists i: nat, j: nat, l: nat
      {:trigger Covers(g.x, h.xl, h.xr, i), Covers(g.y, h.yl, h.yr, j), Covers(g.z, h.zl, h.zr, l)} ::
      && 1 <= i && 1 <= j && 1 <= l && i + j + l <= k + 2
      && Covers(g.x, h.xl, h.xr, i) && Covers(g.y, h.yl, h.yr, j) && Covers(g.z, h.zl, h.zr, l)
  }

  lemma RoundsInterior(g: Layout, h: Halos, k: nat, s: Spot, i: nat, j: nat, l: nat)
    requires WellFormed(g) && IsSpot(g, h, s) && 1 <= i && 1 <= j && 1 <= l && i + j + l <= k + 2
    requires Covers(g.x, h.xl, h.xr, i) && Covers(g.y, h.yl, h.yr, j) && Covers(g.z, h.zl, h.zr, l)
    ensures Interior(g.x, h.xl, Walk(g.x, h.xl, MovesX(g, h, k, AlongZ(s), AlongY(s)), AlongX(s)))
    ensures Interior(g.y, h.yl, Walk(g.y, h.yl, MovesY(g, h, k, AlongZ(s)), AlongY(s)))
    ensures Interior(g.z, h.zl, Walk(g.z, h.zl, k, AlongZ(s)))
  {
    CoversIff(g.x, h.xl, h.xr, i);
    CoversIff(g.y, h.yl, h.yr, j);
    CoversIff(g.z, h.zl, h.zr, l);
    assert InBuffer(g.x, h.xl, h.xr, AlongX(s)) && InBuffer(g.y, h.yl, h.yr, AlongY(s))
        && InBuffer(g.z, h.zl, h.zr, AlongZ(s));
    MovesYAtLeast(g, h, k, AlongZ(s), l);
    MovesXAtLeast(g, h, k, AlongZ(s), AlongY(s), l, j);
    WalkMore(g.x, h.xl, i, MovesX(g, h, k, AlongZ(s), AlongY(s)), AlongX(s));
    WalkMore(g.y, h.yl, j, MovesY(g, h, k, AlongZ(s)), AlongY(s));
    WalkMore(g.z, h.zl, l, k, AlongZ(s));
  }

  lemma AcrossPosition(g: Layout, h: Halos, r: Spot, p: V3)
    requires WellFormed(g) && Inside(r.dom, Domains(g))
    requires Interior(g.x, h.xl, AlongX(r)) && Interior(g.y, h.yl, AlongY(r)) && Interior(g.z, h.zl, AlongZ(r))
    requires g.x.org[r.dom.x] + r.cell.x - h.xl == p.x && g.y.org[r.dom.y] + r.cell.y - h.yl == p.y
    requires g.z.org[r.dom.z] + r.cell.z - h.zl == p.z
    ensures IsInterior(g, h, r) && Position(g, h, r) == p
  {
  }

  lemma AcrossIsWrapped(g: Layout, h: Halos, s: Spot, nx: nat, ny: nat, nz: nat)
    requires WellFormed(g) && IsSpot(g, h, s)
    requires Interior(g.x, h.xl, Walk(g.x, h.xl, nx, AlongX(s))) && Interior(g.y, h.yl, Walk(g.y, h.yl, ny, AlongY(s)))
    requires Interior(g.z, h.zl, Walk(g.z, h.zl, nz, AlongZ(s)))
    ensures var r := Across(Walk(g.x, h.xl, nx, AlongX(s)), Walk(g.y, h.yl, ny, AlongY(s)),
        Walk(g.z, h.zl, nz, AlongZ(s)));
            && Inside(r.dom, Domains(g)) && IsInterior(g, h, r)
            && Position(g, h, r) == WrapPosition(g, Position(g, h, s))
  {
    var x, y, z := Walk(g.x, h.xl, nx, AlongX(s)), Walk(g.y, h.yl, ny, AlongY(s)), Walk(g.z, h.zl, nz, AlongZ(s));
    var p := Position(g, h, s);
    assert g.x.org[x.block] + x.cell - h.xl == p.x % g.cells.x by {
      WalkIsWrapped(g.x, g.cells.x, h.xl, nx, AlongX(s));
    }
    assert g.y.org[y.block] + y.cell - h.yl == p.y % g.cells.y by {
      WalkIsWrapped(g.y, g.cells.y, h.yl, ny, AlongY(s));
    }
    assert g.z.org[z.block] + z.cell - h.zl == p.z % g.cells.z by {
      WalkIsWrapped(g.z, g.cells.z, h.zl, nz, AlongZ(s));
    }
    AcrossPosition(g, h, Across(x, y, z), WrapPosition(g, p));
  }

  /** One round is three hops. */
  lemma RoundIsHops(g: Layout, h: Halos, hop: Hop, m: nat, s: Spot)
    requires IsHop(g, h, hop) && IsSpot(g, h, s) && m % 3 == 0
    ensures hop(m, hop(m + 1, hop(m + 2, s))) == Round(g, h, s) && IsSpot(g, h, Round(g, h, s))
  {
    HopZ(g, h, hop, m + 2, s);
    HopY(g, h, hop, m + 1, hop(m + 2, s));
    HopX(g, h, hop, m, hop(m + 1, hop(m + 2, s)));
  }

  lemma {:induction false} TraceIsRounds(g: Layout, h: Halos, hop: Hop, k: nat, s: Spot)
    requires IsHop(g, h, hop) && IsSpot(g, h, s)
    ensures Trace(hop, 3 * k, s) == Rounds(g, h, k, s)
    decreases k
  {
    if k > 0 {
      ThreeHops(hop, 3 * k - 3, s);
      RoundIsHops(g, h, hop, 3 * k - 3, s);
      TraceIsRounds(g, h, hop, k - 1, Round(g, h, s));
    }
  }

  lemma EnoughRounds<T>(g: Layout, h: Halos, fam: Family<T>, k: nat)
    requires WellFormed(g) && WellSized(g, h, fam) && 0 < k && Suffice(g, h, k)
    ensures FullyExchanged(g, h, fam, 3 * k)
  {
    var hop := SomeHop(g, h);
    var i: nat, j: nat, l: nat :|
      && 1 <= i && 1 <= j && 1 <= l && i + j + l <= k + 2
      && Covers(g.x, h.xl, h.xr, i) && Covers(g.y, h.yl, h.yr, j) && Covers(g.z, h.zl, h.zr, l);
    forall s | IsSpot(g, h, s)
      ensures IsGlobalCell(g, h, fam, WrapPosition(g, Position(g, h, s)), Value(g, h, fam, 3 * k, s))
    {
      RoundsWrapped(g, h, hop, k, s, i, j, l);
      ValueIsTraced(g, h, hop, fam, 3 * k, s);
    }
  }

  lemma RoundsWrapped(g: Layout, h: Halos, hop: Hop, k: nat, s: Spot, i: nat, j: nat, l: nat)
    requires WellFormed(g) && IsHop(g, h, hop) && IsSpot(g, h, s) && 1 <= i && 1 <= j && 1 <= l && i + j + l <= k + 2
    requires Covers(g.x, h.xl, h.xr, i) && Covers(g.y, h.yl, h.yr, j) && Covers(g.z, h.zl, h.zr, l)
    ensures IsInterior(g, h, Trace(hop, 3 * k, s))
    ensures Position(g, h, Trace(hop, 3 * k, s)) == WrapPosition(g, Position(g, h, s))
  {
    TraceIsRounds(g, h, hop, k, s);
    RoundsAxes(g, h, k, s);
    RoundsInterior(g, h, k, s, i, j, l);
    AcrossIsWrapped(g, h, s, MovesX(g, h, k, AlongZ(s), AlongY(s)), MovesY(g, h, k, AlongZ(s)), k);
  }

  // ----- too few rounds -----

  /** The least positive number of moves that covers the halos. */
  lemma {:induction false} LeastCover(a: Axis, lo: nat, hi: nat, k: nat) returns (n: nat)
    requires 1 <= k && Covers(a, lo, hi, k)
    ensures 1 <= n <= k && Covers(a, lo, hi, n) && (n == 1 || !Covers(a, lo, hi, n - 1))
  {
    n := k;
    if k > 1 && Covers(a, lo, hi, k - 1) {
      n := LeastCover(a, lo, hi, k - 1);
    }
  }

  /** A place of the axis that n moves leave in a halo, if there is one. */
  lemma WorstPlace(a: Axis, g: nat, lo: nat, hi: nat, n: nat) returns (p: Place)
    requires Tiles(a, g) && 0 < g && (n == 0 || !Covers(a, lo, hi, n))
    ensures InBuffer(a, lo, hi, p) && (n == 0 || !Interior(a, lo, Walk(a, lo, n, p)))
  {
    if n == 0 {
      var i := SomeBlock(a, g);
      p := Place(i, lo);
    } else {
      p := Uncovered(a, lo, hi, n);
    }
  }

  /** Three numbers of moves, one of which is too few for the rounds that remain for it. */
  lemma Bottleneck(g: Layout, h: Halos, k: nat) returns (nx: nat, ny: nat, nz: nat)
    requires 1 <= k && !Suffice(g, h, k)
    ensures nx == 0 || !Covers(g.x, h.xl, h.xr, nx)
    ensures ny == 0 || !Covers(g.y, h.yl, h.yr, ny)
    ensures nz == 0 || !Covers(g.z, h.zl, h.zr, nz)
    ensures nz >= k || (nz < k && ny >= k - nz) || (nz + ny < k && nx >= k - nz - ny)
    ensures 1 <= nx || 1 <= ny || 1 <= nz
  {
    nx, ny, nz := 0, 0, k;
    if Covers(g.z, h.zl, h.zr, k) {
      var l := LeastCover(g.z, h.zl, h.zr, k);
      nz, ny := l - 1, k - (l - 1);
      if Covers(g.y, h.yl, h.yr, ny) {
        var j := LeastCover(g.y, h.yl, h.yr, ny);
        nx, ny := ny - (j - 1), j - 1;
        assert Covers(g.x, h.xl, h.xr, nx) ==> Suffice(g, h, k);
      }
    }
  }

  /** The corner cell that is worst along all three axes ends in a halo. */
  lemma WorstSpot(g: Layout, h: Halos, k: nat) returns (s: Spot)
    requires WellFormed(g) && 1 <= k && !Suffice(g, h, k)
    ensures IsSpot(g, h, s) && !IsInterior(g, h, Rounds(g, h, k, s))
  {
    var nx, ny, nz := Bottleneck(g, h, k);
    var x := WorstPlace(g.x, g.cells.x, h.xl, h.xr, nx);
    var y := WorstPlace(g.y, g.cells.y, h.yl, h.yr, ny);
    var z := WorstPlace(g.z, g.cells.z, h.zl, h.zr, nz);
    s := Across(x, y, z);
    RoundsAxes(g, h, k, s);
    MovesYAtMost(g, h, k, z, nz);
    MovesXAtMost(g, h, k, z, y, nz, ny);
    var mx, my := MovesX(g, h, k, z, y), MovesY(g, h, k, z);
    if nz >= k {
      FewMoves(g.z, h.zl, k, nz, z);
    } else if ny >= k - nz {
      FewMoves(g.y, h.yl, my, ny, y);
    } else {
      FewMoves(g.x, h.xl, mx, nx, x);
    }
  }

  /** What n moves leave in a halo, fewer moves do too. */
  lemma FewMoves(a: Axis, lo: nat, m: nat, n: nat, p: Place)
    requires 0 <= p.block < |a.ext| && m <= n && !Interior(a, lo, Walk(a, lo, n, p))
    ensures !Interior(a, lo, Walk(a, lo, m, p))
  {
    if Interior(a, lo, Walk(a, lo, m, p)) {
      WalkMore(a, lo, m, n, p);
    }
  }

  lemma TooFewRounds(g: Layout, h: Halos, k: nat)
    requires WellFormed(g) && 1 <= k && !Suffice(g, h, k)
    ensures !FullyExchanged(g, h, Marked(g, h), 3 * k)
  {
    var hop := SomeHop(g, h);
    var s := WorstSpot(g, h, k);
    TraceIsRounds(g, h, hop, k, s);
    MarkedValue(g, h, hop, 3 * k, s);
    MarkedGlobal(g, h, WrapPosition(g, Position(g, h, s)));
  }

  /** k rounds are a full exchange, for every field, exactly when they suffice for the number
      of blocks that the halos reach across; k == 1 is the case of halos that fit. */
  lemma RoundsFullIff(g: Layout, h: Halos, k: nat)
    requires WellFormed(g) && 1 <= k
    ensures Suffice(g, h, k) <==>
            forall fam: Family<int> :: WellSized(g, h, fam) ==> FullyExchanged(g, h, fam, 3 * k)
  {
    if Suffice(g, h, k) {
      forall fam: Family<int> | WellSized(g, h, fam) ensures FullyExchanged(g, h, fam, 3 * k) {
        EnoughRounds(g, h, fam, k);
      }
    } else {
      TooFewRounds(g, h, k);
    }
  }

  lemma OneBlock(a: Axis, lo: nat, hi: nat)
    requires 0 < |a.ext|
    ensures Covers(a, lo, hi, 1) <==> HaloFits(a, lo, hi)
  {
    forall c | 0 <= c < |a.ext|
      ensures LeftSum(a, c, 1) == a.ext[Left(a, c)] && RightSum(a, c, 1) == a.ext[Right(a, c)]
    {
      assert LeftSum(a, Left(a, c), 0) == 0 && RightSum(a, Right(a, c), 0) == 0;
    }
    if Covers(a, lo, hi, 1) {
      forall i | 0 <= i < |a.ext| ensures lo <= a.ext[i] && hi <= a.ext[i] {
        assert Left(a, Right(a, i)) == i && Right(a, Left(a, i)) == i;
        assert lo <= LeftSum(a, Right(a, i), 1) && hi <= RightSum(a, Left(a, i), 1);
      }
    }
  }

  /** One round suffices exactly when the halos fit. */
  lemma OneRound(g: Layout, h: Halos)
    requires WellFormed(g)
    ensures Suffice(g, h, 1) <==> Fits(g, h)
  {
    OneBlock(g.x, h.xl, h.xr);
    OneBlock(g.y, h.yl, h.yr);
    OneBlock(g.z, h.zl, h.zr);
  }

  lemma FitsSuffices(g: Layout, h: Halos, k: nat)
    requires WellFormed(g) && Fits(g, h) && 1 <= k
    ensures Suffice(g, h, k)
  {
    OneBlock(g.x, h.xl, h.xr);
    OneBlock(g.y, h.yl, h.yr);
    OneBlock(g.z, h.zl, h.zr);
  }

  /** Six messages do the work of twenty-six, in the first round and in all later ones, exactly
      when no halo is wider than a block. */
  lemma StagedIsFullIff(g: Layout, h: Halos)
    requires WellFormed(g)
    ensures Fits(g, h) <==>
            forall fam: Family<int>, k: nat :: 0 < k && WellSized(g, h, fam) ==> FullyExchanged(g, h, fam, 3 * k)
  {
    if Fits(g, h) {
      forall fam: Family<int>, k: nat | 0 < k && WellSized(g, h, fam) ensures FullyExchanged(g, h, fam, 3 * k) {
        StagedIsFull(g, h, fam, k);
      }
    } else {
      var k: nat := 1;
      OneRound(g, h);
      TooFewRounds(g, h, k);
      assert !FullyExchanged(g, h, Marked(g, h), 3 * k);
    }
  }
}
