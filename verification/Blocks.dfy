/** One axis of the domain decomposition: consecutive blocks, and the halo of a block looked
    up in its two periodic neighbours. */
module Blocks {
  import opened Grid

  /** First cell and extent of every block; org has one entry more, the end of the last block. */
  datatype Axis = Axis(org: seq<nat>, ext: seq<nat>)

  ghost predicate Tiles(a: Axis, g: nat) {
    && |a.org| == |a.ext| + 1 && |a.ext| > 0
    && a.org[0] == 0 && a.org[|a.ext|] == g
    && forall i :: 0 <= i < |a.ext| ==> a.org[i + 1] == a.org[i] + a.ext[i]
  }

  // ----- the even split -----

  /** Extent of block i of n: the first g % n blocks hold one cell more than the others. */
  function EvenExt(g: nat, n: nat, i: nat): nat
    requires 0 < n
  {
    g / n + (if i < g % n then 1 else 0)
  }

  function EvenOrg(g: nat, n: nat, i: nat): nat
    requires 0 < n
  {
    ProductNonNegative(i, g / n);
    i * (g / n) + (if i < g % n then i else g % n)
  }

  function Even(g: nat, n: nat): Axis
    requires 0 < n
  {
    Axis(seq(n + 1, i requires 0 <= i <= n => EvenOrg(g, n, i)), seq(n, i requires 0 <= i < n => EvenExt(g, n, i)))
  }

  /** The even split tiles the axis, its extents differ by at most one cell, larger blocks first. */
  lemma EvenTiles(g: nat, n: nat)
    requires 0 < n
    ensures Tiles(Even(g, n), g) && |Even(g, n).ext| == n
    ensures forall i, j :: 0 <= i <= j < n ==> Even(g, n).ext[j] <= Even(g, n).ext[i] <= Even(g, n).ext[j] + 1
  {
    var a := Even(g, n);
    assert g == n * (g / n) + g % n;
    forall i | 0 <= i < n ensures a.org[i + 1] == a.org[i] + a.ext[i] {
      assert (i + 1) * (g / n) == i * (g / n) + g / n;
    }
  }

  // ----- ownership -----

  lemma {:induction false} OrgMonotone(a: Axis, g: nat, i: nat, j: nat)
    requires Tiles(a, g) && i <= j <= |a.ext|
    ensures a.org[i] <= a.org[j] <= g
    decreases |a.ext| - i, j - i
  {
    if i < j {
      OrgMonotone(a, g, i + 1, j);
      assert a.org[i + 1] == a.org[i] + a.ext[i];
    } else if j < |a.ext| {
      OrgMonotone(a, g, j + 1, |a.ext|);
      assert a.org[j + 1] == a.org[j] + a.ext[j];
    }
  }

  predicate Owns(a: Axis, i: int, p: int) {
    0 <= i < |a.ext| && i < |a.org| && a.org[i] <= p < a.org[i] + a.ext[i]
  }

  /** The block that owns cell p, searched below block k. */
  lemma {:induction false} OwnerBelow(a: Axis, g: nat, p: nat, k: nat) returns (i: nat)
    requires Tiles(a, g) && k <= |a.ext| && p < a.org[k]
    ensures i < k && Owns(a, i, p)
  {
    assert a.org[k - 1 + 1] == a.org[k - 1] + a.ext[k - 1];
    if p >= a.org[k - 1] {
      i := k - 1;
    } else {
      i := OwnerBelow(a, g, p, k - 1);
    }
  }

  lemma OneOwner(a: Axis, g: nat, p: nat, i: nat, j: nat)
    requires Tiles(a, g) && Owns(a, i, p) && Owns(a, j, p)
    ensures i == j
  {
    if i < j {
      assert a.org[i + 1] == a.org[i] + a.ext[i];
      OrgMonotone(a, g, i + 1, j);
    } else if j < i {
      assert a.org[j + 1] == a.org[j] + a.ext[j];
      OrgMonotone(a, g, j + 1, i);
    }
  }

  /** Blocks tile [0, g): every cell has exactly one owner, and nothing else has one. */
  lemma EveryCellOwned(a: Axis, g: nat, p: int)
    requires Tiles(a, g)
    ensures 0 <= p < g <==> exists i :: Owns(a, i, p)
    ensures forall i, j :: Owns(a, i, p) && Owns(a, j, p) ==> i == j
  {
    if 0 <= p < g {
      var i := OwnerBelow(a, g, p, |a.ext|);
    }
    forall i, j | Owns(a, i, p) && Owns(a, j, p) ensures i == j && 0 <= p < g {
      OneOwner(a, g, p, i, j);
      assert a.org[i + 1] == a.org[i] + a.ext[i];
      OrgMonotone(a, g, i + 1, |a.ext|);
    }
  }

  // ----- neighbours -----

  /** A block coordinate moved by at most n is brought back into [0, n). */
  function WrapBlock(n: nat, c: int): int {
    var c1 := if c > n - 1 then c - n else c;
    if c1 < 0 then c1 + n else c1
  }

  lemma WrapIsMod(n: nat, c: int)
    requires 0 < n && 0 <= c + n && c < 2 * n
    ensures 0 <= WrapBlock(n, c) < n && WrapBlock(n, c) == c % n
  {
    if c < 0 {
      DivModOf(c + n, n, -1);
    } else if c > n - 1 {
      DivModOf(c - n, n, 1);
    } else {
      DivModOf(c, n, 0);
    }
  }

  /** Moving by d and then back by -d returns to the same block. */
  lemma WrapInverse(n: nat, c: int, d: int)
    requires 0 <= c < n && 0 <= d + n && d <= n
    ensures 0 <= WrapBlock(n, c + d) < n && WrapBlock(n, WrapBlock(n, c + d) - d) == c
  {
  }

  function Left(a: Axis, c: int): (r: int)
    requires 0 <= c < |a.ext|
    ensures 0 <= r < |a.ext|
  {
    WrapBlock(|a.ext|, c - 1)
  }

  function Right(a: Axis, c: int): (r: int)
    requires 0 <= c < |a.ext|
    ensures 0 <= r < |a.ext|
  {
    WrapBlock(|a.ext|, c + 1)
  }

  // ----- where a halo cell comes from -----

  datatype Place = Place(block: int, cell: int)

  /** Where cell x of the extended buffer of block c comes from, h being the width of the
      left halo: the upper interior of the left neighbour, the lower interior of the right
      neighbour, or the block itself. */
  function From(a: Axis, h: nat, c: int, x: int): Place
    requires 0 <= c < |a.ext|
  {
    if x < h then Place(Left(a, c), x + a.ext[Left(a, c)])
    else if x >= h + a.ext[c] then Place(Right(a, c), x - a.ext[c])
    else Place(c, x)
  }

  /** No halo is wider than a block. */
  ghost predicate HaloFits(a: Axis, lo: nat, hi: nat) {
    forall i :: 0 <= i < |a.ext| ==> lo <= a.ext[i] && hi <= a.ext[i]
  }

  predicate Interior(a: Axis, h: nat, s: Place) {
    0 <= s.block < |a.ext| && h <= s.cell < h + a.ext[s.block]
  }

  /** Every cell of an extended buffer comes from an interior cell, and that cell is the
      periodically wrapped global cell of its position. */
  lemma FromIsWrapped(a: Axis, g: nat, lo: nat, hi: nat, c: int, x: int)
    requires Tiles(a, g) && 0 < g && HaloFits(a, lo, hi)
    requires 0 <= c < |a.ext| && 0 <= x < lo + a.ext[c] + hi
    ensures var s := From(a, lo, c, x);
            && Interior(a, lo, s)
            && a.org[s.block] + s.cell - lo == (a.org[c] + x - lo) % g
  {
    var n := |a.ext|;
    var s := From(a, lo, c, x);
    assert a.org[s.block + 1] == a.org[s.block] + a.ext[s.block];
    assert a.org[c + 1] == a.org[c] + a.ext[c];
    OrgMonotone(a, g, s.block + 1, n);
    DivModOf(a.org[s.block] + s.cell - lo, g,
             if x < lo && c == 0 then -1 else if x >= lo + a.ext[c] && c == n - 1 then 1 else 0);
  }

  /** Some block of a non-empty axis is not empty. */
  lemma SomeBlock(a: Axis, g: nat) returns (i: nat)
    requires Tiles(a, g) && 0 < g
    ensures i < |a.ext| && 0 < a.ext[i]
  {
    i := OwnerBelow(a, g, 0, |a.ext|);
  }
}
