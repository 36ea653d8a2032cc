/** Coordinates of a rank within the levels of a hardware hierarchy. */
module HwTopo {
  import opened Grid
  import opened MixedRadix

  function Component(v: V3, d: nat): int { if d == 0 then v.x else if d == 1 then v.y else v.z }

  /** The extents of all levels along dimension d, from the flat list of the constructor. */
  function AxisOf(levelGrid: seq<int>, d: nat): (r: seq<int>)
    requires d < 3 && |levelGrid| % 3 == 0
    ensures |r| == |levelGrid| / 3 && forall l :: 0 <= l < |r| ==> r[l] == levelGrid[l * 3 + d]
  {
    seq(|levelGrid| / 3, l requires 0 <= l < |levelGrid| / 3 => levelGrid[l * 3 + d])
  }

  /** Level coordinates list the outermost level first; these are the digits of dimension d,
      lowest level first. */
  function DigitsOf(c: seq<V3>, d: nat): (r: seq<int>)
    ensures |r| == |c| && forall l :: 0 <= l < |c| ==> r[l] == Component(c[|c| - 1 - l], d)
  {
    seq(|c|, l requires 0 <= l < |c| => Component(c[|c| - 1 - l], d))
  }

  class HwTopo {
    const levelGrid: seq<int>
    const levels: nat
    var grid: V3

    ghost function Axis(d: nat): (r: seq<int>)
      requires d < 3 && |levelGrid| == 3 * levels
      ensures |r| == levels && forall l :: 0 <= l < levels ==> r[l] == levelGrid[l * 3 + d]
    {
      AxisOf(levelGrid, d)
    }

    ghost predicate Valid()
      reads this
    {
      && |levelGrid| == 3 * levels
      && (forall k :: 0 <= k < |levelGrid| ==> 0 < levelGrid[k])
      && grid == V3(Weight(Axis(0), levels), Weight(Axis(1), levels), Weight(Axis(2), levels))
    }

    constructor (levelGrid: seq<int>, levels: nat)
      requires |levelGrid| == 3 * levels && forall k :: 0 <= k < |levelGrid| ==> 0 < levelGrid[k]
      ensures Valid() && this.levelGrid == levelGrid && this.levels == levels
    {
      this.levelGrid, this.levels := levelGrid, levels;
      new;
      var x := Extent(0);
      var y := Extent(1);
      var z := Extent(2);
      grid := V3(x, y, z);
    }

    method Extent(d: nat) returns (m: int)
      requires d < 3 && |levelGrid| == 3 * levels
      ensures m == Weight(Axis(d), levels)
    {
      m := 1;
      for j := 0 to levels
        invariant m == Weight(Axis(d), j)
      {
        m := m * levelGrid[j * 3 + d];
      }
    }

    /** Ranks within one resource of level l, along dimension d. */
    method SizeAlong(l: nat, d: nat) returns (count: int)
      requires Valid() && l <= levels && d < 3
      ensures count == Weight(Axis(d), l)
    {
      count := 1;
      for j := 0 to l
        invariant count == Weight(Axis(d), j)
      {
        count := count * levelGrid[j * 3 + d];
      }
    }

    /** Resources of level l, along dimension d. */
    method CountAlong(l: nat, d: nat) returns (count: int)
      requires Valid() && l <= levels && d < 3
      ensures count == Product(Axis(d), l, levels)
    {
      count := 1;
      for j := l to levels
        invariant count == Product(Axis(d), l, j)
      {
        count := count * levelGrid[j * 3 + d];
      }
    }

    ghost function Box(lo: nat, hi: nat): int
      requires |levelGrid| == 3 * levels && lo <= hi <= levels
    {
      Product(Axis(0), lo, hi) * Product(Axis(1), lo, hi) * Product(Axis(2), lo, hi)
    }

    method Size(l: nat) returns (count: int)
      requires Valid() && l <= levels
      ensures count == Box(0, l)
    {
      count := 1;
      for j := 0 to l
        invariant count == Box(0, j)
      {
        ghost var before := count;
        for i := 0 to 3
          invariant count == before * PartialBox(j, i)
        {
          MulAssoc(before, PartialBox(j, i), levelGrid[j * 3 + i]);
          count := count * levelGrid[j * 3 + i];
        }
        BoxGrows(0, j);
      }
    }

    method Count(l: nat) returns (count: int)
      requires Valid() && l <= levels
      ensures count == Box(l, levels)
    {
      count := 1;
      for j := l to levels
        invariant count == Box(l, j)
      {
        ghost var before := count;
        for i := 0 to 3
          invariant count == before * PartialBox(j, i)
        {
          MulAssoc(before, PartialBox(j, i), levelGrid[j * 3 + i]);
          count := count * levelGrid[j * 3 + i];
        }
        BoxGrows(l, j);
      }
    }

    ghost function PartialBox(j: nat, i: nat): int
      requires |levelGrid| == 3 * levels && j < levels && i <= 3
    {
      if i == 0 then 1 else PartialBox(j, i - 1) * levelGrid[j * 3 + i - 1]
    }

    lemma BoxGrows(lo: nat, j: nat)
      requires |levelGrid| == 3 * levels && lo <= j < levels
      ensures Box(lo, j + 1) == Box(lo, j) * PartialBox(j, 3)
    {
      var a, b, c := Product(Axis(0), lo, j), Product(Axis(1), lo, j), Product(Axis(2), lo, j);
      var p, q, r := levelGrid[j * 3 + 0], levelGrid[j * 3 + 1], levelGrid[j * 3 + 2];
      assert PartialBox(j, 1) == p && PartialBox(j, 2) == p * q && PartialBox(j, 3) == p * q * r;
      Interleave(a, b, c, p, q, r);
    }

    /** Ranks within a resource times resources is all ranks, at every level. */
    lemma SizeTimesCount(l: nat)
      requires Valid() && l <= levels
      ensures Box(0, l) * Box(l, levels) == grid.x * grid.y * grid.z
    {
      ProductSplit(Axis(0), l, levels);
      ProductSplit(Axis(1), l, levels);
      ProductSplit(Axis(2), l, levels);
      ProductIsWeight(Axis(0), levels);
      ProductIsWeight(Axis(1), levels);
      ProductIsWeight(Axis(2), levels);
      Interleave(Product(Axis(0), 0, l), Product(Axis(1), 0, l), Product(Axis(2), 0, l),
                 Product(Axis(0), l, levels), Product(Axis(1), l, levels), Product(Axis(2), l, levels));
    }

    /** The grid coordinate that level coordinates add up to. */
    ghost function Gathered(c: seq<V3>): V3
      requires |levelGrid| == 3 * levels && |c| == levels
    {
      V3(Number(Axis(0), DigitsOf(c, 0), levels), Number(Axis(1), DigitsOf(c, 1), levels),
          Number(Axis(2), DigitsOf(c, 2), levels))
    }

    /** c gives, for every level, a coordinate within that level. */
    ghost predicate WithinLevels(c: seq<V3>)
      requires |levelGrid| == 3 * levels
    {
      |c| == levels && Digits(Axis(0), DigitsOf(c, 0)) && Digits(Axis(1), DigitsOf(c, 1))
          && Digits(Axis(2), DigitsOf(c, 2))
    }

    lemma AxisRadices(d: nat)
      requires Valid() && d < 3
      ensures Radices(Axis(d))
    {
    }

    /** The levels from l up have been taken off `position` into res, of which coord is left. */
    ghost predicate Descended(res: seq<V3>, l: nat, coord: V3, position: V3, gx: seq<int>, gy: seq<int>, gz: seq<int>)
      requires |levelGrid| == 3 * levels
    {
      && l <= levels && |res| == levels - l
      && Peeled(Axis(0), gx, l, coord.x, position.x)
      && Peeled(Axis(1), gy, l, coord.y, position.y)
      && Peeled(Axis(2), gz, l, coord.z, position.z)
      && forall k :: l <= k < levels ==> res[levels - 1 - k] == V3(gx[k], gy[k], gz[k])
    }

    lemma Descend(res: seq<V3>, l: nat, coord: V3, position: V3, gx: seq<int>, gy: seq<int>, gz: seq<int>, nx: int,
        ny: int, nz: int)
      requires Valid() && l < levels && Descended(res, l + 1, coord, position, gx, gy, gz)
      requires nx == Weight(Axis(0), l) && ny == Weight(Axis(1), l) && nz == Weight(Axis(2), l)
      ensures 0 < nx && 0 < ny && 0 < nz
      ensures var level := V3(coord.x / nx, coord.y / ny, coord.z / nz);
              Descended(res + [level], l, V3(coord.x - level.x * nx, coord.y - level.y * ny, coord.z - level.z * nz),
                        position, gx[l := level.x], gy[l := level.y], gz[l := level.z])
    {
      AxisRadices(0);
      AxisRadices(1);
      AxisRadices(2);
      PeelStep(Axis(0), gx, l, coord.x, position.x, nx);
      PeelStep(Axis(1), gy, l, coord.y, position.y, ny);
      PeelStep(Axis(2), gz, l, coord.z, position.z, nz);
    }

    lemma Landed(res: seq<V3>, coord: V3, position: V3, gx: seq<int>, gy: seq<int>, gz: seq<int>)
      requires |levelGrid| == 3 * levels && Descended(res, 0, coord, position, gx, gy, gz)
      ensures WithinLevels(res) && Gathered(res) == position
    {
      PeelDone(Axis(0), gx, coord.x, position.x);
      PeelDone(Axis(1), gy, coord.y, position.y);
      PeelDone(Axis(2), gz, coord.z, position.z);
      forall k | 0 <= k < levels
        ensures DigitsOf(res, 0)[k] == gx[k] && DigitsOf(res, 1)[k] == gy[k] && DigitsOf(res, 2)[k] == gz[k]
      {
        assert res[levels - 1 - k] == V3(gx[k], gy[k], gz[k]);
      }
      assert DigitsOf(res, 0) == gx && DigitsOf(res, 1) == gy && DigitsOf(res, 2) == gz;
    }

    /** The level coordinates of a grid coordinate. */
    method LevelGridCoord(position: V3) returns (res: seq<V3>)
      requires Valid() && Inside(position, grid)
      ensures WithinLevels(res) && Gathered(res) == position
    {
      var coord := position;
      res := [];
      ghost var zeros := seq(levels, _ => 0);
      ghost var gx, gy, gz := zeros, zeros, zeros;
      PeelStart(Axis(0), gx, position.x);
      PeelStart(Axis(1), gy, position.y);
      PeelStart(Axis(2), gz, position.z);
      var l := levels;
      while l > 0
        invariant 0 <= l <= levels && Descended(res, l, coord, position, gx, gy, gz)
      {
        l := l - 1;
        var nx := SizeAlong(l, 0);
        var ny := SizeAlong(l, 1);
        var nz := SizeAlong(l, 2);
        Descend(res, l, coord, position, gx, gy, gz, nx, ny, nz);
        var level := V3(coord.x / nx, coord.y / ny, coord.z / nz);
        coord := V3(coord.x - level.x * nx, coord.y - level.y * ny, coord.z - level.z * nz);
        res := res + [level];
        gx, gy, gz := gx[l := level.x], gy[l := level.y], gz[l := level.z];
      }
      Landed(res, coord, position, gx, gy, gz);
    }

    /** What the lowest l levels add up to. */
    ghost function Partial(c: seq<V3>, l: nat): V3
      requires |levelGrid| == 3 * levels && |c| == levels && l <= levels
    {
      V3(Number(Axis(0), DigitsOf(c, 0), l), Number(Axis(1), DigitsOf(c, 1), l), Number(Axis(2), DigitsOf(c, 2), l))
    }

    lemma NextLevel(c: seq<V3>, l: nat, level: V3, nx: int, ny: int, nz: int)
      requires |levelGrid| == 3 * levels && |c| == levels && l < levels && level == c[levels - 1 - l]
      requires nx == Weight(Axis(0), l) && ny == Weight(Axis(1), l) && nz == Weight(Axis(2), l)
      ensures Partial(c, l + 1) ==
          V3(Partial(c, l).x + level.x * nx, Partial(c, l).y + level.y * ny, Partial(c, l).z + level.z * nz)
    {
      NextDigit(Axis(0), c, 0, l, level.x, nx);
      NextDigit(Axis(1), c, 1, l, level.y, ny);
      NextDigit(Axis(2), c, 2, l, level.z, nz);
    }

    /** The grid coordinate of level coordinates, whose rank is then looked up. */
    method Position(c: seq<V3>) returns (coord: V3)
      requires Valid() && |c| == levels
      ensures coord == Gathered(c)
    {
      coord := V3(0, 0, 0);
      for l := 0 to levels
        invariant coord == Partial(c, l)
      {
        var nx := SizeAlong(l, 0);
        var ny := SizeAlong(l, 1);
        var nz := SizeAlong(l, 2);
        var level := c[levels - 1 - l];
        NextLevel(c, l, level, nx, ny, nz);
        coord := V3(coord.x + level.x * nx, coord.y + level.y * ny, coord.z + level.z * nz);
      }
    }

    /** The rank of level coordinates: the rank that the library gives to the grid coordinate. */
    method Rank(c: seq<V3>, rankOf: V3 -> int) returns (rank: int)
      requires Valid() && |c| == levels
      ensures rank == rankOf(Gathered(c))
    {
      var coord := Position(c);
      rank := rankOf(coord);
    }

    /** Under a one-to-one rank map, ranks and level coordinates identify each other: the rank
        of a position's level coordinates is the position's, and no others have it. */
    lemma RanksIdentify(rankOf: V3 -> int, c: seq<V3>, c': seq<V3>)
      requires Valid() && WithinLevels(c) && WithinLevels(c')
      requires forall p, q :: Inside(p, grid) && Inside(q, grid) && rankOf(p) == rankOf(q) ==> p == q
      ensures rankOf(Gathered(c)) == rankOf(Gathered(c')) <==> c == c'
    {
      LevelsIdentify(c, c');
      LevelsIdentify(c', c);
    }

    /** Resources are boxes of the grid: two ranks are in one resource of level l, that is, their
        coordinates in the levels from l up are the same, exactly when their grid coordinates are
        in the same box of the size of that level. */
    lemma ResourcesAreBoxes(c: seq<V3>, c': seq<V3>, l: nat)
      requires Valid() && WithinLevels(c) && WithinLevels(c') && l <= levels
      ensures var wx, wy, wz := Product(Axis(0), 0, l), Product(Axis(1), 0, l), Product(Axis(2), 0, l);
              && 0 < wx && 0 < wy && 0 < wz
              && (c[..levels - l] == c'[..levels - l] <==>
                   Gathered(c).x / wx == Gathered(c').x / wx && Gathered(c).y / wy == Gathered(c').y / wy
                   && Gathered(c).z / wz == Gathered(c').z / wz)
    {
      SameAlong(c, c', l, 0);
      SameAlong(c, c', l, 1);
      SameAlong(c, c', l, 2);
      SameLevels(c, c', l);
    }

    lemma SameAlong(c: seq<V3>, c': seq<V3>, l: nat, d: nat)
      requires Valid() && WithinLevels(c) && WithinLevels(c') && l <= levels && d < 3
      ensures 0 < Product(Axis(d), 0, l)
      ensures Number(Axis(d), DigitsOf(c, d), levels) / Product(Axis(d), 0, l) ==
              Number(Axis(d), DigitsOf(c', d), levels) / Product(Axis(d), 0, l)
          <==> SameFrom(DigitsOf(c, d), DigitsOf(c', d), l)
    {
      var r, a, b := Axis(d), DigitsOf(c, d), DigitsOf(c', d);
      assert Digits(r, a) && Digits(r, b);
      AxisRadices(d);
      PlacesFrom(r, a, b, l);
    }

    /** Level coordinates within their levels and grid coordinates correspond one to one, so
        `LevelGridCoord` and `Position` undo each other in both orders. */
    lemma LevelsIdentify(c: seq<V3>, c': seq<V3>)
      requires Valid() && WithinLevels(c) && WithinLevels(c')
      ensures Inside(Gathered(c), grid)
      ensures Gathered(c) == Gathered(c') <==> c == c'
    {
      AxisRadices(0);
      AxisRadices(1);
      AxisRadices(2);
      NumberBound(Axis(0), DigitsOf(c, 0), levels);
      NumberBound(Axis(1), DigitsOf(c, 1), levels);
      NumberBound(Axis(2), DigitsOf(c, 2), levels);
      if Gathered(c) == Gathered(c') {
        SameDigits(Axis(0), c, c', 0);
        SameDigits(Axis(1), c, c', 1);
        SameDigits(Axis(2), c, c', 2);
        forall k | 0 <= k < levels ensures c[k] == c'[k] {
          var l := levels - 1 - k;
          assert DigitsOf(c, 0)[l] == DigitsOf(c', 0)[l] && DigitsOf(c, 1)[l] == DigitsOf(c', 1)[l]
              && DigitsOf(c, 2)[l] == DigitsOf(c', 2)[l];
        }
      }
    }
  }

  ghost predicate SameFrom(a: seq<int>, b: seq<int>, l: nat)
    requires |a| == |b|
  {
    forall j :: l <= j < |a| ==> a[j] == b[j]
  }

  lemma PlacesFrom(r: seq<int>, a: seq<int>, b: seq<int>, l: nat)
    requires Radices(r) && Digits(r, a) && Digits(r, b) && l <= |r|
    ensures 0 < Product(r, 0, l)
    ensures Number(r, a, |r|) / Product(r, 0, l) == Number(r, b, |r|) / Product(r, 0, l) <==> SameFrom(a, b, l)
  {
    WeightPositive(r, l);
    ProductIsWeight(r, l);
    SameHighDigits(r, a, b, l, |r|);
  }

  /** Equal coordinates in the levels from l up, said of the list and of its digits. */
  lemma SameLevels(c: seq<V3>, c': seq<V3>, l: nat)
    requires |c| == |c'| && l <= |c|
    ensures c[..|c| - l] == c'[..|c| - l] <==>
            SameFrom(DigitsOf(c, 0), DigitsOf(c', 0), l) && SameFrom(DigitsOf(c, 1), DigitsOf(c', 1), l)
                && SameFrom(DigitsOf(c, 2), DigitsOf(c', 2), l)
  {
    var n := |c| - l;
    if c[..n] == c'[..n] {
      forall d: nat, j | d < 3 && l <= j < |c| ensures DigitsOf(c, d)[j] == DigitsOf(c', d)[j] {
        assert c[..n][|c| - 1 - j] == c'[..n][|c| - 1 - j];
      }
    }
    if SameFrom(DigitsOf(c, 0), DigitsOf(c', 0), l) && SameFrom(DigitsOf(c, 1), DigitsOf(c', 1), l)
        && SameFrom(DigitsOf(c, 2), DigitsOf(c', 2), l) {
      forall k | 0 <= k < n ensures c[k] == c'[k] {
        var j := |c| - 1 - k;
        assert DigitsOf(c, 0)[j] == DigitsOf(c', 0)[j] && DigitsOf(c, 1)[j] == DigitsOf(c', 1)[j]
            && DigitsOf(c, 2)[j] == DigitsOf(c', 2)[j];
      }
    }
  }

  lemma NextDigit(r: seq<int>, c: seq<V3>, d: nat, l: nat, x: int, w: int)
    requires l < |r| == |c| && x == Component(c[|c| - 1 - l], d) && w == Weight(r, l)
    ensures Number(r, DigitsOf(c, d), l + 1) == Number(r, DigitsOf(c, d), l) + x * w
  {
    assert DigitsOf(c, d)[l] == x && w * x == x * w;
  }

  lemma SameDigits(r: seq<int>, c: seq<V3>, c': seq<V3>, d: nat)
    requires Digits(r, DigitsOf(c, d)) && Digits(r, DigitsOf(c', d))
    requires Number(r, DigitsOf(c, d), |r|) == Number(r, DigitsOf(c', d), |r|)
    ensures DigitsOf(c, d) == DigitsOf(c', d)
  {
    var a, b := DigitsOf(c, d), DigitsOf(c', d);
    NumberInjective(r, a, b, |r|);
    assert a[..|r|] == a && b[..|r|] == b;
  }

  lemma MulAssoc(a: int, b: int, c: int)
    ensures a * b * c == a * (b * c)
  {
  }

  lemma Interleave(a: int, b: int, c: int, p: int, q: int, r: int)
    ensures (a * p) * (b * q) * (c * r) == (a * b * c) * (p * q * r)
  {
    assert (a * p) * (b * q) == (a * b) * (p * q);
    var m, n := a * b, p * q;
    assert (m * n) * (c * r) == (m * c) * (n * r);
  }
}
