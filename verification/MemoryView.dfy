/** A view of a flat array as an array of any number of dimensions, first dimension fastest. */
module MemoryView {
  import opened Grid
  import opened MixedRadix

  ghost predicate InBounds(dims: seq<int>, coord: seq<int>) { Digits(dims, coord) }

  class View<T> {
    const memory: array<T>
    const dims: seq<int>
    var strides: seq<int>

    /** Stride d is the product of the first d + 1 extents; the last is the number of elements. */
    ghost predicate Valid()
      reads this
    {
      && 0 < |dims| && Extents(dims) && |strides| == |dims| && memory.Length == Weight(dims, |dims|)
      && forall d :: 0 <= d < |dims| ==> strides[d] == Weight(dims, d + 1)
    }

    constructor (memory: array<T>, dims: seq<int>)
      requires 0 < |dims| && Extents(dims) && memory.Length == Weight(dims, |dims|)
      ensures Valid() && this.memory == memory && this.dims == dims
    {
      this.memory, this.dims := memory, dims;
      var s := [dims[0]];
      while |s| < |dims|
        invariant 1 <= |s| <= |dims|
        invariant forall d :: 0 <= d < |s| ==> s[d] == Weight(dims, d + 1)
      {
        s := s + [s[|s| - 1] * dims[|s|]];
      }
      strides := s;
    }

    /** The element's position: the number its coordinates write with the extents as radices. */
    method Index(coord: seq<int>) returns (i: int)
      requires Valid() && InBounds(dims, coord)
      ensures i == Number(dims, coord, |dims|) && 0 <= i < memory.Length
    {
      i := coord[0];
      var d := 1;
      assert Number(dims, coord, 1) == Number(dims, coord, 0) + Weight(dims, 0) * coord[0];
      while d < |dims|
        invariant 1 <= d <= |dims| && i == Number(dims, coord, d)
      {
        i := i + coord[d] * strides[d - 1];
        d := d + 1;
      }
      NumberBound(dims, coord, |dims|);
    }

    method Get(coord: seq<int>) returns (x: T)
      requires Valid() && InBounds(dims, coord)
      ensures 0 <= Number(dims, coord, |dims|) < memory.Length && x == memory[Number(dims, coord, |dims|)]
    {
      var i := Index(coord);
      x := memory[i];
    }

    /** Writing through the view changes the element of that coordinate and no other. */
    method Set(coord: seq<int>, x: T)
      requires Valid() && InBounds(dims, coord)
      modifies memory
      ensures Valid() && 0 <= Number(dims, coord, |dims|) < memory.Length
      ensures memory[Number(dims, coord, |dims|)] == x
      ensures forall c | InBounds(dims, c) && c != coord ::
                OffsetOf(c) != OffsetOf(coord) && memory[OffsetOf(c)] == old(memory[OffsetOf(c)])
    {
      var i := Index(coord);
      memory[i] := x;
      forall c | InBounds(dims, c) && c != coord ensures OffsetOf(c) != OffsetOf(coord) {
        if OffsetOf(c) == OffsetOf(coord) {
          OneElementPerCoordinate(dims, c, coord);
        }
      }
    }

    ghost function OffsetOf(coord: seq<int>): (i: int)
      requires Valid() && InBounds(dims, coord)
      reads this
      ensures 0 <= i < memory.Length
    {
      NumberBound(dims, coord, |dims|);
      Number(dims, coord, |dims|)
    }
  }

  /** Coordinates and elements correspond one to one, in any number of dimensions. */
  lemma OneElementPerCoordinate(dims: seq<int>, c: seq<int>, c': seq<int>)
    requires InBounds(dims, c) && InBounds(dims, c') && Number(dims, c, |dims|) == Number(dims, c', |dims|)
    ensures c == c'
  {
    NumberInjective(dims, c, c', |dims|);
    assert c[..|dims|] == c && c'[..|dims|] == c';
  }

  lemma EveryElementHasCoordinate(dims: seq<int>, i: int)
    requires Extents(dims) && 0 <= i < Weight(dims, |dims|)
    ensures exists c :: InBounds(dims, c) && Number(dims, c, |dims|) == i
  {
    WeightIsZero(dims, |dims|);
    var c := NumberOnto(dims, i);
    assert InBounds(dims, c) && Number(dims, c, |dims|) == i;
  }

  /** In three dimensions, the flat index of the exchange and the self-check. */
  lemma ThreeDimensions(n: V3, p: V3)
    requires Inside(p, n)
    ensures InBounds([n.x, n.y, n.z], [p.x, p.y, p.z])
    ensures Number([n.x, n.y, n.z], [p.x, p.y, p.z], 3) == Flat(p, n)
    ensures Weight([n.x, n.y, n.z], 3) == n.x * n.y * n.z
  {
    var r, c := [n.x, n.y, n.z], [p.x, p.y, p.z];
    assert Weight(r, 1) == Weight(r, 0) * n.x == n.x;
    assert Weight(r, 2) == n.x * n.y;
    assert Number(r, c, 1) == Number(r, c, 0) + Weight(r, 0) * c[0] == p.x;
    assert Number(r, c, 2) == p.x + n.x * p.y;
    assert Number(r, c, 3) == p.x + n.x * p.y + n.x * n.y * p.z;
    assert n.x * (p.y + n.y * p.z) == n.x * p.y + n.x * n.y * p.z by {
      assert n.x * (n.y * p.z) == n.x * n.y * p.z;
    }
  }
}
