/** The packing loops of the halo exchange, over flat arrays. */
module Packing {
  import opened Grid
  import opened Regions

  lemma SpliceOneMore<T>(f: seq<T>, at: int, row: seq<T>, x: T)
    requires 0 <= at && at + |row| < |f|
    ensures Splice(f, at, row + [x]) == Splice(f, at, row)[at + |row| := x]
  {
  }

  /** The innermost loop of the packing functions: copy n cells. */
  method CopyRow<T>(src: array<T>, from: int, dst: array<T>, to: int, n: int)
    requires src != dst && 0 <= n && 0 <= from && from + n <= src.Length && 0 <= to && to + n <= dst.Length
    modifies dst
    ensures dst[..] == Splice(old(dst[..]), to, src[from..from + n])
  {
    for x := 0 to n
      invariant dst[..] == Splice(old(dst[..]), to, src[from..from + x])
    {
      SpliceOneMore(old(dst[..]), to, src[from..from + x], src[x + from]);
      dst[x + to] := src[x + from];
      assert src[from..from + x + 1] == src[from..from + x] + [src[x + from]];
    }
  }

  ghost predicate Begins<T>(buf: seq<T>, goal: seq<T>, k: int) {
    |buf| == |goal| && 0 <= k <= |goal| && buf[..k] == goal[..k]
  }

  /** One more row of a packed message. */
  lemma NextRow<T>(buf: seq<T>, f: seq<T>, n: V3, b: Box, y: int, z: int)
    requires NonNegative(n) && BoxIn(b, n) && |f| == Volume(n) && 0 <= y < b.size.y && 0 <= z < b.size.z
    requires Begins(buf, Pack(f, n, b), SlotStart(b, y, z))
    ensures 0 <= RowStart(n, b, y, z) && RowStart(n, b, y, z) + b.size.x <= |f|
    ensures 0 <= SlotStart(b, y, z) && SlotStart(b, y, z) + b.size.x == SlotStart(b, y + 1, z) <= |buf|
    ensures Begins(Splice(buf, SlotStart(b, y, z), f[RowStart(n, b, y, z)..RowStart(n, b, y, z) + b.size.x]),
        Pack(f, n, b), SlotStart(b, y + 1, z))
  {
    PackedRow(f, n, b, y, z);
    var s, t, goal := SlotStart(b, y, z), SlotStart(b, y + 1, z), Pack(f, n, b);
    assert goal[..t] == goal[..s] + goal[s..t];
  }

  lemma Offset(n: V3, b: Box, y: int, z: int)
    ensures RowStart(n, b, y, z) == b.at.x + n.x * (y + b.at.y + (z + b.at.z) * n.y)
    ensures RowStart(n, b, y, z) == b.at.x + n.x * (y + b.at.y + n.y * (z + b.at.z))
  {
    assert (z + b.at.z) * n.y == n.y * (b.at.z + z);
  }

  lemma AllPacked<T>(buf: seq<T>, goal: seq<T>, b: Box)
    requires NonNegative(b.size) && |goal| == Volume(b.size)
    requires Begins(buf, goal, SlotStart(b, 0, b.size.z))
    ensures buf == goal
  {
    VolumeAsRows(b.size);
    assert buf == buf[..|buf|] && goal == goal[..|goal|];
  }

  /** The innermost loop of a packing function, for row (y, z) of the box b. */
  method PackRow<T>(field: array<T>, from: int, buf: array<T>, to: int, width: int,
                    ghost goal: seq<T>, ghost n: V3, ghost b: Box, ghost y: int, ghost z: int)
    requires field != buf && NonNegative(n) && BoxIn(b, n) && field.Length == Volume(n)
    requires 0 <= y < b.size.y && 0 <= z < b.size.z
    requires from == RowStart(n, b, y, z) && to == SlotStart(b, y, z) && width == b.size.x
    requires goal == Pack(field[..], n, b) && Begins(buf[..], goal, to)
    modifies buf
    ensures Begins(buf[..], goal, SlotStart(b, y + 1, z))
  {
    NextRow(buf[..], field[..], n, b, y, z);
    CopyRow(field, from, buf, to, width);
  }

  /** Where unpacking has got to: k rows of the left message, k' rows of the right one. */
  ghost predicate Unpacked<T>(now: seq<T>, f: seq<T>, n: V3, b: Box, m: seq<T>, k: int, b': Box, m': seq<T>, k': int) {
    && NonNegative(n) && BoxIn(b, n) && BoxIn(b', n) && |f| == Volume(n)
    && |m| == Volume(b.size) && |m'| == Volume(b'.size)
    && now == Filled(f, n, b, m, k, b', m', k')
  }

  /** The innermost loop of an unpacking function, for row (y, z) of the box b. */
  method UnpackRow<T>(buf: array<T>, from: int, field: array<T>, to: int, width: int, ghost f: seq<T>,
                      ghost n: V3, ghost b: Box, ghost y: int, ghost z: int, ghost b': Box, ghost m': seq<T>,
                      ghost k': int)
    requires field != buf && 0 <= y < b.size.y && 0 <= z < b.size.z
    requires Unpacked(field[..], f, n, b, buf[..], y + b.size.y * z, b', m', k')
    requires from == SlotStart(b, y, z) && to == RowStart(n, b, y, z) && width == b.size.x
    modifies field
    ensures Unpacked(field[..], f, n, b, buf[..], y + 1 + b.size.y * z, b', m', k')
  {
    FillRow(f, n, b, buf[..], y, z, b', m', k');
    CopyRow(buf, from, field, to, width);
    assert buf[from..from + width] == buf[..][from..from + width];
  }

  lemma Swap<T>(now: seq<T>, f: seq<T>, n: V3, b: Box, m: seq<T>, k: int, b': Box, m': seq<T>, k': int)
    requires Unpacked(now, f, n, b, m, k, b', m', k') && Disjoint(b, b')
    ensures Unpacked(now, f, n, b', m', k', b, m, k)
  {
    FillCommutes(f, n, b, m, k, b', m', k');
  }

  ghost predicate Disjoint(b: Box, b': Box) { forall p :: InBox(p, b) ==> !InBox(p, b') }

  /** The same row, of the box named second. */
  method UnpackRow2<T>(buf: array<T>, from: int, field: array<T>, to: int, width: int, ghost f: seq<T>,
                       ghost n: V3, ghost b: Box, ghost m: seq<T>, ghost k: int, ghost b': Box, ghost y: int,
                       ghost z: int)
    requires field != buf && 0 <= y < b'.size.y && 0 <= z < b'.size.z && Disjoint(b, b')
    requires Unpacked(field[..], f, n, b, m, k, b', buf[..], y + b'.size.y * z)
    requires from == SlotStart(b', y, z) && to == RowStart(n, b', y, z) && width == b'.size.x
    modifies field
    ensures Unpacked(field[..], f, n, b, m, k, b', buf[..], y + 1 + b'.size.y * z)
  {
    Swap(field[..], f, n, b, m, k, b', buf[..], y + b'.size.y * z);
    UnpackRow(buf, from, field, to, width, f, n, b', y, z, b, m, k);
    Swap(field[..], f, n, b', buf[..], y + 1 + b'.size.y * z, b, m, k);
  }

  lemma Start<T>(f: seq<T>, n: V3, b: Box, m: seq<T>, b': Box, m': seq<T>)
    requires NonNegative(n) && BoxIn(b, n) && BoxIn(b', n) && |f| == Volume(n)
    requires |m| == Volume(b.size) && |m'| == Volume(b'.size)
    ensures Unpacked(f, f, n, b, m, 0, b', m', 0)
  {
    FillNothing(f, n, b, m, b', m');
  }

  lemma Rows(n: int, z: int)
    ensures n + n * z == n * (z + 1)
  {
  }

  class Neighborhood {
    const ext: V3
    const halos: Halos
    const buffer: V3
    const zPlane: int

    predicate Valid() {
      NonNegative(ext) && buffer == Buffer(ext, halos) && zPlane == buffer.x * buffer.y
    }

    constructor (ext: V3, halos: Halos)
      requires NonNegative(ext)
      ensures Valid() && this.ext == ext && this.halos == halos
    {
      this.ext, this.halos := ext, halos;
      this.buffer := V3(ext.x + halos.xl + halos.xr, ext.y + halos.yl + halos.yr, ext.z + halos.zl + halos.zr);
      this.zPlane := (ext.x + halos.xl + halos.xr) * (ext.y + halos.yl + halos.yr);
    }

    function Send(dim: nat, left: bool): (b: Box)
      requires Valid() && dim < 3
      ensures BoxIn(b, buffer)
    {
      SendBox(ext, halos, dim, left)
    }

    function Recv(dim: nat, left: bool): (b: Box)
      requires Valid() && dim < 3
      ensures BoxIn(b, buffer) && b.size == Send(dim, left).size
    {
      RecvBox(ext, halos, dim, left)
    }

    /** The buffers a packing function works on: `left` is exchanged with the left side (it
        fills the left halo), `right` with the right side. */
    ghost predicate Buffers<T>(dim: nat, field: array<T>, left: array<T>, right: array<T>)
      requires Valid() && dim < 3
    {
      && field != left && field != right && left != right
      && field.Length == Volume(buffer)
      && left.Length == Volume(Send(dim, false).size)
      && right.Length == Volume(Send(dim, true).size)
    }

    /** Where a row of a packed box starts in the field and in the message. */
    lemma PackOffsets(dim: nat, left: bool, y: int, z: int)
      requires Valid() && dim < 3
      ensures dim == 0 ==>
        && RowStart(buffer, Send(0, left), y, z) ==
            (if left then halos.xl else ext.x) + buffer.x * (y + halos.yl + (z + halos.zl) * buffer.y)
        && SlotStart(Send(0, left), y, z) == (if left then halos.xr else halos.xl) * (y + ext.y * z)
      ensures dim == 1 ==>
        && RowStart(buffer, Send(1, left), y, z) ==
            buffer.x * (y + (if left then halos.yl else ext.y) + (z + halos.zl) * buffer.y)
        && SlotStart(Send(1, left), y, z) == buffer.x * (y + (if left then halos.yr else halos.yl) * z)
      ensures dim == 2 ==>
        && RowStart(buffer, Send(2, left), y, z) == buffer.x * (y + buffer.y * (z + if left then halos.zl else ext.z))
        && SlotStart(Send(2, left), y, z) == buffer.x * (y + buffer.y * z)
    {
      Offset(buffer, Send(dim, left), y, z);
    }

    /** The same for a row of an unpacked box. */
    lemma UnpackOffsets(dim: nat, left: bool, y: int, z: int)
      requires Valid() && dim < 3
      ensures dim == 0 ==>
        && RowStart(buffer, Recv(0, left), y, z) ==
            (if left then halos.xl + ext.x else 0) + buffer.x * (y + halos.yl + (z + halos.zl) * buffer.y)
        && SlotStart(Recv(0, left), y, z) == (if left then halos.xr else halos.xl) * (y + ext.y * z)
      ensures dim == 1 ==>
        && RowStart(buffer, Recv(1, left), y, z) ==
            buffer.x * (y + (if left then halos.yl + ext.y else 0) + (z + halos.zl) * buffer.y)
        && SlotStart(Recv(1, left), y, z) == buffer.x * (y + (if left then halos.yr else halos.yl) * z)
      ensures dim == 2 ==>
        && RowStart(buffer, Recv(2, left), y, z) ==
            buffer.x * (y + buffer.y * (z + if left then ext.z + halos.zl else 0))
        && SlotStart(Recv(2, left), y, z) == buffer.x * (y + buffer.y * z)
    {
      Offset(buffer, Recv(dim, left), y, z);
    }

    /** The y loop of pack_x, which fills both messages. */
    method PackXPlane<T>(z: int, field: array<T>, left: array<T>, right: array<T>, ghost gl: seq<T>, ghost gr: seq<T>)
      requires Valid() && Buffers(0, field, left, right) && 0 <= z < ext.z
      requires gl == Pack(field[..], buffer, Send(0, false)) && gr == Pack(field[..], buffer, Send(0, true))
      requires Begins(left[..], gl, SlotStart(Send(0, false), 0, z))
      requires Begins(right[..], gr, SlotStart(Send(0, true), 0, z))
      modifies left, right
      ensures Begins(left[..], gl, SlotStart(Send(0, false), 0, z + 1))
      ensures Begins(right[..], gr, SlotStart(Send(0, true), 0, z + 1))
    {
      ghost var bl, br := Send(0, false), Send(0, true);
      for y := 0 to ext.y
        invariant field[..] == old(field[..])
        invariant Begins(left[..], gl, SlotStart(bl, y, z))
        invariant Begins(right[..], gr, SlotStart(br, y, z))
      {
        var offset := buffer.x * (y + halos.yl + (z + halos.zl) * buffer.y);
        var offsetL := halos.xl * (y + ext.y * z);
        var offsetR := halos.xr * (y + ext.y * z);
        PackOffsets(0, false, y, z);
        PackRow(field, ext.x + offset, left, offsetL, halos.xl, gl, buffer, bl, y, z);
        PackOffsets(0, true, y, z);
        PackRow(field, halos.xl + offset, right, offsetR, halos.xr, gr, buffer, br, y, z);
      }
      SlotRows(bl, 0, z);
      SlotRows(br, 0, z);
    }

    method PackX<T>(field: array<T>, left: array<T>, right: array<T>)
      requires Valid() && Buffers(0, field, left, right)
      modifies left, right
      ensures left[..] == Pack(field[..], buffer, Send(0, false))
      ensures right[..] == Pack(field[..], buffer, Send(0, true))
    {
      ghost var bl, br := Send(0, false), Send(0, true);
      ghost var gl, gr := Pack(field[..], buffer, bl), Pack(field[..], buffer, br);
      SlotRows(bl, 0, 0);
      SlotRows(br, 0, 0);
      for z := 0 to ext.z
        invariant field[..] == old(field[..])
        invariant Begins(left[..], gl, SlotStart(bl, 0, z))
        invariant Begins(right[..], gr, SlotStart(br, 0, z))
      {
        PackXPlane(z, field, left, right, gl, gr);
      }
      AllPacked(left[..], gl, bl);
      AllPacked(right[..], gr, br);
    }

    /** One of the two y loops of pack_y; `left` names the direction of the message. */
    method PackYPlane<T>(left: bool, z: int, field: array<T>, buf: array<T>, ghost goal: seq<T>)
      requires Valid() && 0 <= z < ext.z && field != buf && field.Length == Volume(buffer)
      requires goal == Pack(field[..], buffer, Send(1, left))
      requires Begins(buf[..], goal, SlotStart(Send(1, left), 0, z))
      modifies buf
      ensures Begins(buf[..], goal, SlotStart(Send(1, left), 0, z + 1))
    {
      ghost var b := Send(1, left);
      var width := if left then halos.yr else halos.yl;
      var first := if left then halos.yl else ext.y;
      for y := 0 to width
        invariant field[..] == old(field[..])
        invariant Begins(buf[..], goal, SlotStart(b, y, z))
      {
        var offset := buffer.x * (y + first + (z + halos.zl) * buffer.y);
        var offsetM := buffer.x * (y + width * z);
        PackOffsets(1, left, y, z);
        PackRow(field, offset, buf, offsetM, buffer.x, goal, buffer, b, y, z);
      }
      SlotRows(b, 0, z);
    }

    method PackY<T>(field: array<T>, left: array<T>, right: array<T>)
      requires Valid() && Buffers(1, field, left, right)
      modifies left, right
      ensures left[..] == Pack(field[..], buffer, Send(1, false))
      ensures right[..] == Pack(field[..], buffer, Send(1, true))
    {
      ghost var bl, br := Send(1, false), Send(1, true);
      ghost var gl, gr := Pack(field[..], buffer, bl), Pack(field[..], buffer, br);
      SlotRows(bl, 0, 0);
      SlotRows(br, 0, 0);
      for z := 0 to ext.z
        invariant field[..] == old(field[..])
        invariant Begins(left[..], gl, SlotStart(bl, 0, z))
        invariant Begins(right[..], gr, SlotStart(br, 0, z))
      {
        PackYPlane(false, z, field, left, gl);
        PackYPlane(true, z, field, right, gr);
      }
      AllPacked(left[..], gl, bl);
      AllPacked(right[..], gr, br);
    }

    /** One of the two loops of pack_z. */
    method PackZSide<T>(left: bool, field: array<T>, buf: array<T>)
      requires Valid() && field != buf && field.Length == Volume(buffer) && buf.Length == Volume(Send(2, left).size)
      modifies buf
      ensures buf[..] == Pack(field[..], buffer, Send(2, left))
    {
      ghost var b := Send(2, left);
      ghost var goal := Pack(field[..], buffer, b);
      var width := if left then halos.zr else halos.zl;
      var first := if left then halos.zl else ext.z;
      SlotRows(b, 0, 0);
      for z := 0 to width
        invariant field[..] == old(field[..])
        invariant Begins(buf[..], goal, SlotStart(b, 0, z))
      {
        for y := 0 to buffer.y
          invariant field[..] == old(field[..])
          invariant Begins(buf[..], goal, SlotStart(b, y, z))
        {
          var offset := buffer.x * (y + buffer.y * (z + first));
          var offsetM := buffer.x * (y + buffer.y * z);
          PackOffsets(2, left, y, z);
          PackRow(field, offset, buf, offsetM, buffer.x, goal, buffer, b, y, z);
        }
        SlotRows(b, 0, z);
      }
      AllPacked(buf[..], goal, b);
    }

    method PackZ<T>(field: array<T>, left: array<T>, right: array<T>)
      requires Valid() && Buffers(2, field, left, right)
      modifies left, right
      ensures left[..] == Pack(field[..], buffer, Send(2, false))
      ensures right[..] == Pack(field[..], buffer, Send(2, true))
    {
      PackZSide(false, field, left);
      PackZSide(true, field, right);
    }

    lemma Apart(dim: nat)
      requires Valid() && dim < 3
      ensures Disjoint(Recv(dim, false), Recv(dim, true))
    {
    }

    method UnpackX<T>(field: array<T>, left: array<T>, right: array<T>)
      requires Valid() && Buffers(0, field, left, right)
      modifies field
      ensures field[..] == Unpack(old(field[..]), buffer, Recv(0, false), left[..], Recv(0, true), right[..])
    {
      ghost var bl, br := Recv(0, false), Recv(0, true);
      ghost var f, l, r := field[..], left[..], right[..];
      Apart(0);
      Start(f, buffer, bl, l, br, r);
      for z := 0 to ext.z
        invariant left[..] == l && right[..] == r && Unpacked(field[..], f, buffer, bl, l, ext.y * z, br, r, ext.y * z)
      {
        for y := 0 to ext.y
          invariant left[..] == l && right[..] == r
              && Unpacked(field[..], f, buffer, bl, l, y + ext.y * z, br, r, y + ext.y * z)
        {
          var offset := buffer.x * (y + halos.yl + (z + halos.zl) * buffer.y);
          var offsetL := halos.xl * (y + ext.y * z);
          var offsetR := halos.xr * (y + ext.y * z);
          UnpackOffsets(0, false, y, z);
          UnpackRow(left, offsetL, field, offset, halos.xl, f, buffer, bl, y, z, br, r, y + ext.y * z);
          UnpackOffsets(0, true, y, z);
          UnpackRow2(right, offsetR, field, halos.xl + ext.x + offset, halos.xr, f, buffer, bl, l, y + 1 + ext.y * z,
              br, y, z);
        }
        Rows(ext.y, z);
      }
    }

    method UnpackY<T>(field: array<T>, left: array<T>, right: array<T>)
      requires Valid() && Buffers(1, field, left, right)
      modifies field
      ensures field[..] == Unpack(old(field[..]), buffer, Recv(1, false), left[..], Recv(1, true), right[..])
    {
      ghost var bl, br := Recv(1, false), Recv(1, true);
      ghost var f, l, r := field[..], left[..], right[..];
      Apart(1);
      Start(f, buffer, bl, l, br, r);
      for z := 0 to ext.z
        invariant left[..] == l && right[..] == r
            && Unpacked(field[..], f, buffer, bl, l, halos.yl * z, br, r, halos.yr * z)
      {
        for y := 0 to halos.yl
          invariant left[..] == l && right[..] == r
              && Unpacked(field[..], f, buffer, bl, l, y + halos.yl * z, br, r, halos.yr * z)
        {
          var offset := buffer.x * (y + (z + halos.zl) * buffer.y);
          var offsetL := buffer.x * (y + halos.yl * z);
          UnpackOffsets(1, false, y, z);
          UnpackRow(left, offsetL, field, offset, buffer.x, f, buffer, bl, y, z, br, r, halos.yr * z);
        }
        Rows(halos.yl, z);
        for y := 0 to halos.yr
          invariant left[..] == l && right[..] == r
              && Unpacked(field[..], f, buffer, bl, l, halos.yl * (z + 1), br, r, y + halos.yr * z)
        {
          var offset := buffer.x * (y + halos.yl + ext.y + (z + halos.zl) * buffer.y);
          var offsetR := buffer.x * (y + halos.yr * z);
          UnpackOffsets(1, true, y, z);
          UnpackRow2(right, offsetR, field, offset, buffer.x, f, buffer, bl, l, halos.yl * (z + 1), br, y, z);
        }
        Rows(halos.yr, z);
      }
    }

    method UnpackZ<T>(field: array<T>, left: array<T>, right: array<T>)
      requires Valid() && Buffers(2, field, left, right)
      modifies field
      ensures field[..] == Unpack(old(field[..]), buffer, Recv(2, false), left[..], Recv(2, true), right[..])
    {
      ghost var bl, br := Recv(2, false), Recv(2, true);
      ghost var f, l, r := field[..], left[..], right[..];
      Apart(2);
      Start(f, buffer, bl, l, br, r);
      for z := 0 to halos.zl
        invariant left[..] == l && right[..] == r && Unpacked(field[..], f, buffer, bl, l, buffer.y * z, br, r, 0)
      {
        for y := 0 to buffer.y
          invariant left[..] == l && right[..] == r && Unpacked(field[..], f, buffer, bl, l, y + buffer.y * z, br, r, 0)
        {
          var offset := buffer.x * (y + buffer.y * z);
          var offsetL := buffer.x * (y + buffer.y * z);
          UnpackOffsets(2, false, y, z);
          UnpackRow(left, offsetL, field, offset, buffer.x, f, buffer, bl, y, z, br, r, 0);
        }
        Rows(buffer.y, z);
      }
      for z := 0 to halos.zr
        invariant left[..] == l && right[..] == r
            && Unpacked(field[..], f, buffer, bl, l, buffer.y * halos.zl, br, r, buffer.y * z)
      {
        for y := 0 to buffer.y
          invariant left[..] == l && right[..] == r
              && Unpacked(field[..], f, buffer, bl, l, buffer.y * halos.zl, br, r, y + buffer.y * z)
        {
          var offset := buffer.x * (y + buffer.y * (z + ext.z + halos.zl));
          var offsetR := buffer.x * (y + buffer.y * z);
          UnpackOffsets(2, true, y, z);
          UnpackRow2(right, offsetR, field, offset, buffer.x, f, buffer, bl, l, buffer.y * halos.zl, br, y, z);
        }
        Rows(buffer.y, z);
      }
    }
  }
}
