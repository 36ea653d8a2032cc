/** The periodic block decomposition of a global grid over ranks and threads. */
module Decomposition {
  import opened Grid
  import opened GridOrder
  import opened Blocks
  import opened Layouts

  /** Rank grid, thread grid of one rank, and global grid of cells. */
  datatype Config = Config(ranks: V3, threads: V3, cells: V3)

  ghost predicate Sensible(g: Config) { Positive(g.ranks) && Positive(g.threads) && Positive(g.cells) }

  /** The grid of domains: one domain per thread of every rank. */
  function Threads(g: Config): V3 {
    V3(g.ranks.x * g.threads.x, g.ranks.y * g.threads.y, g.ranks.z * g.threads.z)
  }

  lemma ThreadsPositive(g: Config)
    requires Positive(g.ranks) && Positive(g.threads)
    ensures Positive(Threads(g))
  {
    ProductMonotone(g.ranks.x, 1, g.threads.x);
    ProductMonotone(g.ranks.y, 1, g.threads.y);
    ProductMonotone(g.ranks.z, 1, g.threads.z);
  }

  /** The blocks of a decomposition: every axis split evenly. */
  function LayoutOf(g: Config): (l: Layout)
    requires Positive(g.ranks) && Positive(g.threads) && NonNegative(g.cells)
    ensures Domains(l) == Threads(g) && Positive(Threads(g)) && l.cells == g.cells
  {
    ThreadsPositive(g);
    Layout(Even(g.cells.x, Threads(g).x), Even(g.cells.y, Threads(g).y), Even(g.cells.z, Threads(g).z), g.cells)
  }

  lemma LayoutWellFormed(g: Config)
    requires Sensible(g)
    ensures WellFormed(LayoutOf(g))
  {
    EvenTiles(g.cells.x, Threads(g).x);
    EvenTiles(g.cells.y, Threads(g).y);
    EvenTiles(g.cells.z, Threads(g).z);
  }

  // ----- ranks and threads -----

  function RankCoord(g: Config, c: V3): V3
    requires Positive(g.threads)
  {
    V3(c.x / g.threads.x, c.y / g.threads.y, c.z / g.threads.z)
  }

  function ThreadCoord(g: Config, c: V3): V3
    requires Positive(g.threads)
  {
    V3(c.x % g.threads.x, c.y % g.threads.y, c.z % g.threads.z)
  }

  function ThreadOf(g: Config, c: V3): int
    requires Positive(g.threads)
  {
    Flat(ThreadCoord(g, c), g.threads)
  }

  function NumThreads(g: Config): nat
    requires NonNegative(g.threads)
  {
    Volume(g.threads)
  }

  /** The domain of a thread on the rank at rank coordinate r. */
  function CoordOf(g: Config, r: V3, thread: int): V3
    requires Positive(g.threads)
  {
    var t := Unflat(thread, g.threads);
    V3(r.x * g.threads.x + t.x, r.y * g.threads.y + t.y, r.z * g.threads.z + t.z)
  }

  lemma AxisSplit(c: int, r: int, t: int)
    requires 0 < t && 0 <= c < r * t
    ensures 0 <= c / t < r && 0 <= c % t < t && c / t * t + c % t == c
  {
    assert r * t == t * r;
    QuotientBound(c, t, r);
  }

  /** A domain is one thread of one rank. */
  lemma DomainToThread(g: Config, c: V3)
    requires Positive(g.threads) && Inside(c, Threads(g))
    ensures Inside(RankCoord(g, c), g.ranks) && Inside(ThreadCoord(g, c), g.threads)
    ensures 0 <= ThreadOf(g, c) < NumThreads(g)
    ensures CoordOf(g, RankCoord(g, c), ThreadOf(g, c)) == c
  {
    AxisSplit(c.x, g.ranks.x, g.threads.x);
    AxisSplit(c.y, g.ranks.y, g.threads.y);
    AxisSplit(c.z, g.ranks.z, g.threads.z);
    FlatBounds(ThreadCoord(g, c), g.threads);
    UnflatFlat(ThreadCoord(g, c), g.threads);
  }

  lemma AxisJoin(r: int, t: int, rs: int, ts: int)
    requires 0 <= r < rs && 0 <= t < ts
    ensures 0 <= r * ts + t < rs * ts && (r * ts + t) / ts == r && (r * ts + t) % ts == t
  {
    assert r * ts == ts * r && rs * ts == ts * rs;
    DivModOf(t, ts, r);
    DigitsBound(t, ts, r, rs);
  }

  /** One thread of one rank is a domain, and it is the thread of that domain. */
  lemma ThreadToDomain(g: Config, r: V3, thread: int)
    requires Positive(g.threads) && Inside(r, g.ranks) && 0 <= thread < NumThreads(g)
    ensures var c := CoordOf(g, r, thread);
            Inside(c, Threads(g)) && RankCoord(g, c) == r && ThreadOf(g, c) == thread
  {
    FlatUnflat(thread, g.threads);
    var t := Unflat(thread, g.threads);
    AxisJoin(r.x, t.x, g.ranks.x, g.threads.x);
    AxisJoin(r.y, t.y, g.ranks.y, g.threads.y);
    AxisJoin(r.z, t.z, g.ranks.z, g.threads.z);
  }

  /** The threads of a rank lie in its part of the grid in order: the first at the origin of
      the part, each next one further in x, at the end of a row in y, at the end of a plane in z. */
  lemma ThreadsInOrder(g: Config, r: V3, thread: int)
    requires Positive(g.threads) && Inside(r, g.ranks) && 0 <= thread < NumThreads(g)
    ensures CoordOf(g, r, 0) == V3(r.x * g.threads.x, r.y * g.threads.y, r.z * g.threads.z)
    ensures thread + 1 < NumThreads(g) ==>
      IsNext(Minus(CoordOf(g, r, thread), CoordOf(g, r, 0)), Minus(CoordOf(g, r, thread + 1), CoordOf(g, r, 0)),
             g.threads)
  {
    CellsInOrder(0, g.threads);
    CellsInOrder(thread, g.threads);
  }

  /** A numbering of the rank grid. */
  type RankMap = V3 -> int

  ghost predicate OneToOne(rankOf: RankMap, ranks: V3) {
    forall a, b {:trigger rankOf(a), rankOf(b)} :: Inside(a, ranks) && Inside(b, ranks) ==>
      (rankOf(a) == rankOf(b) ==> a == b)
  }

  /** The numbering of Cartesian communicators (section 7.2 of MPI 3.1): row-major, the last
      coordinate running fastest. */
  function RowMajor(ranks: V3): RankMap {
    (c: V3) => c.z + ranks.z * (c.y + ranks.y * c.x)
  }

  lemma RowMajorOneToOne(ranks: V3)
    ensures OneToOne(RowMajor(ranks), ranks)
  {
    forall a, b | Inside(a, ranks) && Inside(b, ranks) && RowMajor(ranks)(a) == RowMajor(ranks)(b) ensures a == b {
      FlatInjective(V3(a.z, a.y, a.x), V3(b.z, b.y, b.x), V3(ranks.z, ranks.y, ranks.x));
    }
  }

  /** It numbers the ranks by x, then y, then z. */
  lemma RowMajorOrders(ranks: V3, a: V3, b: V3)
    requires Inside(a, ranks) && Inside(b, ranks)
    ensures 0 <= RowMajor(ranks)(a) < ranks.z * ranks.y * ranks.x
    ensures RowMajor(ranks)(a) < RowMajor(ranks)(b) <==> ComesBefore(V3(a.z, a.y, a.x), V3(b.z, b.y, b.x))
  {
    var n := V3(ranks.z, ranks.y, ranks.x);
    FlatBounds(V3(a.z, a.y, a.x), n);
    FlatOrders(V3(a.z, a.y, a.x), V3(b.z, b.y, b.x), n);
  }

  // ----- domains and neighbours -----

  datatype Domain = Domain(id: int, rank: int, thread: int, coord: V3, origin: V3, ext: V3)

  /** Everything that is to be known about the domain at c, whoever asks. */
  function DomainAt(g: Config, rankOf: RankMap, c: V3): Domain
    requires Sensible(g) && Inside(c, Threads(g))
  {
    var l := LayoutOf(g);
    Domain(Flat(c, Threads(g)), rankOf(RankCoord(g, c)), ThreadOf(g, c), c, Origin(l, c), Extent(l, c))
  }

  /** A domain record is right: its rank is that of a rank coordinate, its thread the one which
      has the domain's coordinate there, its id the place of the coordinate in the grid of all
      domains, and its origin and extent are those of the block. */
  ghost predicate Names(g: Config, rankOf: RankMap, d: Domain)
    requires Sensible(g)
  {
    && (exists r :: Inside(r, g.ranks) && d.rank == rankOf(r) && CoordOf(g, r, d.thread) == d.coord)
    && 0 <= d.thread < NumThreads(g)
    && 0 <= d.id < Volume(Threads(g)) && Unflat(d.id, Threads(g)) == d.coord
    && Inside(d.coord, Threads(g))
    && d.origin == Origin(LayoutOf(g), d.coord) && d.ext == Extent(LayoutOf(g), d.coord)
  }

  lemma DomainAtNames(g: Config, rankOf: RankMap, c: V3)
    requires Sensible(g) && Inside(c, Threads(g))
    ensures Names(g, rankOf, DomainAt(g, rankOf, c))
  {
    DomainToThread(g, c);
    FlatBounds(c, Threads(g));
    UnflatFlat(c, Threads(g));
  }

  lemma NamesRank(g: Config, rankOf: RankMap, d: Domain)
    requires Sensible(g) && Names(g, rankOf, d)
    ensures Inside(RankCoord(g, d.coord), g.ranks)
    ensures d.rank == rankOf(RankCoord(g, d.coord)) && d.thread == ThreadOf(g, d.coord)
  {
    var r :| Inside(r, g.ranks) && d.rank == rankOf(r) && CoordOf(g, r, d.thread) == d.coord;
    ThreadToDomain(g, r, d.thread);
  }

  /** Rank and thread identify a domain, and so does its id. */
  lemma NamesIdentify(g: Config, rankOf: RankMap, d: Domain, d': Domain)
    requires Sensible(g) && OneToOne(rankOf, g.ranks) && Names(g, rankOf, d) && Names(g, rankOf, d')
    ensures d.rank == d'.rank && d.thread == d'.thread <==> d == d'
    ensures d.id == d'.id <==> d == d'
    ensures d.coord == d'.coord <==> d == d'
  {
    NamesRank(g, rankOf, d);
    NamesRank(g, rankOf, d');
    if d.rank == d'.rank && d.thread == d'.thread {
      DomainToThread(g, d.coord);
      DomainToThread(g, d'.coord);
    }
    FlatUnflat(d.id, Threads(g));
    FlatUnflat(d'.id, Threads(g));
  }

  /** Two domains are the same as soon as rank and thread agree. */
  lemma RankAndThreadIdentify(g: Config, rankOf: RankMap, b: V3, c: V3)
    requires Positive(g.threads) && OneToOne(rankOf, g.ranks) && Inside(b, Threads(g)) && Inside(c, Threads(g))
    requires rankOf(RankCoord(g, b)) == rankOf(RankCoord(g, c)) && ThreadOf(g, b) == ThreadOf(g, c)
    ensures b == c
  {
    DomainToThread(g, b);
    DomainToThread(g, c);
  }

  /** The decomposition as one rank sees it. */
  class View {
    const ranks: V3
    const threads: V3
    const rankOf: RankMap
    const rank: int
    ghost const place: V3  // the coordinate of this rank
    var coord: V3          // coordinate of its first domain
    var lastCoord: V3
    var globalDomain: V3
    var x: Axis            // m_domain_coord[0] and m_domain_ext[0]
    var y: Axis
    var z: Axis
    var lastDomainCoord: V3

    ghost function Cfg(): Config
      reads this
    {
      Config(ranks, threads, globalDomain)
    }

    ghost predicate Valid()
      reads this
    {
      && Sensible(Cfg())
      && Inside(place, ranks) && rank == rankOf(place) && OneToOne(rankOf, ranks)
      && coord == V3(place.x * threads.x, place.y * threads.y, place.z * threads.z)
      && lastCoord == Minus(Threads(Cfg()), V3(1, 1, 1))
      && Layout(x, y, z, globalDomain) == LayoutOf(Cfg())
      && lastDomainCoord == Minus(globalDomain, V3(1, 1, 1))
    }

    constructor (ranks: V3, threads: V3, domain: V3, local: bool, rankOf: RankMap, place: V3)
      requires Positive(ranks) && Positive(threads) && Positive(domain)
      requires OneToOne(rankOf, ranks) && Inside(place, ranks)
      ensures Valid() && this.ranks == ranks && this.threads == threads && this.rankOf == rankOf && this.place == place
      ensures local ==> forall c :: Inside(c, Domains(LayoutOf(Cfg()))) ==> Extent(LayoutOf(Cfg()), c) == domain
      ensures !local ==> globalDomain == domain
    {
      this.ranks, this.threads, this.rankOf, this.rank, this.place := ranks, threads, rankOf, rankOf(place), place;
      coord := place;
      lastCoord := V3(ranks.x * threads.x - 1, ranks.y * threads.y - 1, ranks.z * threads.z - 1);
      x, y, z := Axis([], []), Axis([], []), Axis([], []);
      globalDomain, lastDomainCoord := domain, domain;
      new;
      InitDomain(domain, local);
    }

    /** One axis of init_domain: prefix sums of the block extents. */
    static method InitAxis(global: int, dim: int) returns (axis: Axis)
      requires 0 <= global && 0 < dim
      ensures axis == Even(global, dim)
    {
      var ext := global / dim;
      var coords: seq<nat>, exts: seq<nat> := seq(dim + 1, _ => 0), seq(dim, _ => 0);
      var j := global - dim * ext;
      EvenTiles(global, dim);
      ghost var goal := Even(global, dim);
      for i := 0 to dim
        invariant |coords| == dim + 1 && |exts| == dim
        invariant forall k :: 0 <= k <= i ==> coords[k] == goal.org[k]
        invariant forall k :: 0 <= k < i ==> exts[k] == goal.ext[k]
      {
        assert goal.org[i + 1] == goal.org[i] + goal.ext[i];
        coords := coords[i + 1 := coords[i] + ext + (if i < j then 1 else 0)];
        exts := exts[i := ext + (if i < j then 1 else 0)];
      }
      axis := Axis(coords, exts);
    }

    method InitDomain(domain: V3, local: bool)
      requires Positive(ranks) && Positive(threads) && Positive(domain)
      requires OneToOne(rankOf, ranks) && Inside(place, ranks) && rank == rankOf(place) && coord == place
      requires lastCoord == V3(ranks.x * threads.x - 1, ranks.y * threads.y - 1, ranks.z * threads.z - 1)
      modifies this
      ensures Valid() && lastCoord == old(lastCoord)
      ensures local ==> forall c :: Inside(c, Domains(LayoutOf(Cfg()))) ==> Extent(LayoutOf(Cfg()), c) == domain
      ensures !local ==> globalDomain == domain
    {
      var dim := V3(ranks.x * threads.x, ranks.y * threads.y, ranks.z * threads.z);
      ThreadsPositive(Config(ranks, threads, domain));
      coord := V3(coord.x * threads.x, coord.y * threads.y, coord.z * threads.z);
      if local {
        UniformAxis(dim.x, domain.x);
        UniformAxis(dim.y, domain.y);
        UniformAxis(dim.z, domain.z);
      }
      globalDomain := if local then V3(dim.x * domain.x, dim.y * domain.y, dim.z * domain.z) else domain;
      x := InitAxis(globalDomain.x, dim.x);
      y := InitAxis(globalDomain.y, dim.y);
      z := InitAxis(globalDomain.z, dim.z);
      LayoutWellFormed(Cfg());
      lastDomainCoord := V3(x.org[dim.x] - 1, y.org[dim.y] - 1, z.org[dim.z] - 1);
    }

    static lemma UniformAxis(n: int, e: int)
      requires 0 < n && 0 < e
      ensures 0 < n * e && forall i :: 0 <= i < n ==> Even(n * e, n).ext[i] == e
    {
      ProductMonotone(n, 1, e);
      DivModOf(0, n, e);
      assert 0 + n * e == n * e;
    }

    method Coord(threadId: int) returns (res: V3)
      requires Valid() && 0 <= threadId < NumThreads(Cfg())
      ensures res == CoordOf(Cfg(), place, threadId)
      ensures var p := Minus(res, coord); Inside(p, threads) && p.x + threads.x * (p.y + threads.y * p.z) == threadId
      ensures Inside(res, Threads(Cfg())) && RankCoord(Cfg(), res) == place && ThreadOf(Cfg(), res) == threadId
    {
      ThreadToDomain(Cfg(), place, threadId);
      FlatUnflat(threadId, threads);
      res := coord;
      var t := threadId;
      res := res.(x := res.x + t % threads.x);
      t := t / threads.x;
      res := res.(y := res.y + t % threads.y);
      t := t / threads.y;
      res := res.(z := res.z + t);
    }

    /** What a thread of this rank is to know about the domain at offset d from its own. */
    ghost function DomainAtOffset(threadId: int, d: V3): Domain
      requires Valid() && 0 <= threadId < NumThreads(Cfg()) && Reaches(LayoutOf(Cfg()), d)
      reads this
    {
      ThreadToDomain(Cfg(), place, threadId);
      ShiftInverse(LayoutOf(Cfg()), CoordOf(Cfg(), place, threadId), d);
      DomainAt(Cfg(), rankOf, Shift(LayoutOf(Cfg()), CoordOf(Cfg(), place, threadId), d))
    }

    lemma NoOffset(threadId: int)
      requires Valid() && 0 <= threadId < NumThreads(Cfg())
      ensures Reaches(LayoutOf(Cfg()), V3(0, 0, 0))
      ensures Inside(CoordOf(Cfg(), place, threadId), Threads(Cfg()))
      ensures DomainAtOffset(threadId, V3(0, 0, 0)) == DomainAt(Cfg(), rankOf, CoordOf(Cfg(), place, threadId))
    {
      ThreadToDomain(Cfg(), place, threadId);
    }

    method DomainOf(threadId: int) returns (d: Domain)
      requires Valid() && 0 <= threadId < NumThreads(Cfg())
      ensures Reaches(LayoutOf(Cfg()), V3(0, 0, 0)) && d == DomainAtOffset(threadId, V3(0, 0, 0))
      ensures d.rank == rank && d.thread == threadId && d.coord == CoordOf(Cfg(), place, threadId)
      ensures Names(Cfg(), rankOf, d)
    {
      var c := Coord(threadId);
      NoOffset(threadId);
      DomainAtNames(Cfg(), rankOf, c);
      d := Domain(c.x + ranks.x * threads.x * (c.y + ranks.y * threads.y * c.z), rank, threadId, c,
                  V3(this.x.org[c.x], this.y.org[c.y], this.z.org[c.z]),
                  V3(this.x.ext[c.x], this.y.ext[c.y], this.z.ext[c.z]));
    }

    static method WrapAxis(c: int, last: int) returns (r: int)
      requires 0 <= last
      ensures r == WrapBlock(last + 1, c)
    {
      r := c;
      if r > last { r := r - (last + 1); }
      if r < 0 { r := r + last + 1; }
    }

    /** The coordinate at an offset, brought back into the grid. */
    method Moved(c0: V3, dx: int, dy: int, dz: int) returns (c: V3)
      requires Valid() && Inside(c0, Threads(Cfg())) && Reaches(LayoutOf(Cfg()), V3(dx, dy, dz))
      ensures c == Shift(LayoutOf(Cfg()), c0, V3(dx, dy, dz)) && Inside(c, Threads(Cfg()))
    {
      ShiftInverse(LayoutOf(Cfg()), c0, V3(dx, dy, dz));
      var x := WrapAxis(c0.x + dx, lastCoord.x);
      var y := WrapAxis(c0.y + dy, lastCoord.y);
      var z := WrapAxis(c0.z + dz, lastCoord.z);
      c := V3(x, y, z);
    }

    /** Rank and thread of the domain at c; the own rank is recognised by its first domain. */
    method Locate(c: V3) returns (nRank: int, thread: int)
      requires Valid() && Inside(c, Threads(Cfg()))
      ensures nRank == rankOf(RankCoord(Cfg(), c)) && thread == ThreadOf(Cfg(), c)
    {
      var r := V3(c.x / threads.x, c.y / threads.y, c.z / threads.z);
      var t := V3(c.x - r.x * threads.x, c.y - r.y * threads.y, c.z - r.z * threads.z);
      AxisSplit(c.x, ranks.x, threads.x);
      AxisSplit(c.y, ranks.y, threads.y);
      AxisSplit(c.z, ranks.z, threads.z);
      thread := t.x + threads.x * (t.y + threads.y * t.z);
      if r.x * threads.x == coord.x && r.y * threads.y == coord.y && r.z * threads.z == coord.z {
        SameMultiple(r.x, place.x, threads.x);
        SameMultiple(r.y, place.y, threads.y);
        SameMultiple(r.z, place.z, threads.z);
        nRank := rank;
      } else {
        nRank := rankOf(r);
      }
    }

    /** Neighbour agreement: what this rank works out about a neighbour is, in all six
        fields, what that neighbour says of itself (`DomainAt` of its coordinate). */
    method Neighbor(threadId: int, dx: int, dy: int, dz: int) returns (d: Domain)
      requires Valid() && 0 <= threadId < NumThreads(Cfg()) && Reaches(LayoutOf(Cfg()), V3(dx, dy, dz))
      ensures d == DomainAtOffset(threadId, V3(dx, dy, dz))
      ensures d.coord == Shift(LayoutOf(Cfg()), CoordOf(Cfg(), place, threadId), V3(dx, dy, dz))
      ensures Names(Cfg(), rankOf, d)
    {
      var c0 := Coord(threadId);
      var c := Moved(c0, dx, dy, dz);
      var nRank, thread := Locate(c);
      d := Domain(c.x + ranks.x * threads.x * (c.y + ranks.y * threads.y * c.z), nRank, thread, c,
                  V3(this.x.org[c.x], this.y.org[c.y], this.z.org[c.z]),
                  V3(this.x.ext[c.x], this.y.ext[c.y], this.z.ext[c.z]));
      assert Names(Cfg(), rankOf, d) by {
        DomainAtNames(Cfg(), rankOf, c);
      }
    }

    static lemma SameMultiple(a: int, b: int, m: int)
      requires 0 < m && a * m == b * m
      ensures a == b
    {
      DivModOf(0, m, a);
      DivModOf(0, m, b);
    }

    /** d is the record of thread i of this rank. */
    ghost predicate OwnRecord(d: Domain, i: nat)
      requires Valid()
      reads this
    {
      d.rank == rank && d.thread == i && d.coord == CoordOf(Cfg(), place, i) && Names(Cfg(), rankOf, d)
    }

    /** The domains of this rank, by thread: all coordinates of the rank, each once, in order. */
    method AllDomains() returns (res: seq<Domain>)
      requires Valid()
      ensures |res| == NumThreads(Cfg()) && 0 < |res| && res[0].coord == coord
      ensures forall i :: 0 <= i < |res| ==> OwnRecord(res[i], i)
      ensures forall i :: 0 <= i < |res| - 1 ==>
        IsNext(Minus(res[i].coord, coord), Minus(res[i + 1].coord, coord), threads)
      ensures forall i, j :: 0 <= i < j < |res| ==> res[i].coord != res[j].coord
      ensures forall c :: Inside(c, Threads(Cfg())) ==>
        (RankCoord(Cfg(), c) == place <==> exists i :: 0 <= i < |res| && res[i].coord == c)
    {
      res := [];
      for i := 0 to threads.x * threads.y * threads.z
        invariant |res| == i && forall k :: 0 <= k < i ==> OwnRecord(res[k], k)
      {
        var d := DomainOf(i);
        assert OwnRecord(d, i);
        res := res + [d];
      }
      OwnCoords(res);
    }

    /** The coordinates of this rank's threads are in order, distinct, and all that it has. */
    lemma OwnCoords(res: seq<Domain>)
      requires Valid() && |res| == NumThreads(Cfg())
      requires forall i :: 0 <= i < |res| ==> OwnRecord(res[i], i)
      ensures 0 < |res| && res[0].coord == coord
      ensures forall i :: 0 <= i < |res| - 1 ==>
        IsNext(Minus(res[i].coord, coord), Minus(res[i + 1].coord, coord), threads)
      ensures forall i, j :: 0 <= i < j < |res| ==> res[i].coord != res[j].coord
      ensures forall c :: Inside(c, Threads(Cfg())) ==>
        (RankCoord(Cfg(), c) == place <==> exists i :: 0 <= i < |res| && res[i].coord == c)
    {
      FlatBounds(V3(0, 0, 0), threads);
      ThreadsInOrder(Cfg(), place, 0);
      forall i | 0 <= i < |res|
        ensures RankCoord(Cfg(), res[i].coord) == place && ThreadOf(Cfg(), res[i].coord) == i
        ensures i + 1 < |res| ==> IsNext(Minus(res[i].coord, coord), Minus(res[i + 1].coord, coord), threads)
      {
        ThreadToDomain(Cfg(), place, i);
        ThreadsInOrder(Cfg(), place, i);
      }
      forall c | Inside(c, Threads(Cfg())) && RankCoord(Cfg(), c) == place
        ensures exists i :: 0 <= i < |res| && res[i].coord == c
      {
        DomainToThread(Cfg(), c);
        assert res[ThreadOf(Cfg(), c)].coord == c;
      }
    }
  }
}
