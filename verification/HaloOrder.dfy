/** When the messages of the halo exchange keep their order: exactly then no run matches a
    receive with another's message. */
module HaloOrder {
  import opened Grid
  import opened Layouts
  import opened Decomposition
  import opened StagedExchange
  import opened Fields
  import opened Tags
  import opened MessagePassing
  import opened OrderedRuns
  import opened Overtaking
  import opened HaloProgram

  // ----- domains close to each other stay close in time -----

  function Step1(c: int, b: int): int { if c < b then c + 1 else if b < c then c - 1 else c }

  /** One step from c toward b in dimension dim. */
  function Toward(c: V3, b: V3, dim: nat): V3 {
    match dim
    case 0 => c.(x := Step1(c.x, b.x))
    case 1 => c.(y := Step1(c.y, b.y))
    case _ => c.(z := Step1(c.z, b.z))
  }

  predicate Within(c: V3, b: V3, d: int) {
    -d <= c.x - b.x <= d && -d <= c.y - b.y <= d && -d <= c.z - b.z <= d
  }

  lemma TowardIsNeighbour(l: Layout, c: V3, b: V3, dim: nat)
    requires Inside(c, Domains(l)) && Inside(b, Domains(l)) && dim < 3
    ensures Inside(Toward(c, b, dim), Domains(l))
    ensures Toward(c, b, dim) == c || Toward(c, b, dim) == Nbr(l, c, dim, true)
        || Toward(c, b, dim) == Nbr(l, c, dim, false)
  {
  }

  /** After a stage c needs of b what its neighbour, one step closer to b, needed before it. */
  lemma NeedsOfStage<T>(u: Setup, p: Plan<V3, Store<T>, seq<T>>, c: V3, b: V3, s: nat)
    requires Usable(u) && IsHaloPlan(u, p) && Inside(c, Domains(u.l)) && Inside(b, Domains(u.l))
    ensures Needs(p, Toward(c, b, Dim(s)), 5 * s, b) <= Needs(p, c, 5 * s + 5, b)
  {
    var c' := Toward(c, b, Dim(s));
    TowardIsNeighbour(u.l, c, b, Dim(s));
    if c' == c {
      NeedsMonotone(p, c, 5 * s, 5 * s + 5, b);
    } else {
      var j := if c' == Nbr(u.l, c, Dim(s), false) then 0 else 1;
      PlanSource(u, p, s, c, j);
      NeedsOfSource(p, c, c', s, j, b);
    }
  }

  /** Three stages move one step closer in every dimension. */
  function Closer(c: V3, b: V3, s: nat): V3 {
    Toward(Toward(Toward(c, b, Dim(s + 2)), b, Dim(s + 1)), b, Dim(s))
  }

  lemma CloserIsWithin(c: V3, b: V3, s: nat, d: nat)
    requires Within(c, b, d + 1)
    ensures Within(Closer(c, b, s), b, d)
  {
    assert {Dim(s), Dim(s + 1), Dim(s + 2)} == {0, 1, 2};
    assert Closer(c, b, s) == V3(Step1(c.x, b.x), Step1(c.y, b.y), Step1(c.z, b.z));
  }

  lemma NeedsOfRound<T>(u: Setup, p: Plan<V3, Store<T>, seq<T>>, c: V3, b: V3, s: nat)
    requires Usable(u) && IsHaloPlan(u, p) && Inside(c, Domains(u.l)) && Inside(b, Domains(u.l))
    ensures Inside(Closer(c, b, s), Domains(u.l))
    ensures Needs(p, Closer(c, b, s), 5 * s, b) <= Needs(p, c, 5 * (s + 3), b)
  {
    var c1 := Toward(c, b, Dim(s + 2));
    var c2 := Toward(c1, b, Dim(s + 1));
    TowardIsNeighbour(u.l, c, b, Dim(s + 2));
    TowardIsNeighbour(u.l, c1, b, Dim(s + 1));
    TowardIsNeighbour(u.l, c2, b, Dim(s));
    NeedsOfStage(u, p, c, b, s + 2);
    NeedsOfStage(u, p, c1, b, s + 1);
    NeedsOfStage(u, p, c2, b, s);
    FiveMore(p, c, s + 2, b);
    FiveMore(p, c1, s + 1, b);
    FiveMore(p, c2, s, b);
  }

  lemma FiveMore<D(!new), L, M>(p: Plan<D, L, M>, c: D, s: nat, b: D)
    ensures Needs(p, c, 5 * s + 5, b) == Needs(p, c, 5 * (s + 1), b)
  {
    assert 5 * s + 5 == 5 * (s + 1);
  }

  /** A domain that has completed stage s + 3 d finds all domains within distance d beyond stage s. */
  lemma {:induction false} NearNeeds<T>(u: Setup, p: Plan<V3, Store<T>, seq<T>>, c: V3, b: V3, s: nat, d: nat)
    requires Usable(u) && IsHaloPlan(u, p) && Inside(c, Domains(u.l)) && Inside(b, Domains(u.l)) && Within(c, b, d)
    ensures 5 * s <= Needs(p, c, 5 * (s + 3 * d), b)
    decreases d
  {
    if d == 0 {
      NeedsOwn(p, c, 5 * s);
    } else {
      var t := s + 3 * (d - 1);
      CloserIsWithin(c, b, t, d - 1);
      NeedsOfRound(u, p, c, b, t);
      NearNeeds(u, p, Closer(c, b, t), b, s, d - 1);
      assert 5 * (t + 3) == 5 * (s + 3 * d);
    }
  }

  // ----- how far apart colliding events are -----

  /** The least distance, in fields, of two events that use one tag for different fields. */
  function Gap(u: Setup): nat
    requires 0 < u.factor
  {
    if u.steps <= 1 || u.fields % u.factor == 0 then u.factor else u.fields % u.factor
  }

  /** A check on the parameters that is enough: there are no more fields than the tag factor, or
      no dimension has more threads per rank than the gap. */
  predicate Orderly(u: Setup)
    requires 0 < u.factor
  {
    u.fields <= u.factor
    || (u.g.threads.x <= Gap(u) && u.g.threads.y <= Gap(u) && u.g.threads.z <= Gap(u))
  }

  /** One rank's domains are close to each other. */
  lemma SameRankClose(u: Setup, a: V3, b: V3, d: int)
    requires Usable(u) && Inside(a, Domains(u.l)) && Inside(b, Domains(u.l)) && Rank(u, a) == Rank(u, b)
    requires u.g.threads.x <= d + 1 && u.g.threads.y <= d + 1 && u.g.threads.z <= d + 1
    ensures Within(a, b, d)
  {
    DomainToThread(u.g, a);
    DomainToThread(u.g, b);
    assert RankCoord(u.g, a) == RankCoord(u.g, b);
    SameQuotient(a.x, b.x, u.g.threads.x);
    SameQuotient(a.y, b.y, u.g.threads.y);
    SameQuotient(a.z, b.z, u.g.threads.z);
  }

  lemma SameQuotient(a: int, b: int, m: int)
    requires 0 < m && a / m == b / m
    ensures -m < a - b < m
  {
  }

  /** Equal tags: equal fields, directions and threads, or fields that differ by a multiple of
      the factor. */
  lemma EqualTags(m: nat, f: nat, f': nat, d: nat, d': nat, l: bool, l': bool, t: int, t': int) returns (j: int)
    requires 0 < m && d < 3 && d' < 3 && Tag(m, f, d, l, t) == Tag(m, f', d', l', t')
    ensures f - f' == j * m
    ensures f == f' ==> d == d' && l == l' && t == t'
  {
    var q, q' := Direction(d, l) + 6 * t, Direction(d', l') + 6 * t';
    j := Difference(m, f, f', q, q');
    if f == f' {
      Digits(d, d', l, l', t, t');
    }
  }

  lemma Difference(m: nat, f: int, f': int, q: int, q': int) returns (j: int)
    requires 0 < m && f + m * q == f' + m * q'
    ensures f - f' == j * m && (f == f' ==> q == q')
  {
    j := q' - q;
    assert m * j == m * q' - m * q;
    if f == f' {
      DivModOf(0, m, q);
      DivModOf(0, m, q');
    }
  }

  lemma Digits(d: nat, d': nat, l: bool, l': bool, t: int, t': int)
    requires d < 3 && d' < 3 && Direction(d, l) + 6 * t == Direction(d', l') + 6 * t'
    ensures d == d' && l == l' && t == t'
  {
  }

  /** Two numbers of one residue class, the smaller positive. */
  lemma AtLeastRemainder(x: int, m: nat, n: nat, j: int)
    requires 0 < m && 0 < x && x == n + j * m
    ensures n % m == 0 ==> m <= x
    ensures n % m <= x
  {
    assert n == m * (n / m) + n % m;
    var q := n / m + j;
    assert x == n % m + m * q by {
      assert m * q == m * (n / m) + m * j;
    }
    if q <= -1 {
      ProductMonotone(m, q, -1);
    } else if q >= 1 {
      ProductMonotone(m, 1, q);
    }
  }

  /** Positions d apart, i steps later, of fields r and r'. */
  lemma DigitsApart(n: int, m: nat, i: int, r: nat, r': nat, d: int, j: int)
    requires 0 < m < n && r < n && r' < n && r != r' && r - r' == j * m && 0 <= d == n * i + r' - r
    ensures m <= d || (i == 1 && n % m != 0 && n % m <= d)
  {
    if i < 0 {
      ProductMonotone(n, i, -1);
    } else if i == 0 {
      AtLeastRemainder(d, m, 0, -j);
    } else if i == 1 {
      assert d == n + (-j) * m;
      AtLeastRemainder(d, m, n, -j);
    } else {
      ProductMonotone(n, 2, i);
    }
  }

  lemma StepAndField(n: nat, s: nat) returns (k: nat)
    requires 0 < n
    ensures s / 3 == n * k + Field(n, s)
  {
    k := s / 3 / n;
  }

  /** In a schedule of n fields a step, positions x < x' of different fields r and r' that are
      congruent modulo the factor are a gap apart. */
  lemma FieldsApart(n: nat, m: nat, steps: nat, x: nat, x': nat, k: nat, k': nat, r: nat, r': nat, j: int)
    requires 0 < m < n && x <= x' < n * steps && r < n && r' < n && x == n * k + r && x' == n * k' + r'
    requires r - r' == j * m && r != r'
    ensures m <= x' - x || (1 < steps && n % m != 0 && n % m <= x' - x)
  {
    assert n * (k' - k) == n * k' - n * k;
    DigitsApart(n, m, k' - k, r, r', x' - x, j);
    if k' - k == 1 {
      LastStep(n, steps, k', x');
    }
  }

  lemma LastStep(n: nat, steps: nat, k: nat, x: nat)
    requires x < n * steps && n * k <= x && 0 < k
    ensures 1 < steps
  {
    if steps <= 1 {
      ProductMonotone(n, steps, k);
    }
  }

  // ----- orderly setups are ordered -----

  lemma NearLater<T>(u: Setup, p: Plan<V3, Store<T>, seq<T>>, c: V3, b: V3, w: nat, s: nat, s': nat, i: nat)
    requires Usable(u) && IsHaloPlan(u, p) && Inside(c, Domains(u.l)) && Inside(b, Domains(u.l)) && Within(c, b, w)
    requires s + 1 + 3 * w <= s' && 5 * s' <= i
    ensures 5 * s + 5 <= Needs(p, c, i, b)
  {
    NearNeeds(u, p, c, b, s' - 3 * w, w);
    assert s' - 3 * w + 3 * w == s';
    NeedsMonotone(p, c, 5 * s', i, b);
  }

  /** Events far enough apart, of domains close enough to each other, keep their order. */
  lemma FarPrecedes<T>(u: Setup, p: Plan<V3, Store<T>, seq<T>>, a: V3, e: nat, a': V3, e': nat, w: nat)
    requires Usable(u) && IsHaloPlan(u, p) && Inside(a, Domains(u.l)) && Inside(a', Domains(u.l)) && Within(a', a, w)
    requires Inside(p.dest(a, e), Domains(u.l)) && Inside(p.dest(a', e'), Domains(u.l))
    requires Within(p.dest(a', e'), p.dest(a, e), w) && e / 2 + 1 + 3 * w <= e' / 2
    ensures Precedes(p, a, e, a', e')
  {
    NearLater(u, p, a', a, w, e / 2, e' / 2, SendMove(e'));
    NearLater(u, p, p.dest(a', e'), p.dest(a, e), w, e / 2, e' / 2, ReceiveMove(e'));
  }

  lemma OwnPrecedes<D(!new), L, M>(p: Plan<D, L, M>, a: D, e: nat, e': nat)
    requires e < e' && p.dest(a, e) == p.dest(a, e')
    ensures Precedes(p, a, e, a, e')
  {
    MovesIncrease(e, e');
    NeedsOwn(p, a, SendMove(e'));
    NeedsOwn(p, p.dest(a, e), ReceiveMove(e'));
  }

  lemma GapBounds(u: Setup, d: int)
    requires 0 < u.factor
    requires u.factor <= d || (1 < u.steps && u.fields % u.factor != 0 && u.fields % u.factor <= d)
    ensures 0 < Gap(u) <= d
  {
  }

  /** Stages of positions a gap apart. */
  lemma StagesApart(u: Setup, s: nat, s': nat, f: nat, f': nat, k: nat, k': nat, j: int)
    requires 0 < u.factor < u.fields && s <= s' < 3 * (u.fields * u.steps) && f < u.fields && f' < u.fields
    requires s / 3 == u.fields * k + f && s' / 3 == u.fields * k' + f' && f - f' == j * u.factor && f != f'
    ensures 0 < Gap(u) && s + 3 * Gap(u) - 2 <= s'
  {
    FieldsApart(u.fields, u.factor, u.steps, s / 3, s' / 3, k, k', f, f', j);
    GapBounds(u, s' / 3 - s / 3);
  }

  lemma SmallMultiple(x: int, m: int, j: int)
    requires x == j * m && -m < x < m
    ensures x == 0
  {
    if j >= 1 {
      ProductMonotone(m, 1, j);
    } else if j <= -1 {
      ProductMonotone(m, j, -1);
    }
  }

  /** Two events on one channel: of one field between the same ends, or of fields that differ by
      a multiple of the factor. */
  lemma SameChannel(u: Setup, a: V3, e: nat, a': V3, e': nat) returns (j: int)
    requires Usable(u) && Inside(a, Domains(u.l)) && Inside(a', Domains(u.l))
    requires SendKeyOf(u, a, e) == SendKeyOf(u, a', e')
    ensures Field(u.fields, e / 2) - Field(u.fields, e' / 2) == j * u.factor
    ensures Field(u.fields, e / 2) == Field(u.fields, e' / 2) ==> a == a' && DestOf(u, a, e) == DestOf(u, a', e')
  {
    var f, f' := Field(u.fields, e / 2), Field(u.fields, e' / 2);
    j := EqualTags(u.factor, f, f', Dim(e / 2), Dim(e' / 2), IsLeft(e), IsLeft(e'), ThreadOf(u.g, a),
        ThreadOf(u.g, a'));
    if f == f' {
      SameDomain(u, a, a');
    }
  }

  lemma SameRanks(u: Setup, a: V3, e: nat, a': V3, e': nat, w: int)
    requires Usable(u) && Inside(a, Domains(u.l)) && Inside(a', Domains(u.l))
    requires SendKeyOf(u, a, e) == SendKeyOf(u, a', e')
    requires u.g.threads.x <= w + 1 && u.g.threads.y <= w + 1 && u.g.threads.z <= w + 1
    ensures Within(a', a, w) && Within(DestOf(u, a', e'), DestOf(u, a, e), w)
  {
    KeysMatch(u, a, e);
    KeysMatch(u, a', e');
    SameRankClose(u, a', a, w);
    SameRankClose(u, DestOf(u, a', e'), DestOf(u, a, e), w);
  }

  lemma PlanEnds<T>(u: Setup, p: Plan<V3, Store<T>, seq<T>>, a: V3, e: nat)
    requires Usable(u) && IsHaloPlan(u, p)
    ensures p.dest(a, e) == DestOf(u, a, e) && p.sendKey(a, e) == SendKeyOf(u, a, e)
    ensures a in p.doms ==> Inside(a, Domains(u.l)) && Inside(p.dest(a, e), Domains(u.l))
    ensures p.stages == 3 * u.fields * u.steps
  {
    assert Named(p);
    if a in p.doms {
      InDoms(u, a);
      KeysMatch(u, a, e);
    }
  }

  lemma OrderlyAt<T>(u: Setup, p: Plan<V3, Store<T>, seq<T>>, a: V3, e: nat, a': V3, e': nat)
    requires Usable(u) && Orderly(u) && IsHaloPlan(u, p) && a in p.doms && a' in p.doms && e' < 2 * p.stages
    ensures OrderedAt(p, a, e, a', e')
  {
    PlanEnds(u, p, a, e);
    PlanEnds(u, p, a', e');
    if e <= e' && (a != a' || e != e') && p.sendKey(a, e) == p.sendKey(a', e') {
      var j := SameChannel(u, a, e, a', e');
      if Field(u.fields, e / 2) == Field(u.fields, e' / 2) {
        OwnPrecedes(p, a, e, e');
      } else {
        OtherFieldPrecedes(u, p, a, e, a', e', j);
      }
    }
  }

  lemma OtherFieldFar(u: Setup, s: nat, s': nat, f: nat, f': nat, j: int)
    requires 0 < u.factor < u.fields && s <= s' < 3 * u.fields * u.steps
    requires f == Field(u.fields, s) && f' == Field(u.fields, s') && f != f' && f - f' == j * u.factor
    ensures 0 < Gap(u) && s + 3 * Gap(u) - 2 <= s'
  {
    var k := StepAndField(u.fields, s);
    var k' := StepAndField(u.fields, s');
    Regroup(u.fields, u.steps);
    StagesApart(u, s, s', f, f', k, k', j);
  }

  lemma MoreFields(fields: nat, factor: nat, f: nat, f': nat, j: int)
    requires f < fields && f' < fields && f != f' && f - f' == j * factor
    ensures factor < fields
  {
    if fields <= factor {
      SmallMultiple(f - f', factor, j);
    }
  }

  lemma Regroup(a: int, b: int)
    ensures 3 * a * b == 3 * (a * b)
  {
  }

  lemma OtherFieldPrecedes<T>(u: Setup, p: Plan<V3, Store<T>, seq<T>>, a: V3, e: nat, a': V3, e': nat, j: int)
    requires Usable(u) && Orderly(u) && IsHaloPlan(u, p) && a in p.doms && a' in p.doms && e <= e' < 2 * p.stages
    requires SendKeyOf(u, a, e) == SendKeyOf(u, a', e') && Field(u.fields, e / 2) != Field(u.fields, e' / 2)
    requires Field(u.fields, e / 2) - Field(u.fields, e' / 2) == j * u.factor
    ensures Precedes(p, a, e, a', e')
  {
    PlanEnds(u, p, a, e);
    PlanEnds(u, p, a', e');
    MoreFields(u.fields, u.factor, Field(u.fields, e / 2), Field(u.fields, e' / 2), j);
    OtherFieldFar(u, e / 2, e' / 2, Field(u.fields, e / 2), Field(u.fields, e' / 2), j);
    SameRanks(u, a, e, a', e', Gap(u) - 1);
    FarPrecedes(u, p, a, e, a', e', Gap(u) - 1);
  }

  // ----- main results -----

  /** The check on the parameters is enough for every grid, layout and number of steps. */
  lemma OrderlyIsOrdered<T>(u: Setup)
    requires Usable(u) && Orderly(u)
    ensures Ordered(HaloPlan<T>(u))
  {
    var p := HaloPlan<T>(u);
    forall a, e: nat, a', e': nat | a in p.doms && a' in p.doms && e' < 2 * p.stages
      ensures OrderedAt(p, a, e, a', e')
    {
      OrderlyAt(u, p, a, e, a', e');
    }
  }

  /** No run of the exchange ever matches a receive with another's message if and only if its
      plan is ordered, whatever the initial fields. */
  lemma ExchangeRightIff<T(!new)>(u: Setup, init: V3 -> Store<T>)
    requires Usable(u)
    ensures AlwaysRight(HaloPlan(u), init) <==> Ordered(HaloPlan<T>(u))
  {
    PlanSymmetric<T>(u);
    OrderedIff(HaloPlan(u), init);
  }

  /** Whatever the tag factor, only a wrong match can block the exchange. */
  lemma OnlyWrongMatchesBlock<T>(u: Setup, init: V3 -> Store<T>, run: seq<HaloNet<T>>, i: nat)
    requires Usable(u) && IsRun(HaloPlan(u), init, run) && i < |run|
    requires Right(HaloPlan(u), run[i]) && !Finished(HaloPlan(u), run[i])
    ensures exists c :: Inside(c, Domains(u.l)) && CanMove(HaloPlan(u), run[i], c)
  {
    PlanSymmetric<T>(u);
    OnlyWrongBlocks(HaloPlan(u), init, run, i);
    var c :| c in Doms(u) && CanMove(HaloPlan(u), run[i], c);
    InDoms(u, c);
  }

  /** With the factor the code computes, the threads of a rank, everything is in order if there
      are no more fields than threads, if a run is a single step, or if the threads divide the
      fields. */
  lemma OwnFactorOrderly(u: Setup)
    requires Usable(u) && u.factor == NumThreads(u.g)
    requires u.fields <= u.factor || u.steps <= 1 || u.fields % u.factor == 0
    ensures Orderly(u)
  {
    AtMostVolume(u.g.threads);
  }

  lemma AtMostVolume(n: V3)
    requires Positive(n)
    ensures n.x <= Volume(n) && n.y <= Volume(n) && n.z <= Volume(n)
  {
    ProductMonotone(n.x, 1, n.y);
    ProductMonotone(n.y, 1, n.x);
    ProductMonotone(n.x * n.y, 1, n.z);
    assert n.x * n.y == n.y * n.x && n.x * n.y >= 1;
    ProductMonotone(n.z, 1, n.x * n.y);
    assert n.z * (n.x * n.y) == n.x * n.y * n.z;
  }

  /** Channels that are kept apart are in order. */
  lemma KeptApartOrderly(u: Setup)
    requires Usable(u) && KeptApart(u)
    ensures Orderly(u)
  {
    if NumThreads(u.g) == 1 {
      AtMostVolume(u.g.threads);
    }
  }

  /** Not the other way round: eight fields on two by two threads are in order for any number of
      steps, and so are six. */
  lemma OrderlyNotApart(u: Setup)
    requires Usable(u) && u.g.threads == V3(2, 2, 1) && u.factor == 4 && (u.fields == 8 || u.fields == 6)
    ensures u.factor == NumThreads(u.g) && Orderly(u) && !KeptApart(u)
  {
  }

  // ----- one field more than threads -----

  /** A rank with two threads side by side in x that finds its z neighbours on itself. */
  ghost predicate Crowded(u: Setup) {
    && Usable(u) && u.g.threads.x >= 2 && (u.g.threads.z >= 2 || u.g.ranks.z == 1)
    && u.factor == NumThreads(u.g) && u.fields == u.factor + 1 && u.steps >= 2
  }

  lemma FirstThreads(g: Config, x: int, z: int)
    requires Positive(g.threads) && 0 <= x < g.threads.x && 0 <= z < g.threads.z
    ensures RankCoord(g, V3(x, 0, z)) == V3(0, 0, 0) && ThreadCoord(g, V3(x, 0, z)) == V3(x, 0, z)
    ensures z == 0 ==> ThreadOf(g, V3(x, 0, z)) == x
  {
    DivModOf(x, g.threads.x, 0);
    DivModOf(0, g.threads.y, 0);
    DivModOf(z, g.threads.z, 0);
    if z == 0 {
      assert g.threads.x * (0 + g.threads.y * 0) == 0;
    }
  }

  /** The last stage of the first step and the first of the second. */
  lemma StepEnds(n: nat)
    requires 0 < n
    ensures Field(n, (6 * n - 1) / 2) == n - 1 && Dim((6 * n - 1) / 2) == 2 && !IsLeft(6 * n - 1)
    ensures Field(n, 6 * n / 2) == 0 && Dim(6 * n / 2) == 0 && IsLeft(6 * n)
    ensures (6 * n - 1) / 2 == 3 * n - 1 && 6 * n / 2 == 3 * n
  {
    assert (3 * n - 1) / 3 == n - 1 && (3 * n - 1) % 3 == 2 && 3 * n / 3 == n;
    DivModOf(n - 1, n, 0);
    DivModOf(0, n, 1);
  }

  lemma CrowdedEnds(u: Setup, a: V3, a': V3)
    requires Crowded(u) && a == V3(0, 0, 0) && a' == V3(1, 0, 0)
    ensures Inside(a, Domains(u.l)) && Inside(a', Domains(u.l)) && Rank(u, a) == Rank(u, a')
    ensures var e := 6 * u.fields - 1; Rank(u, DestOf(u, a, e)) == Rank(u, DestOf(u, a', e + 1))
  {
    var e := 6 * u.fields - 1;
    StepEnds(u.fields);
    assert Domains(u.l) == Threads(u.g);
    WideEnough(u.g.ranks.x, u.g.threads.x);
    WideEnough(u.g.ranks.z, u.g.threads.z);
    assert Inside(a, Domains(u.l)) && Inside(a', Domains(u.l));
    assert DestOf(u, a', e + 1) == a;
    FirstThreads(u.g, 0, 0);
    FirstThreads(u.g, 1, 0);
    var z := DestOf(u, a, e).z;
    assert DestOf(u, a, e) == V3(0, 0, z) && (z == 0 || z == 1 < |u.l.z.ext|);
    FirstThreads(u.g, 0, z);
  }

  /** A positive number of blocks of t is at least t. */
  lemma WideEnough(r: int, t: int)
    requires 0 < t && 0 < r * t
    ensures t <= r * t
  {
    if r <= 0 {
      ProductMonotone(t, r, 0);
    }
    ProductMonotone(t, 1, r);
    assert t * r == r * t;
  }

  lemma CrowdedKeys(u: Setup, a: V3, a': V3)
    requires Crowded(u) && a == V3(0, 0, 0) && a' == V3(1, 0, 0)
    ensures Inside(a, Domains(u.l)) && Inside(a', Domains(u.l))
    ensures SendKeyOf(u, a, 6 * u.fields - 1) == SendKeyOf(u, a', 6 * u.fields)
  {
    CrowdedEnds(u, a, a');
    StepEnds(u.fields);
    FirstThreads(u.g, 0, 0);
    FirstThreads(u.g, 1, 0);
    TagsMeet(u.factor);
  }

  lemma TagsMeet(m: nat)
    ensures Tag(m, m, 2, false, 0) == Tag(m, 0, 0, true, 1)
  {
    assert m + m * 5 == m * 6;
  }

  /** With one field more than threads such a setup is not in order: some run matches a wrong
      message, on any number of ranks. */
  lemma OneFieldMore<T>(u: Setup)
    requires Crowded(u)
    ensures !Ordered(HaloPlan<T>(u))
  {
    var p := HaloPlan<T>(u);
    var a, a', e, s := V3(0, 0, 0), V3(1, 0, 0), 6 * u.fields - 1, 3 * u.fields - 1;
    CrowdedKeys(u, a, a');
    StepEnds(u.fields);
    InDoms(u, a);
    InDoms(u, a');
    PlanEnds(u, p, a, e);
    PlanEnds(u, p, a', e + 1);
    PlanSource(u, p, s, a', 0);
    PlanSource(u, p, s, a', 1);
    NeedsNoStranger(p, a', s, 2, a);
    ProductMonotone(3 * u.fields, 2, u.steps);
    assert !OrderedAt(p, a, e, a', e + 1);
  }
}
