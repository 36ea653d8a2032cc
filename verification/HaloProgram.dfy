/** The halo exchange as a message-passing program: one process per domain, several fields,
    any number of steps, no synchronisation but the messages themselves. */
module HaloProgram {
  import opened Grid
  import opened Layouts
  import opened Decomposition
  import opened Regions
  import opened StagedExchange
  import opened RepeatedExchange
  import opened Fields
  import opened Tags
  import opened MessagePassing
  import opened LockstepRuns
  import opened OrderedRuns

  /** A run's parameters: a rank and thread grid, a block layout of its domains, a rank
      numbering, halos, and how many fields and steps; `factor` is the `num_fields` of the
      tag code. */
  datatype Setup = Setup(g: Config, l: Layout, rankOf: RankMap, h: Halos, fields: nat, factor: nat, steps: nat)

  ghost predicate Usable(u: Setup) {
    && Positive(u.g.threads) && OneToOne(u.rankOf, u.g.ranks) && 0 < u.fields && 0 < u.factor
    && WellFormed(u.l) && Domains(u.l) == Threads(u.g)
  }

  /** The layout a decomposition computes is one. */
  lemma ComputedLayoutUsable(g: Config, rankOf: RankMap, h: Halos, fields: nat, steps: nat)
    requires Sensible(g) && OneToOne(rankOf, g.ranks) && 0 < fields
    ensures Usable(Setup(g, LayoutOf(g), rankOf, h, fields, NumThreads(g), steps))
  {
    LayoutWellFormed(g);
    FlatBounds(V3(0, 0, 0), g.threads);
  }

  /** Channels are kept apart by distinct tags, or by ranks with a single thread. */
  predicate KeptApart(u: Setup)
    requires NonNegative(u.g.threads)
  {
    u.fields <= u.factor || NumThreads(u.g) == 1
  }

  function IsLeft(e: nat): bool { e % 2 == 0 }

  function Rank(u: Setup, c: V3): int
    requires Positive(u.g.threads)
  {
    (u.rankOf)(RankCoord(u.g, c))
  }

  // ----- the plan -----

  ghost function DestOf(u: Setup, c: V3, e: nat): V3 {
    if Inside(c, Domains(u.l)) then Nbr(u.l, c, Dim(e / 2), IsLeft(e)) else c
  }

  ghost function SourceOf(u: Setup, c: V3, e: nat): V3 {
    if Inside(c, Domains(u.l)) then Nbr(u.l, c, Dim(e / 2), !IsLeft(e)) else c
  }

  /** Destination rank and sendtag. */
  ghost function SendKeyOf(u: Setup, c: V3, e: nat): Key
    requires Usable(u)
  {
    Key(Rank(u, c), Rank(u, DestOf(u, c, e)),
        Tag(u.factor, Field(u.fields, e / 2), Dim(e / 2), IsLeft(e), ThreadOf(u.g, c)))
  }

  /** Source rank and recvtag, which names the thread of the sender. */
  ghost function RecvKeyOf(u: Setup, c: V3, e: nat): Key
    requires Usable(u)
  {
    var b := SourceOf(u, c, e);
    Key(Rank(u, b), Rank(u, c), Tag(u.factor, Field(u.fields, e / 2), Dim(e / 2), IsLeft(e), ThreadOf(u.g, b)))
  }

  ghost function Doms(u: Setup): set<V3> {
    set x, y, z | 0 <= x < Domains(u.l).x && 0 <= y < Domains(u.l).y && 0 <= z < Domains(u.l).z :: V3(x, y, z)
  }

  ghost function HaloPlan<T>(u: Setup): Plan<V3, Store<T>, seq<T>>
    requires Usable(u)
  {
    Plan(Doms(u), 3 * u.fields * u.steps,
         (c: V3, e: nat) => DestOf(u, c, e), (c: V3, e: nat) => SourceOf(u, c, e),
         (c: V3, e: nat) => SendKeyOf(u, c, e), (c: V3, e: nat) => RecvKeyOf(u, c, e),
         (c: V3, e: nat, loc: Store<T>) => PackStage(u.l, u.h, u.fields, c, e / 2, IsLeft(e), loc),
         (c: V3, s: nat, loc: Store<T>, left: seq<T>, right: seq<T>) =>
           UpdateStage(u.l, u.h, u.fields, c, s, loc, left, right))
  }

  ghost predicate Named<T>(p: Plan<V3, Store<T>, seq<T>>) { true }

  /** p is the halo exchange.  The quantifier, which only `Named(p)` instantiates, keeps the
      functions of the plan out of proofs that use no more than the lemmas below. */
  ghost predicate IsHaloPlan<T>(u: Setup, p: Plan<V3, Store<T>, seq<T>>)
    requires Usable(u)
  {
    forall q {:trigger Named(q)} :: q == p ==> q == HaloPlan(u)
  }

  // ----- messages match -----

  /** A receive names the channel on which its neighbour sends. */
  lemma KeysMatch(u: Setup, c: V3, e: nat)
    requires Usable(u) && Inside(c, Domains(u.l))
    ensures Inside(DestOf(u, c, e), Domains(u.l)) && Inside(SourceOf(u, c, e), Domains(u.l))
    ensures SourceOf(u, DestOf(u, c, e), e) == c && DestOf(u, SourceOf(u, c, e), e) == c
    ensures RecvKeyOf(u, c, e) == SendKeyOf(u, SourceOf(u, c, e), e)
    ensures RecvKeyOf(u, DestOf(u, c, e), e) == SendKeyOf(u, c, e)
  {
    NbrInverse(u.l, c, Dim(e / 2), IsLeft(e));
    NbrInverse(u.l, c, Dim(e / 2), !IsLeft(e));
  }

  lemma SameDomain(u: Setup, b: V3, c: V3)
    requires Usable(u) && Inside(b, Domains(u.l)) && Inside(c, Domains(u.l))
    requires Rank(u, b) == Rank(u, c) && ThreadOf(u.g, b) == ThreadOf(u.g, c)
    ensures b == c
  {
    RankAndThreadIdentify(u.g, u.rankOf, b, c);
  }

  /** Equal channels, equal ends. */
  lemma KeysSeparate(u: Setup, a: V3, e: nat, a': V3, e': nat)
    requires Usable(u) && KeptApart(u) && Inside(a, Domains(u.l)) && Inside(a', Domains(u.l))
    requires SendKeyOf(u, a, e) == SendKeyOf(u, a', e')
    ensures a == a' && DestOf(u, a, e) == DestOf(u, a', e')
  {
    KeysMatch(u, a, e);
    KeysMatch(u, a', e');
    if u.fields <= u.factor {
      TagDigits(u.factor, Field(u.fields, e / 2), Field(u.fields, e' / 2), Dim(e / 2), Dim(e' / 2), IsLeft(e),
          IsLeft(e'), ThreadOf(u.g, a), ThreadOf(u.g, a'));
      SameDomain(u, a, a');
    } else {
      DomainToThread(u.g, a);
      DomainToThread(u.g, a');
      SameDomain(u, a, a');
      DomainToThread(u.g, DestOf(u, a, e));
      DomainToThread(u.g, DestOf(u, a', e'));
      SameDomain(u, DestOf(u, a, e), DestOf(u, a', e'));
    }
  }

  /** In one stage all sends name different channels, for any tag factor, even when left
      and right neighbour are the same domain, or the domain itself; with `KeysMatch`, sends
      and receives of a stage correspond one to one. */
  lemma StageKeysDistinct(u: Setup, a: V3, e: nat, a': V3, e': nat)
    requires Usable(u) && Inside(a, Domains(u.l)) && Inside(a', Domains(u.l))
    requires e / 2 == e' / 2 && SendKeyOf(u, a, e) == SendKeyOf(u, a', e')
    ensures a == a' && e == e'
  {
    TagOfOneField(u.factor, Field(u.fields, e / 2), Dim(e / 2), IsLeft(e), IsLeft(e'), ThreadOf(u.g, a),
        ThreadOf(u.g, a'));
    SameDomain(u, a, a');
  }

  lemma PlanSymmetric<T>(u: Setup)
    requires Usable(u)
    ensures Symmetric(HaloPlan<T>(u))
  {
    var p := HaloPlan<T>(u);
    forall c, e: nat | c in p.doms ensures SymmetricAt(p, c, e) {
      KeysMatch(u, c, e);
    }
  }

  lemma PlanSound<T>(u: Setup)
    requires Usable(u) && KeptApart(u)
    ensures Symmetric(HaloPlan<T>(u)) && Separated(HaloPlan<T>(u))
  {
    var p := HaloPlan<T>(u);
    PlanSymmetric<T>(u);
    forall a, e: nat, a', e': nat | a in p.doms && a' in p.doms ensures SeparatedAt(p, a, e, a', e') {
      if SendKeyOf(u, a, e) == SendKeyOf(u, a', e') {
        KeysSeparate(u, a, e, a', e');
      }
    }
  }

  lemma PlanStageApart<T>(u: Setup, stage: nat)
    requires Usable(u)
    ensures StageApart(HaloPlan<T>(u), stage)
  {
    var p := HaloPlan<T>(u);
    forall c, c', e: nat, e': nat |
        c in p.doms && c' in p.doms && e / 2 == stage && e' / 2 == stage && p.sendKey(c, e) == p.sendKey(c', e')
      ensures c == c' && e == e'
    {
      StageKeysDistinct(u, c, e, c', e');
    }
  }

  /** Whatever the tag factor, the run in which all domains take each stage together exists: it
      is the others that a small factor endangers. */
  lemma LockstepRunExists<T>(u: Setup, init: V3 -> Store<T>) returns (run: seq<HaloNet<T>>)
    requires Usable(u)
    ensures IsRun(HaloPlan(u), init, run) && Finished(HaloPlan(u), run[|run| - 1])
  {
    var p: Plan<V3, Store<T>, seq<T>> := HaloPlan(u);
    PlanSymmetric<T>(u);
    forall t: nat | t < p.stages ensures StageApart(p, t) {
      PlanStageApart<T>(u, t);
    }
    run := SideBySide(p, init, p.stages);
  }

  // ----- the lockstep run is the staged exchange -----

  lemma InDoms(u: Setup, c: V3)
    ensures c in Doms(u) <==> Inside(c, Domains(u.l))
  {
  }

  lemma EventOf(s: nat, j: nat)
    requires j < 2
    ensures (2 * s + j) / 2 == s && IsLeft(2 * s + j) == (j == 0)
  {
  }

  lemma SourceOfEvent<T>(u: Setup, p: Plan<V3, Store<T>, seq<T>>, e: nat, c: V3)
    requires Usable(u) && IsHaloPlan(u, p) && Inside(c, Domains(u.l))
    ensures p.source(c, e) == Nbr(u.l, c, Dim(e / 2), !IsLeft(e))
  {
    assert Named(p);
  }

  lemma PlanSource<T>(u: Setup, p: Plan<V3, Store<T>, seq<T>>, s: nat, c: V3, j: nat)
    requires Usable(u) && IsHaloPlan(u, p) && Inside(c, Domains(u.l)) && j < 2
    ensures p.source(c, 2 * s + j) == Nbr(u.l, c, Dim(s), j == 1)
  {
    EventOf(s, j);
    SourceOfEvent(u, p, 2 * s + j, c);
  }

  lemma PackOfEvent<T>(u: Setup, p: Plan<V3, Store<T>, seq<T>>, e: nat, b: V3, loc: Store<T>)
    requires Usable(u) && IsHaloPlan(u, p)
    ensures p.pack(b, e, loc) == PackStage(u.l, u.h, u.fields, b, e / 2, IsLeft(e), loc)
  {
    assert Named(p);
  }

  lemma PlanPack<T>(u: Setup, p: Plan<V3, Store<T>, seq<T>>, s: nat, b: V3, j: nat, loc: Store<T>)
    requires Usable(u) && IsHaloPlan(u, p) && j < 2
    ensures p.pack(b, 2 * s + j, loc) == PackStage(u.l, u.h, u.fields, b, s, j == 0, loc)
  {
    EventOf(s, j);
    PackOfEvent(u, p, 2 * s + j, b, loc);
  }

  lemma PlanUpdate<T>(u: Setup, p: Plan<V3, Store<T>, seq<T>>, s: nat, c: V3, loc: Store<T>, left: seq<T>,
      right: seq<T>)
    requires Usable(u) && IsHaloPlan(u, p)
    ensures p.update(c, s, loc, left, right) == UpdateStage(u.l, u.h, u.fields, c, s, loc, left, right)
  {
    assert Named(p);
  }

  /** The store of c after one more lockstep stage. */
  ghost function NextStore<T>(u: Setup, c: V3, s: nat, loc: Store<T>, locL: Store<T>, locR: Store<T>): Store<T>
    requires Usable(u) && Inside(c, Domains(u.l))
  {
    UpdateStage(u.l, u.h, u.fields, c, s, loc,
      PackStage(u.l, u.h, u.fields, Nbr(u.l, c, Dim(s), false), s, true, locR),
      PackStage(u.l, u.h, u.fields, Nbr(u.l, c, Dim(s), true), s, false, locL))
  }

  /** What the plan does in stage s of c, given three stores. */
  ghost predicate FollowsAt<T>(u: Setup, p: Plan<V3, Store<T>, seq<T>>, s: nat, c: V3, loc: Store<T>, locL: Store<T>,
      locR: Store<T>)
    requires Usable(u) && Inside(c, Domains(u.l))
  {
    var bl, br := Nbr(u.l, c, Dim(s), true), Nbr(u.l, c, Dim(s), false);
    && p.source(c, 2 * s + 0) == br && p.source(c, 2 * s + 1) == bl
    && p.update(c, s, loc, p.pack(br, 2 * s + 0, locR), p.pack(bl, 2 * s + 1, locL)) ==
        NextStore(u, c, s, loc, locL, locR)
  }

  lemma HaloFollows<T>(u: Setup, p: Plan<V3, Store<T>, seq<T>>, s: nat, c: V3, loc: Store<T>, locL: Store<T>,
      locR: Store<T>)
    requires Usable(u) && IsHaloPlan(u, p) && Inside(c, Domains(u.l))
    ensures FollowsAt(u, p, s, c, loc, locL, locR)
  {
    var bl, br := Nbr(u.l, c, Dim(s), true), Nbr(u.l, c, Dim(s), false);
    PlanSource(u, p, s, c, 0);
    PlanSource(u, p, s, c, 1);
    PlanPack(u, p, s, br, 0, locR);
    PlanPack(u, p, s, bl, 1, locL);
    PlanUpdate(u, p, s, c, loc, p.pack(br, 2 * s + 0, locR), p.pack(bl, 2 * s + 1, locL));
  }

  lemma LockOfPlan<T>(u: Setup, p: Plan<V3, Store<T>, seq<T>>, init: V3 -> Store<T>, s: nat, c: V3, bl: V3, br: V3)
    requires Usable(u) && Inside(c, Domains(u.l))
    requires bl == Nbr(u.l, c, Dim(s), true) && br == Nbr(u.l, c, Dim(s), false)
    requires FollowsAt(u, p, s, c, Lock(p, init, s, c), Lock(p, init, s, bl), Lock(p, init, s, br))
    ensures Lock(p, init, s + 1, c) ==
        NextStore(u, c, s, Lock(p, init, s, c), Lock(p, init, s, bl), Lock(p, init, s, br))
  {
    LockNext(p, init, s, c, br, bl, p.pack(br, 2 * s + 0, Lock(p, init, s, br)),
        p.pack(bl, 2 * s + 1, Lock(p, init, s, bl)));
  }

  lemma NextHolds<T>(u: Setup, init: V3 -> Store<T>, aft: Afters<T>, s: nat, c: V3, loc: Store<T>, locL: Store<T>,
      locR: Store<T>)
    requires Usable(u) && StoresOk(u.l, u.h, u.fields, init) && IsAfter(u.l, u.h, u.fields, init, aft)
        && Inside(c, Domains(u.l))
    requires Holds(u.fields, aft, Counts(u.fields, s), c, loc)
    requires Holds(u.fields, aft, Counts(u.fields, s), Nbr(u.l, c, Dim(s), true), locL)
    requires Holds(u.fields, aft, Counts(u.fields, s), Nbr(u.l, c, Dim(s), false), locR)
    ensures Holds(u.fields, aft, Counts(u.fields, s + 1), c, NextStore(u, c, s, loc, locL, locR))
  {
    StageAdvances(u.l, u.h, u.fields, init, aft, s, c, loc, locL, locR);
  }

  lemma LockAdvances<T>(u: Setup, init: V3 -> Store<T>, aft: Afters<T>, p: Plan<V3, Store<T>, seq<T>>, r: nat, c: V3,
      bl: V3, br: V3)
    requires Usable(u) && StoresOk(u.l, u.h, u.fields, init) && IsAfter(u.l, u.h, u.fields, init, aft)
        && Inside(c, Domains(u.l))
    requires IsHaloPlan(u, p) && bl == Nbr(u.l, c, Dim(r), true) && br == Nbr(u.l, c, Dim(r), false)
    requires Holds(u.fields, aft, Counts(u.fields, r), c, Lock(p, init, r, c))
    requires Holds(u.fields, aft, Counts(u.fields, r), bl, Lock(p, init, r, bl))
    requires Holds(u.fields, aft, Counts(u.fields, r), br, Lock(p, init, r, br))
    ensures Holds(u.fields, aft, Counts(u.fields, r + 1), c, Lock(p, init, r + 1, c))
  {
    NextHolds(u, init, aft, r, c, Lock(p, init, r, c), Lock(p, init, r, bl), Lock(p, init, r, br));
    HaloFollows(u, p, r, c, Lock(p, init, r, c), Lock(p, init, r, bl), Lock(p, init, r, br));
    LockOfPlan(u, p, init, r, c, bl, br);
  }

  lemma {:induction false} LockIsStaged<T>(u: Setup, init: V3 -> Store<T>, aft: Afters<T>,
      p: Plan<V3, Store<T>, seq<T>>, s: nat, c: V3)
    requires Usable(u) && StoresOk(u.l, u.h, u.fields, init) && IsAfter(u.l, u.h, u.fields, init, aft)
        && Inside(c, Domains(u.l))
    requires IsHaloPlan(u, p)
    ensures Holds(u.fields, aft, Counts(u.fields, s), c, Lock(p, init, s, c))
    decreases s
  {
    if s == 0 {
      InitialHolds(u.l, u.h, u.fields, init, aft, c);
    } else {
      var r := s - 1;
      var bl, br := Nbr(u.l, c, Dim(r), true), Nbr(u.l, c, Dim(r), false);
      LockIsStaged(u, init, aft, p, r, c);
      LockIsStaged(u, init, aft, p, r, bl);
      LockIsStaged(u, init, aft, p, r, br);
      LockAdvances(u, init, aft, p, r, c, bl, br);
    }
  }

  /** k steps of the lockstep program are 3 * k stages of every field. */
  lemma StepsOfLock<T>(u: Setup, init: V3 -> Store<T>, s: nat, k: nat, c: V3, f: nat)
    requires Usable(u) && StoresOk(u.l, u.h, u.fields, init) && Inside(c, Domains(u.l)) && f < u.fields
    requires s == 3 * u.fields * k
    ensures WellSized(u.l, u.h, FamilyOf(init, f))
    ensures StoreOk(u.l, u.h, u.fields, c, Lock(HaloPlan(u), init, s, c))
    ensures Lock(HaloPlan(u), init, s, c)[f] == After(u.l, u.h, FamilyOf(init, f), 3 * k, c)
  {
    var aft := SomeAfters(u.l, u.h, u.fields, init);
    LockIsStaged(u, init, aft, HaloPlan(u), s, c);
    CountsOfSteps(u.fields, k, s, f);
    HoldsIsSized(u.l, u.h, u.fields, init, aft, Counts(u.fields, s), c, Lock(HaloPlan(u), init, s, c));
    FamilySized(u.l, u.h, u.fields, init, f);
    assert AfterAt(u.l, u.h, u.fields, init, aft, f, 3 * k, c);
  }

  // ----- main results -----

  type HaloNet<T> = Net<V3, Store<T>, seq<T>>

  /** In every interleaving, a domain that has completed k steps holds, in every field, what
      3 * k lockstep stages give, however far the other domains have got. */
  lemma StepsAreStaged<T>(u: Setup, init: V3 -> Store<T>, run: seq<HaloNet<T>>, i: nat, c: V3, k: nat, f: nat)
    requires Usable(u) && Ordered(HaloPlan<T>(u)) && StoresOk(u.l, u.h, u.fields, init)
    requires IsRun(HaloPlan(u), init, run) && i < |run| && Inside(c, Domains(u.l)) && f < u.fields
    requires c in run[i].nodes && run[i].nodes[c].stage == 3 * u.fields * k
    ensures WellSized(u.l, u.h, FamilyOf(init, f))
    ensures StoreOk(u.l, u.h, u.fields, c, run[i].nodes[c].loc)
    ensures run[i].nodes[c].loc[f] == After(u.l, u.h, FamilyOf(init, f), 3 * k, c)
  {
    PlanSymmetric<T>(u);
    InDoms(u, c);
    StoresAreLockstep(HaloPlan(u), init, run, i, c);
    StepsOfLock(u, init, run[i].nodes[c].stage, k, c, f);
  }

  /** In every interleaving, a domain that has completed k steps has its halos filled, if k
      rounds suffice: every cell of every field holds the initial value of the wrapped global
      cell. */
  lemma AnyRunExchangesFully<T>(u: Setup, init: V3 -> Store<T>, run: seq<HaloNet<T>>, i: nat, s: Spot, k: nat, f: nat)
    requires Usable(u) && Ordered(HaloPlan<T>(u)) && StoresOk(u.l, u.h, u.fields, init) && 0 < k && Suffice(u.l, u.h, k)
    requires IsRun(HaloPlan(u), init, run) && i < |run| && f < u.fields
    requires IsSpot(u.l, u.h, s) && s.dom in run[i].nodes && run[i].nodes[s.dom].stage == 3 * u.fields * k
    ensures WellSized(u.l, u.h, FamilyOf(init, f)) && StoreOk(u.l, u.h, u.fields, s.dom, run[i].nodes[s.dom].loc)
    ensures IsGlobalCell(u.l, u.h, FamilyOf(init, f), WrapPosition(u.l, Position(u.l, u.h, s)),
                         At(run[i].nodes[s.dom].loc[f], Size(u.l, u.h, s.dom), s.cell))
  {
    StepsAreStaged(u, init, run, i, s.dom, k, f);
    EnoughRounds(u.l, u.h, FamilyOf(init, f), k);
    FullAt(u, FamilyOf(init, f), k, s);
  }

  /** Where no halo is wider than a block, that is so after the first and after every later step. */
  lemma FittingHalosFilled<T>(u: Setup, init: V3 -> Store<T>, run: seq<HaloNet<T>>, i: nat, s: Spot, k: nat, f: nat)
    requires Usable(u) && Ordered(HaloPlan<T>(u)) && StoresOk(u.l, u.h, u.fields, init) && 0 < k && Fits(u.l, u.h)
    requires IsRun(HaloPlan(u), init, run) && i < |run| && f < u.fields
    requires IsSpot(u.l, u.h, s) && s.dom in run[i].nodes && run[i].nodes[s.dom].stage == 3 * u.fields * k
    ensures WellSized(u.l, u.h, FamilyOf(init, f)) && StoreOk(u.l, u.h, u.fields, s.dom, run[i].nodes[s.dom].loc)
    ensures IsGlobalCell(u.l, u.h, FamilyOf(init, f), WrapPosition(u.l, Position(u.l, u.h, s)),
                         At(run[i].nodes[s.dom].loc[f], Size(u.l, u.h, s.dom), s.cell))
  {
    FitsSuffices(u.l, u.h, k);
    AnyRunExchangesFully(u, init, run, i, s, k, f);
  }

  lemma FullAt<T>(u: Setup, fam: Family<T>, k: nat, s: Spot)
    requires Usable(u) && WellSized(u.l, u.h, fam) && FullyExchanged(u.l, u.h, fam, 3 * k) && IsSpot(u.l, u.h, s)
    ensures IsGlobalCell(u.l, u.h, fam, WrapPosition(u.l, Position(u.l, u.h, s)),
                         At(After(u.l, u.h, fam, 3 * k, s.dom), Size(u.l, u.h, s.dom), s.cell))
  {
    assert Value(u.l, u.h, fam, 3 * k, s) == At(After(u.l, u.h, fam, 3 * k, s.dom), Size(u.l, u.h, s.dom), s.cell);
  }

  /** The last stage below n in dimension dim is one of the last three. */
  lemma LastStage(n: nat, dim: nat, left: bool) returns (t: nat, j: nat)
    requires 3 < n && dim < 3
    ensures n <= t + 3 && t < n && Dim((2 * t + j) / 2) == dim && j < 2 && IsLeft(2 * t + j) == !left
  {
    t := if (n - 1) % 3 == dim then n - 1 else if (n - 2) % 3 == dim then n - 2 else n - 3;
    j := if left then 1 else 0;
    assert (2 * t + j) / 2 == t;
  }

  /** Neighbouring domains are never more than one full three-stage exchange apart. */
  lemma NeighboursStayClose<T>(u: Setup, init: V3 -> Store<T>, run: seq<HaloNet<T>>, i: nat, c: V3, dim: nat,
      left: bool)
    requires Usable(u) && Ordered(HaloPlan<T>(u)) && IsRun(HaloPlan(u), init, run) && i < |run|
    requires Inside(c, Domains(u.l)) && dim < 3
    ensures var b := Nbr(u.l, c, dim, left);
            && c in run[i].nodes && b in run[i].nodes
            && run[i].nodes[c].stage <= run[i].nodes[b].stage + 3
  {
    var p: Plan<V3, Store<T>, seq<T>> := HaloPlan(u);
    PlanSymmetric<T>(u);
    var b := Nbr(u.l, c, dim, left);
    InDoms(u, c);
    InDoms(u, b);
    StoresAreLockstep(p, init, run, i, c);
    StoresAreLockstep(p, init, run, i, b);
    if run[i].nodes[c].stage > 3 {
      var t, j := LastStage(run[i].nodes[c].stage, dim, left);
      DriftBound(p, init, run, i, c, t, j);
    }
  }

  /** The exchange never deadlocks, even if no send is buffered. */
  lemma ExchangeNeverDeadlocks<T>(u: Setup, init: V3 -> Store<T>, run: seq<HaloNet<T>>, i: nat)
    requires Usable(u) && Ordered(HaloPlan<T>(u)) && IsRun(HaloPlan(u), init, run) && i < |run|
    requires !Finished(HaloPlan(u), run[i])
    ensures exists c :: Inside(c, Domains(u.l)) && CanMove(HaloPlan(u), run[i], c)
  {
    PlanSymmetric<T>(u);
    NoDeadlock(HaloPlan(u), init, run, i);
    var c :| c in Doms(u) && CanMove(HaloPlan(u), run[i], c);
    InDoms(u, c);
  }

  /** Every run ends: it takes five moves a stage and domain, no more and no fewer, whatever
      the tags. */
  lemma ExchangeTerminates<T>(u: Setup, init: V3 -> Store<T>, run: seq<HaloNet<T>>)
    requires Usable(u) && IsRun(HaloPlan(u), init, run)
    ensures |run| - 1 <= |Doms(u)| * (5 * (3 * u.fields * u.steps))
    ensures Finished(HaloPlan(u), run[|run| - 1]) <==> |run| - 1 == |Doms(u)| * (5 * (3 * u.fields * u.steps))
  {
    RunsTerminate(HaloPlan(u), init, run);
  }

  /** However a run has begun, it can be continued until all domains have finished. */
  lemma ExchangeCompletes<T>(u: Setup, init: V3 -> Store<T>, run: seq<HaloNet<T>>) returns (more: seq<HaloNet<T>>)
    requires Usable(u) && Ordered(HaloPlan<T>(u)) && IsRun(HaloPlan(u), init, run)
    ensures run <= more && IsRun(HaloPlan(u), init, more) && Finished(HaloPlan(u), more[|more| - 1])
  {
    PlanSymmetric<T>(u);
    more := RunsComplete(HaloPlan(u), init, run);
  }
}
