/** Runs in which messages are sent from the fields themselves, so that their cells are read at
    any moment of the stage, while its halos are being received. */
module InPlaceRuns {
  import opened Grid
  import opened Layouts
  import opened StagedExchange
  import opened Fields
  import opened MessagePassing
  import opened LockstepRuns
  import opened HaloProgram
  import opened InPlace

  /** c posts its next send, and the library reads this data. */
  function SendData<D(!new), L, M>(p: Plan<D, L, M>, s: Net<D, L, M>, c: D, data: M): Net<D, L, M>
    requires CanSend(p, s, c)
  {
    var n := s.nodes[c];
    var k := p.sendKey(c, n.sent);
    s.(nodes := s.nodes[c := n.(sent := n.sent + 1, sslot := n.sslot + [|Sent(s, k)|])],
       out := s.out[k := Sent(s, k) + [Msg(c, n.sent, data)]])
  }

  /** What the store may look like during stage s: of the field being exchanged, halo cells of
      the stage's dimension may have changed. */
  ghost predicate DuringStage<T>(u: Setup, c: V3, s: nat, loc: Store<T>, seen: Store<T>)
    requires Usable(u) && Inside(c, Domains(u.l))
  {
    var f := Field(u.fields, s);
    && f < |loc| == |seen| && seen == loc[f := seen[f]]
    && DifferInHalos(loc[f], seen[f], Extent(u.l, c), u.h, Dim(s))
  }

  ghost predicate LooseSend<T>(u: Setup, p: Plan<V3, Store<T>, seq<T>>, s: HaloNet<T>, c: V3, seen: Store<T>,
      s': HaloNet<T>)
    requires Usable(u)
  {
    && Inside(c, Domains(u.l)) && CanSend(p, s, c)
    && DuringStage(u, c, s.nodes[c].stage, s.nodes[c].loc, seen)
    && s' == SendData(p, s, c, p.pack(c, s.nodes[c].sent, seen))
  }

  ghost predicate LooseStep<T(!new)>(u: Setup, p: Plan<V3, Store<T>, seq<T>>, s: HaloNet<T>, s': HaloNet<T>)
    requires Usable(u)
  {
    exists c, seen :: LooseSend(u, p, s, c, seen, s')
  }

  ghost predicate LooseAt<T(!new)>(u: Setup, p: Plan<V3, Store<T>, seq<T>>, run: seq<HaloNet<T>>, i: nat)
    requires Usable(u) && i < |run| - 1
  {
    Moves(p, run[i], run[i + 1]) || LooseStep(u, p, run[i], run[i + 1])
  }

  /** A run whose sends read the fields at any moment of their stage. */
  ghost predicate IsLooseRun<T(!new)>(u: Setup, p: Plan<V3, Store<T>, seq<T>>, init: V3 -> Store<T>,
      run: seq<HaloNet<T>>)
    requires Usable(u)
  {
    && |run| > 0 && Init(p, init, run[0])
    && forall i: nat {:trigger LooseAt(u, p, run, i)} :: i < |run| - 1 ==> LooseAt(u, p, run, i)
  }

  /** In every domain and dimension sends are disturbed by nothing. */
  ghost predicate NarrowHalos(u: Setup)
    requires Usable(u)
  {
    forall c, dim: nat :: Inside(c, Domains(u.l)) && dim < 3 ==> Narrow(Extent(u.l, c), u.h, dim)
  }

  lemma FitsNarrow(u: Setup)
    requires Usable(u) && Fits(u.l, u.h)
    ensures NarrowHalos(u)
  {
  }

  // ----- narrow halos -----

  /** A stage keeps the sizes of a store, whatever it receives. */
  lemma UpdateKeepsSize<T>(u: Setup, c: V3, s: nat, loc: Store<T>, left: seq<T>, right: seq<T>)
    requires Usable(u) && Inside(c, Domains(u.l)) && StoreOk(u.l, u.h, u.fields, c, loc)
    ensures StoreOk(u.l, u.h, u.fields, c, UpdateStage(u.l, u.h, u.fields, c, s, loc, left, right))
  {
  }

  ghost predicate SizesOk<T>(u: Setup, s: HaloNet<T>) {
    forall c :: c in s.nodes && Inside(c, Domains(u.l)) ==> StoreOk(u.l, u.h, u.fields, c, s.nodes[c].loc)
  }

  lemma StepKeepsSizes<T>(u: Setup, p: Plan<V3, Store<T>, seq<T>>, s: HaloNet<T>, c: V3, s': HaloNet<T>)
    requires Usable(u) && IsHaloPlan(u, p) && SizesOk(u, s) && Step(p, s, c, s')
    ensures SizesOk(u, s')
  {
    if CanComplete(p, s, c) && s' == Complete(p, s, c) && Inside(c, Domains(u.l)) {
      var n := s.nodes[c];
      var left, right := Matched(p, s, c, 0).data, Matched(p, s, c, 1).data;
      PlanUpdate(u, p, n.stage, c, n.loc, left, right);
      UpdateKeepsSize(u, c, n.stage, n.loc, left, right);
    }
  }

  lemma {:induction false} RunKeepsSizes<T>(u: Setup, p: Plan<V3, Store<T>, seq<T>>, init: V3 -> Store<T>,
      run: seq<HaloNet<T>>, i: nat)
    requires Usable(u) && IsHaloPlan(u, p) && StoresOk(u.l, u.h, u.fields, init) && IsRun(p, init, run) && i < |run|
    ensures SizesOk(u, run[i])
  {
    if i > 0 {
      RunKeepsSizes(u, p, init, run, i - 1);
      assert MovesAt(p, run, i - 1);
      var c :| Step(p, run[i - 1], c, run[i]);
      StepKeepsSizes(u, p, run[i - 1], c, run[i]);
    }
  }

  /** Where halos are narrow, what is read during a stage is what was there before it. */
  lemma SamePack<T(!new)>(u: Setup, c: V3, s: nat, left: bool, loc: Store<T>, seen: Store<T>)
    requires Usable(u) && NarrowHalos(u) && Inside(c, Domains(u.l)) && StoreOk(u.l, u.h, u.fields, c, loc)
    requires DuringStage(u, c, s, loc, seen)
    ensures PackStage(u.l, u.h, u.fields, c, s, left, seen) == PackStage(u.l, u.h, u.fields, c, s, left, loc)
  {
    NarrowUndisturbed<T>(Extent(u.l, c), u.h, Dim(s));
  }

  lemma LooseIsSend<T(!new)>(u: Setup, p: Plan<V3, Store<T>, seq<T>>, s: HaloNet<T>, c: V3, seen: Store<T>,
      s': HaloNet<T>)
    requires Usable(u) && IsHaloPlan(u, p) && NarrowHalos(u) && SizesOk(u, s) && LooseSend(u, p, s, c, seen, s')
    requires Paced(p, s.nodes[c])
    ensures Step(p, s, c, s')
  {
    var n := s.nodes[c];
    assert n.sent / 2 == n.stage;
    SamePack(u, c, n.stage, IsLeft(n.sent), n.loc, seen);
    PackOfEvent(u, p, n.sent, c, n.loc);
    PackOfEvent(u, p, n.sent, c, seen);
    assert s' == PostSend(p, s, c);
  }

  lemma {:induction false} LooseIsRun<T(!new)>(u: Setup, p: Plan<V3, Store<T>, seq<T>>, init: V3 -> Store<T>,
      run: seq<HaloNet<T>>)
    requires Usable(u) && IsHaloPlan(u, p) && NarrowHalos(u) && StoresOk(u.l, u.h, u.fields, init)
    requires IsLooseRun(u, p, init, run)
    ensures IsRun(p, init, run)
    decreases |run|
  {
    if |run| > 1 {
      var before := run[..|run| - 1];
      var i := |before| - 1;
      forall k: nat | k < |before| - 1 ensures LooseAt(u, p, before, k) {
        assert LooseAt(u, p, run, k);
      }
      LooseIsRun(u, p, init, before);
      assert LooseAt(u, p, run, i);
      var c := LooseMoves(u, p, init, before, run[i + 1]);
      ExtendRun(p, init, before, c, run[i + 1]);
      assert run == before + [run[i + 1]];
    }
  }

  lemma LooseMoves<T(!new)>(u: Setup, p: Plan<V3, Store<T>, seq<T>>, init: V3 -> Store<T>, run: seq<HaloNet<T>>,
      s': HaloNet<T>)
      returns (c: V3)
    requires Usable(u) && IsHaloPlan(u, p) && NarrowHalos(u) && StoresOk(u.l, u.h, u.fields, init)
    requires IsRun(p, init, run) && (Moves(p, Last(run), s') || LooseStep(u, p, Last(run), s'))
    ensures Step(p, Last(run), c, s')
  {
    var s := Last(run);
    if Moves(p, s, s') {
      c :| Step(p, s, c, s');
    } else {
      var c', seen :| LooseSend(u, p, s, c', seen, s');
      RunKeepsSizes(u, p, init, run, |run| - 1);
      RunPaced(p, init, run, |run| - 1);
      InDoms(u, c');
      LooseIsSend(u, p, s, c', seen, s');
      c := c';
    }
  }

  // ----- wide halos -----

  /** A loose send whose data differ is no step. */
  lemma DisturbedIsNoStep<T>(u: Setup, p: Plan<V3, Store<T>, seq<T>>, s: HaloNet<T>, c: V3, data: seq<T>, c': V3)
    requires Usable(u) && IsHaloPlan(u, p) && CanSend(p, s, c)
    requires data != p.pack(c, s.nodes[c].sent, s.nodes[c].loc)
    ensures !Step(p, s, c', SendData(p, s, c, data))
  {
    var s' := SendData(p, s, c, data);
    assert Sent(s', p.sendKey(c, s.nodes[c].sent))[|Sent(s, p.sendKey(c, s.nodes[c].sent))|].data == data;
    assert s'.nodes[c].sent == s.nodes[c].sent + 1;
  }

  lemma DisturbStore(u: Setup, c: V3, s: nat, loc: Store<int>) returns (seen: Store<int>, left: bool)
    requires Usable(u) && Inside(c, Domains(u.l)) && StoreOk(u.l, u.h, u.fields, c, loc)
    requires !Narrow(Extent(u.l, c), u.h, Dim(s))
    ensures DuringStage(u, c, s, loc, seen)
    ensures PackStage(u.l, u.h, u.fields, c, s, left, seen) != PackStage(u.l, u.h, u.fields, c, s, left, loc)
  {
    var g: seq<int>;
    g, left := Disturb(loc[Field(u.fields, s)], Extent(u.l, c), u.h, Dim(s));
    seen := loc[Field(u.fields, s) := g];
  }

  /** A run up to the moment at which c is about to send to that side. */
  lemma AboutToSend<D(!new), L, M>(p: Plan<D, L, M>, init: D -> L, c: D, stage: nat) returns (run: seq<Net<D, L, M>>)
    requires Symmetric(p) && c in p.doms && stage < p.stages && forall t: nat :: t <= stage ==> StageApart(p, t)
    ensures IsRun(p, init, run) && CanSend(p, Last(run), c)
    ensures Last(run).nodes[c].stage == stage && Last(run).nodes[c].sent == 2 * stage
  {
    run := SideBySide(p, init, stage);
    assert Idle(Last(run).nodes, c, stage);
    if p.recvKey(c, 2 * stage) == p.recvKey(c, 2 * stage + 1) {
      RecvsApart(p, stage, c, 2 * stage, c, 2 * stage + 1);
    }
    run := PostTwo(p, init, run, c, stage);
  }

  lemma SendLoosely(u: Setup, p: Plan<V3, Store<int>, seq<int>>, init: V3 -> Store<int>, run: seq<HaloNet<int>>, c: V3,
      seen: Store<int>)
      returns (run': seq<HaloNet<int>>)
    requires Usable(u) && IsHaloPlan(u, p) && IsRun(p, init, run) && Inside(c, Domains(u.l)) && CanSend(p, Last(run), c)
    requires var n := Last(run).nodes[c];
             DuringStage(u, c, n.stage, n.loc, seen) && p.pack(c, n.sent, seen) != p.pack(c, n.sent, n.loc)
    ensures IsLooseRun(u, p, init, run') && !IsRun(p, init, run')
  {
    var s := Last(run);
    var data := p.pack(c, s.nodes[c].sent, seen);
    var s' := SendData(p, s, c, data);
    run' := run + [s'];
    assert LooseSend(u, p, s, c, seen, s');
    forall i: nat | i < |run'| - 1 ensures LooseAt(u, p, run', i) {
      if i < |run| - 1 {
        assert MovesAt(p, run, i);
      } else {
        assert LooseStep(u, p, s, s');
      }
    }
    if IsRun(p, init, run') {
      assert MovesAt(p, run', |run| - 1);
      var c' :| Step(p, s, c', s');
      DisturbedIsNoStep(u, p, s, c, data, c');
    }
  }

  /** Where a halo is not narrow, in-place sends give runs that packing does not have. */
  lemma WideHalosDisturb(u: Setup, init: V3 -> Store<int>) returns (run: seq<HaloNet<int>>)
    requires Usable(u) && StoresOk(u.l, u.h, u.fields, init) && 0 < u.steps && !NarrowHalos(u)
    ensures IsLooseRun(u, HaloPlan(u), init, run) && !IsRun(HaloPlan(u), init, run)
  {
    var p: Plan<V3, Store<int>, seq<int>> := HaloPlan(u);
    var c, dim: nat :| Inside(c, Domains(u.l)) && dim < 3 && !Narrow(Extent(u.l, c), u.h, dim);
    InDoms(u, c);
    PlanSymmetric<int>(u);
    forall t: nat ensures StageApart(p, t) {
      PlanStageApart<int>(u, t);
    }
    ProductMonotone(3 * u.fields, 1, u.steps);
    run := AboutToSend(p, init, c, dim);
    run := DisturbedSend(u, p, init, run, c, dim);
  }

  lemma DisturbedSend(u: Setup, p: Plan<V3, Store<int>, seq<int>>, init: V3 -> Store<int>, run: seq<HaloNet<int>>,
      c: V3, dim: nat)
      returns (run': seq<HaloNet<int>>)
    requires Usable(u) && IsHaloPlan(u, p) && StoresOk(u.l, u.h, u.fields, init) && IsRun(p, init, run)
    requires Inside(c, Domains(u.l)) && dim < 3 && !Narrow(Extent(u.l, c), u.h, dim) && CanSend(p, Last(run), c)
    requires Last(run).nodes[c].stage == dim && Last(run).nodes[c].sent == 2 * dim
    ensures IsLooseRun(u, p, init, run') && !IsRun(p, init, run')
  {
    RunKeepsSizes(u, p, init, run, |run| - 1);
    var loc := Last(run).nodes[c].loc;
    var seen, left := DisturbStore(u, c, dim, loc);
    run' := OtherSide(p, init, run, c, dim, left);
    SidesDiffer(u, p, c, dim, left, loc, seen);
    run' := SendLoosely(u, p, init, run', c, seen);
  }

  lemma OtherSide<D(!new), L, M>(p: Plan<D, L, M>, init: D -> L, run: seq<Net<D, L, M>>, c: D, stage: nat, left: bool)
      returns (run': seq<Net<D, L, M>>)
    requires IsRun(p, init, run) && CanSend(p, Last(run), c)
    requires Last(run).nodes[c].stage == stage && Last(run).nodes[c].sent == 2 * stage
    ensures IsRun(p, init, run') && CanSend(p, Last(run'), c)
    ensures var n := Last(run').nodes[c];
            n.stage == stage && n.sent == 2 * stage + (if left then 0 else 1) && n.loc == Last(run).nodes[c].loc
  {
    run' := run;
    if !left {
      run' := SendOne(p, init, run, c, 2 * stage);
    }
  }

  lemma SidesDiffer(u: Setup, p: Plan<V3, Store<int>, seq<int>>, c: V3, dim: nat, left: bool, loc: Store<int>,
      seen: Store<int>)
    requires Usable(u) && IsHaloPlan(u, p)
    requires PackStage(u.l, u.h, u.fields, c, dim, left, seen) != PackStage(u.l, u.h, u.fields, c, dim, left, loc)
    ensures var e := 2 * dim + (if left then 0 else 1); p.pack(c, e, seen) != p.pack(c, e, loc)
  {
    var e := 2 * dim + if left then 0 else 1;
    assert e / 2 == dim && IsLeft(e) == left;
    PackOfEvent(u, p, e, c, loc);
    PackOfEvent(u, p, e, c, seen);
  }

  // ----- main result -----

  /** Builds that send from the field have exactly the runs of those that pack first if and only
      if no halo is wider than its block, or messages are empty. */
  lemma InPlaceRunsIff(u: Setup, init: V3 -> Store<int>)
    requires Usable(u) && StoresOk(u.l, u.h, u.fields, init) && 0 < u.steps
    ensures NarrowHalos(u) <==> forall run :: IsLooseRun(u, HaloPlan(u), init, run) ==> IsRun(HaloPlan(u), init, run)
  {
    if NarrowHalos(u) {
      forall run | IsLooseRun(u, HaloPlan(u), init, run) ensures IsRun(HaloPlan(u), init, run) {
        LooseIsRun(u, HaloPlan(u), init, run);
      }
    } else {
      var run := WideHalosDisturb(u, init);
    }
  }
}
