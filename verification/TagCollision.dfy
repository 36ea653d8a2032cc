/** What goes wrong when more fields are exchanged than the tag code allows for: runs in which a
    receive gets a message of another field, dimension and thread. */
module TagCollision {
  import opened Grid
  import opened Blocks
  import opened Layouts
  import opened Decomposition
  import opened Fields
  import opened Tags
  import opened MessagePassing
  import opened LockstepRuns
  import opened OrderedRuns
  import opened HaloProgram
  import opened HaloOrder

  // ----- a process that runs ahead -----

  /** The channels of stages t and t + 1 by which b overtakes a; e is event 2 * t. */
  ghost predicate Colliding<D(!new), L, M>(p: Plan<D, L, M>, t: nat, a: D, b: D) {
    var e := 2 * t;
    var k := p.sendKey(a, e + 1);
    && a != b && t + 1 < p.stages
    && p.recvKey(a, e) == p.sendKey(a, e) && p.recvKey(a, e + 1) == k && p.sendKey(a, e) != k
    && p.recvKey(b, e) == p.sendKey(b, e) && p.recvKey(b, e + 1) == p.sendKey(b, e + 1)
    && p.sendKey(b, e) != p.sendKey(b, e + 1)
    && p.sendKey(b, e) != k && p.sendKey(b, e + 1) != k && p.sendKey(b, e) != p.sendKey(a, e)
    && p.sendKey(b, e + 1) != p.sendKey(a, e)
    && p.recvKey(b, e + 2) != k && p.recvKey(b, e + 3) != k && p.recvKey(b, e + 2) != p.recvKey(b, e + 3)
    && p.recvKey(b, e + 2) != p.sendKey(a, e) && p.recvKey(b, e + 3) != p.sendKey(a, e)
    && p.sendKey(b, e + 2) == k
  }

  /** Process b completes stage t alone: its messages go to itself. */
  lemma AloneStage<D(!new), L, M>(p: Plan<D, L, M>, init: D -> L, run: seq<Net<D, L, M>>, t: nat, a: D, b: D)
      returns (run': seq<Net<D, L, M>>)
    requires IsRun(p, init, run) && a in p.doms && b in p.doms && Quiet(p, Last(run), t) && Colliding(p, t, a, b)
    ensures IsRun(p, init, run') && Idle(Last(run').nodes, a, t) && Idle(Last(run').nodes, b, t + 1)
    ensures forall k :: k == p.sendKey(a, 2 * t) || k == p.sendKey(a, 2 * t + 1) ==>
      |Sent(Last(run'), k)| == Posts(Last(run'), k)
  {
    var s := Last(run);
    var run1 := PostTwo(p, init, run, b, t);
    var run2 := SendTwo(p, init, run1, b, t);
    OthersBalanced(p, t, s, Last(run1), Last(run2), a, b);
    run' := Wait(p, init, run2, b);
    assert forall k :: Sent(Last(run'), k) == Sent(Last(run2), k) && Posts(Last(run'), k) == Posts(Last(run2), k);
  }

  /** What b posts and sends evens out on its own channels and touches none of a's. */
  lemma OthersBalanced<D(!new), L, M>(p: Plan<D, L, M>, t: nat, s: Net<D, L, M>, s1: Net<D, L, M>, s2: Net<D, L, M>,
      a: D, b: D)
    requires Colliding(p, t, a, b) && a in s.nodes && Idle(s.nodes, a, t) && Idle(s.nodes, b, t) && Balanced(s)
    requires TwoPosts(p, s, b, t, s1) && TwoSends(p, s1, b, t, s2)
    ensures forall k :: k == p.sendKey(a, 2 * t) || k == p.sendKey(a, 2 * t + 1) ==> |Sent(s2, k)| == Posts(s2, k)
    ensures CanComplete(p, s2, b) && s2.nodes[b].stage == t && a in s2.nodes && s2.nodes[a] == s.nodes[a]
  {
    assert forall k :: Sent(s1, k) == Sent(s, k) && Posts(s2, k) == Posts(s1, k);
  }

  /** It posts the receives of the next stage and sends its first message. */
  lemma RunAhead<D(!new), L, M>(p: Plan<D, L, M>, init: D -> L, run: seq<Net<D, L, M>>, t: nat, a: D, b: D)
      returns (run': seq<Net<D, L, M>>)
    requires IsRun(p, init, run) && Idle(Last(run).nodes, a, t) && Idle(Last(run).nodes, b, t + 1)
        && Colliding(p, t, a, b)
    requires forall k :: k == p.sendKey(a, 2 * t) || k == p.sendKey(a, 2 * t + 1) ==>
        |Sent(Last(run), k)| == Posts(Last(run), k)
    ensures IsRun(p, init, run') && Idle(Last(run').nodes, a, t)
    ensures |Sent(Last(run'), p.sendKey(a, 2 * t))| == Posts(Last(run'), p.sendKey(a, 2 * t))
    ensures var k := p.sendKey(a, 2 * t + 1);
            |Sent(Last(run'), k)| == Posts(Last(run'), k) + 1
            && Sent(Last(run'), k)[Posts(Last(run'), k)].from == b
            && Sent(Last(run'), k)[Posts(Last(run'), k)].ev == 2 * t + 2
  {
    var s := Last(run);
    run' := PostTwo(p, init, run, b, t + 1);
    var s1 := Last(run');
    run' := SendOne(p, init, run', b, 2 * t + 2);
    assert forall k :: Sent(s1, k) == Sent(s, k) && Posts(Last(run'), k) == Posts(s1, k);
  }

  /** Then the other posts its receive. */
  lemma CatchUp<D(!new), L, M>(p: Plan<D, L, M>, init: D -> L, run: seq<Net<D, L, M>>, t: nat, a: D, b: D)
      returns (run': seq<Net<D, L, M>>)
    requires IsRun(p, init, run) && Idle(Last(run).nodes, a, t) && Colliding(p, t, a, b)
    requires |Sent(Last(run), p.sendKey(a, 2 * t))| == Posts(Last(run), p.sendKey(a, 2 * t))
    requires var k := p.sendKey(a, 2 * t + 1);
             |Sent(Last(run), k)| == Posts(Last(run), k) + 1
             && Sent(Last(run), k)[Posts(Last(run), k)].from == b
             && Sent(Last(run), k)[Posts(Last(run), k)].ev == 2 * t + 2
    ensures IsRun(p, init, run') && CanComplete(p, Last(run'), a) && Last(run').nodes[a].stage == t
    ensures Matched(p, Last(run'), a, 1).from == b && Matched(p, Last(run'), a, 1).ev == 2 * t + 2
  {
    var s := Last(run);
    run' := PostTwo(p, init, run, a, t);
    var s1 := Last(run');
    run' := SendTwo(p, init, run', a, t);
    assert forall k :: Sent(s1, k) == Sent(s, k);
  }

  /** All in lockstep up to stage t, then these three. */
  lemma Overtake<D(!new), L, M>(p: Plan<D, L, M>, init: D -> L, t: nat, a: D, b: D) returns (run: seq<Net<D, L, M>>)
    requires Symmetric(p) && t <= p.stages && a in p.doms && b in p.doms && Colliding(p, t, a, b)
    requires forall s: nat :: StageApart(p, s)
    ensures IsRun(p, init, run) && CanComplete(p, Last(run), a) && Last(run).nodes[a].stage == t
    ensures Matched(p, Last(run), a, 1).from == b && Matched(p, Last(run), a, 1).ev == 2 * t + 2
  {
    run := SideBySide(p, init, t);
    run := AloneStage(p, init, run, t, a, b);
    run := RunAhead(p, init, run, t, a, b);
    run := CatchUp(p, init, run, t, a, b);
  }

  // ----- a row of threads -----

  /** One rank with a row of two or more threads, one field more than threads, and the tag
      factor the code computes from the number of threads. */
  ghost predicate Row(u: Setup) {
    && Usable(u) && u.g.ranks == V3(1, 1, 1) && u.g.threads == V3(u.factor, 1, 1) && u.factor >= 2
    && u.fields == u.factor + 1 && u.steps >= 2
  }

  /** The domain of thread x. */
  function At(x: int): V3 { V3(x, 0, 0) }

  lemma RowFactor(u: Setup)
    requires Row(u)
    ensures u.factor == NumThreads(u.g)
  {
    assert u.factor * 1 * 1 == u.factor;
  }

  lemma RowDomains(u: Setup)
    requires Row(u)
    ensures Domains(u.l) == V3(u.factor, 1, 1)
  {
    assert Domains(u.l) == Threads(u.g);
  }

  lemma RowCoords(g: Config, t: nat, x: int)
    requires g.threads == V3(t, 1, 1) && 0 <= x < t
    ensures RankCoord(g, At(x)) == V3(0, 0, 0) && ThreadCoord(g, At(x)) == At(x)
  {
    DivModOf(x, t, 0);
  }

  lemma RowThread(u: Setup, x: int)
    requires Row(u) && 0 <= x < u.factor
    ensures ThreadOf(u.g, At(x)) == x
  {
    RowCoords(u.g, u.factor, x);
    assert u.factor * (0 + 1 * 0) == 0;
  }

  lemma RowRank(u: Setup, x: int)
    requires Row(u) && 0 <= x < u.factor
    ensures Rank(u, At(x)) == (u.rankOf)(V3(0, 0, 0))
  {
    RowCoords(u.g, u.factor, x);
  }

  lemma SoloAxis(a: Axis)
    requires |a.ext| == 1
    ensures Left(a, 0) == 0 && Right(a, 0) == 0
  {
  }

  /** In z every thread is its own neighbour. */
  lemma OwnEnds(u: Setup, x: int, e: nat)
    requires Row(u) && 0 <= x < u.factor && Dim(e / 2) == 2
    ensures DestOf(u, At(x), e) == At(x) && SourceOf(u, At(x), e) == At(x)
  {
    RowDomains(u);
    SoloAxis(u.l.z);
  }

  /** Thread 1 sends its x-left message to thread 0, from which it gets the x-right message. */
  lemma SecondThread(u: Setup, e: nat)
    requires Row(u) && Dim(e / 2) == 0
    ensures IsLeft(e) ==> DestOf(u, At(1), e) == At(0) && SourceOf(u, At(1), e) == At(if u.factor == 2 then 0 else 2)
    ensures !IsLeft(e) ==> SourceOf(u, At(1), e) == At(0)
  {
    RowDomains(u);
  }

  // ----- the tags of the last stage of a step and of the first stage of the next -----

  lemma SendTag(u: Setup, c: V3, e: nat, thread: int, factor: nat, field: nat, dim: nat, left: bool)
    requires Usable(u) && u.factor == factor && ThreadOf(u.g, c) == thread
    requires Field(u.fields, e / 2) == field && Dim(e / 2) == dim && IsLeft(e) == left
    ensures SendKeyOf(u, c, e).tag == Tag(factor, field, dim, left, thread)
  {
  }

  lemma LastStageOf(t: nat, e: nat)
    requires 6 * t + 4 <= e < 6 * t + 6
    ensures Field(t + 1, e / 2) == t && Dim(e / 2) == 2 && IsLeft(e) == (e == 6 * t + 4)
  {
    assert e / 2 == 3 * t + 2 && (3 * t + 2) / 3 == t && (3 * t + 2) % 3 == 2;
    DivModOf(t, t + 1, 0);
  }

  lemma FirstStageOf(t: nat, e: nat)
    requires 6 * t + 6 <= e < 6 * t + 8
    ensures Field(t + 1, e / 2) == 0 && Dim(e / 2) == 0 && IsLeft(e) == (e == 6 * t + 6)
  {
    assert e / 2 == 3 * (t + 1) && 3 * (t + 1) / 3 == t + 1 && 3 * (t + 1) % 3 == 0;
    DivModOf(0, t + 1, 1);
  }

  lemma LastTag(u: Setup, x: int, e: nat, t: nat)
    requires Row(u) && 0 <= x < u.factor && t == u.factor && 6 * t + 4 <= e < 6 * t + 6
    ensures SendKeyOf(u, At(x), e).tag == t * (6 * x + if e == 6 * t + 4 then 5 else 6)
  {
    LastStageOf(t, e);
    RowThread(u, x);
    var d := if e == 6 * t + 4 then 4 else 5;
    SendTag(u, At(x), e, x, t, t, 2, e == 6 * t + 4);
    Distribute(t, d + 6 * x);
  }

  lemma Distribute(t: int, a: int)
    ensures t + t * a == t * (a + 1)
  {
  }

  lemma FirstTag(u: Setup, x: int, e: nat, t: nat)
    requires Row(u) && 0 <= x < u.factor && t == u.factor && 6 * t + 6 <= e < 6 * t + 8
    ensures SendKeyOf(u, At(x), e).tag == t * (6 * x + if e == 6 * t + 6 then 0 else 1)
  {
    FirstStageOf(t, e);
    RowThread(u, x);
    SendTag(u, At(x), e, x, t, 0, 0, e == 6 * t + 6);
  }

  lemma SameKey(u: Setup, a: V3, e: nat, a': V3, e': nat, d: V3)
    requires Usable(u) && Rank(u, a) == Rank(u, a') && DestOf(u, a, e) == d && DestOf(u, a', e') == d
    requires SendKeyOf(u, a, e).tag == SendKeyOf(u, a', e').tag
    ensures SendKeyOf(u, a, e) == SendKeyOf(u, a', e')
  {
  }

  /** The z-right message of the last field of thread 0 and the x-left message of field 0 of
      thread 1 go the same way. */
  lemma Collision(u: Setup, t: nat)
    requires Row(u) && t == u.factor
    ensures SendKeyOf(u, At(0), 6 * t + 5) == SendKeyOf(u, At(1), 6 * t + 6)
  {
    var e, e' := 6 * t + 5, 6 * t + 6;
    LastTag(u, 0, e, t);
    FirstTag(u, 1, e', t);
    LastStageOf(t, e);
    FirstStageOf(t, e');
    OwnEnds(u, 0, e);
    SecondThread(u, e');
    RowRank(u, 0);
    RowRank(u, 1);
    SameKey(u, At(0), e, At(1), e', At(0));
  }

  lemma OwnKey(u: Setup, x: int, e: nat, t: nat)
    requires Row(u) && 0 <= x < u.factor && t == u.factor && 6 * t + 4 <= e < 6 * t + 6
    ensures RecvKeyOf(u, At(x), e) == SendKeyOf(u, At(x), e)
  {
    LastStageOf(t, e);
    OwnEnds(u, x, e);
    RowDomains(u);
    KeysMatch(u, At(x), e);
  }

  lemma SecondKeys(u: Setup, t: nat)
    requires Row(u) && t == u.factor
    ensures RecvKeyOf(u, At(1), 6 * t + 6) == SendKeyOf(u, At(if t == 2 then 0 else 2), 6 * t + 6)
    ensures RecvKeyOf(u, At(1), 6 * t + 7) == SendKeyOf(u, At(0), 6 * t + 7)
  {
    FirstStageOf(t, 6 * t + 6);
    FirstStageOf(t, 6 * t + 7);
    SecondThread(u, 6 * t + 6);
    SecondThread(u, 6 * t + 7);
    RowDomains(u);
    KeysMatch(u, At(1), 6 * t + 6);
    KeysMatch(u, At(1), 6 * t + 7);
  }

  // ----- the same of the plan -----

  lemma PlanLastTag<T>(u: Setup, p: Plan<V3, Store<T>, seq<T>>, x: int, e: nat, t: nat)
    requires Row(u) && IsHaloPlan(u, p) && 0 <= x < u.factor && t == u.factor && 6 * t + 4 <= e < 6 * t + 6
    ensures p.sendKey(At(x), e).tag == t * (6 * x + if e == 6 * t + 4 then 5 else 6)
    ensures p.recvKey(At(x), e) == p.sendKey(At(x), e)
  {
    assert Named(p);
    LastTag(u, x, e, t);
    OwnKey(u, x, e, t);
  }

  lemma PlanFirstTag<T>(u: Setup, p: Plan<V3, Store<T>, seq<T>>, x: int, e: nat, t: nat)
    requires Row(u) && IsHaloPlan(u, p) && 0 <= x < u.factor && t == u.factor && 6 * t + 6 <= e < 6 * t + 8
    ensures p.sendKey(At(x), e).tag == t * (6 * x + if e == 6 * t + 6 then 0 else 1)
  {
    assert Named(p);
    FirstTag(u, x, e, t);
  }

  lemma PlanSecondKeys<T>(u: Setup, p: Plan<V3, Store<T>, seq<T>>, t: nat)
    requires Row(u) && IsHaloPlan(u, p) && t == u.factor
    ensures p.recvKey(At(1), 6 * t + 6) == p.sendKey(At(if t == 2 then 0 else 2), 6 * t + 6)
    ensures p.recvKey(At(1), 6 * t + 7) == p.sendKey(At(0), 6 * t + 7)
  {
    assert Named(p);
    SecondKeys(u, t);
  }

  lemma PlanCollision<T>(u: Setup, p: Plan<V3, Store<T>, seq<T>>, t: nat)
    requires Row(u) && IsHaloPlan(u, p) && t == u.factor
    ensures p.sendKey(At(0), 6 * t + 5) == p.sendKey(At(1), 6 * t + 6)
  {
    assert Named(p);
    Collision(u, t);
  }

  lemma PlanShape<T>(u: Setup, p: Plan<V3, Store<T>, seq<T>>)
    requires Row(u) && IsHaloPlan(u, p)
    ensures p.stages == 3 * u.fields * u.steps && At(0) in p.doms && At(1) in p.doms
    ensures Symmetric(p) && forall t: nat :: StageApart(p, t)
  {
    assert Named(p);
    RowDomains(u);
    InDoms(u, At(0));
    InDoms(u, At(1));
    PlanSymmetric<T>(u);
    forall t: nat ensures StageApart(p, t) {
      PlanStageApart<T>(u, t);
    }
  }

  lemma Stages(fields: nat, steps: nat)
    requires steps >= 2
    ensures 3 * fields * steps >= 6 * fields
  {
    ProductMonotone(3 * fields, 2, steps);
  }

  lemma LateKeys<T>(u: Setup, p: Plan<V3, Store<T>, seq<T>>, t: nat)
    requires Row(u) && IsHaloPlan(u, p) && t == u.factor
    ensures Colliding(p, 3 * t + 2, At(0), At(1))
  {
    PlanShape(u, p);
    Stages(u.fields, u.steps);
    var e := 2 * (3 * t + 2);
    PlanLastTag(u, p, 0, e, t);
    PlanLastTag(u, p, 0, e + 1, t);
    PlanLastTag(u, p, 1, e, t);
    PlanLastTag(u, p, 1, e + 1, t);
    PlanFirstTag(u, p, if t == 2 then 0 else 2, e + 2, t);
    PlanFirstTag(u, p, 0, e + 3, t);
    PlanSecondKeys(u, p, t);
    PlanCollision(u, p, t);
  }

  lemma Overtaken<T>(u: Setup, p: Plan<V3, Store<T>, seq<T>>, init: V3 -> Store<T>, t: nat)
      returns (run: seq<HaloNet<T>>)
    requires Row(u) && IsHaloPlan(u, p) && t == u.factor
    ensures IsRun(p, init, run) && CanComplete(p, Last(run), At(0)) && Last(run).nodes[At(0)].stage == 3 * t + 2
    ensures Matched(p, Last(run), At(0), 1).from == At(1) && Matched(p, Last(run), At(0), 1).ev == 6 * t + 6
  {
    PlanShape(u, p);
    Stages(u.fields, u.steps);
    LateKeys(u, p, t);
    run := Overtake(p, init, 3 * t + 2, At(0), At(1));
  }

  lemma OwnSource(u: Setup, t: nat)
    requires Row(u) && t == u.factor
    ensures SourceOf(u, At(0), 6 * t + 5) == At(0)
  {
    LastStageOf(t, 6 * t + 5);
    OwnEnds(u, 0, 6 * t + 5);
  }

  /** On a row of t threads, t >= 2, with t + 1 fields, the tag factor of the code is one too
      small, and there is a run in which thread 0, waiting in the z stage of the last field for
      the message it sent to itself, event 6 t + 5, is given thread 1's x-left message of field 0
      of the next step, event 6 t + 6, whatever the blocks, the halos and the initial fields.  It
      takes two steps with no barrier between them. */
  lemma WrongMessage<T>(u: Setup, init: V3 -> Store<T>) returns (run: seq<HaloNet<T>>)
    requires Row(u)
    ensures u.factor == NumThreads(u.g) && !Ordered(HaloPlan<T>(u))
    ensures SourceOf(u, At(0), 6 * u.factor + 5) == At(0)
    ensures IsRun(HaloPlan(u), init, run) && CanComplete(HaloPlan(u), Last(run), At(0))
    ensures Last(run).nodes[At(0)].stage == 3 * u.factor + 2
    ensures Matched(HaloPlan(u), Last(run), At(0), 1).from == At(1)
    ensures Matched(HaloPlan(u), Last(run), At(0), 1).ev == 6 * u.factor + 6
  {
    RowFactor(u);
    OneFieldMore<T>(u);
    OwnSource(u, u.factor);
    run := Overtaken(u, HaloPlan(u), init, u.factor);
  }
}
