/** The reusable spin barrier: two counters, every thread counts up, then down.

    Every atomic access is one step, and memory is sequentially consistent. */
module Barrier {
  import opened Counting

  /** Where a thread is.  `CasUp(v)` and `CasDown(v)` have read v and are about to exchange it. */
  datatype Pc =
    | Outside | CasUp(up: int) | ResetUp | WaitUp
    | WaitDown | LoadDown | CasDown(down: int) | ResetDown | WaitReset

  /** A thread and the number of barrier calls it has returned from. */
  datatype Thread = Thread(pc: Pc, calls: nat)

  datatype State = State(up: int, down: int, ts: seq<Thread>)

  ghost predicate Init(n: nat, s: State) {
    s.up == 0 && s.down == n && |s.ts| == n && forall i :: 0 <= i < n ==> s.ts[i] == Thread(Outside, 0)
  }

  function Go(s: State, i: nat, pc: Pc): State
    requires i < |s.ts|
  {
    s.(ts := s.ts[i := s.ts[i].(pc := pc)])
  }

  function Return(s: State, i: nat): State
    requires i < |s.ts|
  {
    s.(ts := s.ts[i := Thread(Outside, s.ts[i].calls + 1)])
  }

  /** A step that gets thread i further: everything but spinning and failed exchanges. */
  ghost predicate Advance(n: nat, s: State, i: nat, s': State) {
    && i < |s.ts|
    && match s.ts[i].pc
       case Outside => s' == if n > 1 then Go(s, i, CasUp(s.up)) else Return(s, i)
       case CasUp(v) =>
         if v == s.up then s' == Go(s.(up := v + 1), i, if v == n - 1 then ResetUp else WaitUp)
         else s' == Go(s, i, CasUp(s.up))
       case ResetUp => s' == Go(s.(up := 0), i, LoadDown)
       case WaitUp => s.up == 0 && s' == Go(s, i, WaitDown)
       case WaitDown => s.down != n && s' == Go(s, i, LoadDown)
       case LoadDown => s' == Go(s, i, CasDown(s.down))
       case CasDown(v) =>
         if v == s.down then s' == Go(s.(down := v - 1), i, if v == 1 then ResetDown else WaitReset)
         else s' == Go(s, i, CasDown(s.down))
       case ResetDown => s' == Return(s.(down := n), i)
       case WaitReset => s.down == n && s' == Return(s, i)
  }

  /** A step that does not: a spin, or a weak exchange that fails and reloads. */
  ghost predicate Spin(n: nat, s: State, i: nat, s': State) {
    && i < |s.ts|
    && match s.ts[i].pc
       case CasUp(v) => s' == Go(s, i, CasUp(s.up))
       case WaitUp => s.up != 0 && s' == s
       case WaitDown => s.down == n && s' == s
       case CasDown(v) => s' == Go(s, i, CasDown(s.down))
       case WaitReset => s.down != n && s' == s
       case _ => false
  }

  ghost predicate Step(n: nat, s: State, s': State) {
    exists i: nat :: Advance(n, s, i, s') || Spin(n, s, i, s')
  }

  ghost predicate IsRun(n: nat, run: seq<State>) {
    && |run| > 0 && Init(n, run[0])
    && forall k :: 0 <= k < |run| - 1 ==> Step(n, run[k], run[k + 1])
  }

  // ----- invariant -----

  function Arrived(): Thread -> bool { (t: Thread) => t.pc.WaitUp? }

  function Left(): Thread -> bool { (t: Thread) => t.pc.WaitReset? }

  /** Round r is gathering: arrivals wait, others have not arrived or have yet to leave round r - 1. */
  ghost predicate Gather(n: nat, s: State, r: nat) {
    && s.down == n && s.up == Count(s.ts, Arrived())
    && (exists i :: 0 <= i < |s.ts| && !s.ts[i].pc.WaitUp?)
    && forall i :: 0 <= i < |s.ts| ==>
         var t := s.ts[i];
         || ((t.pc.Outside? || t.pc.CasUp? || t.pc.WaitUp?) && t.calls == r)
         || (t.pc.WaitReset? && t.calls + 1 == r)
  }

  /** All have arrived in round r; the last one is about to reset the up counter. */
  ghost predicate Full(n: nat, s: State, r: nat) {
    && s.down == n && s.up == n
    && (forall i :: 0 <= i < |s.ts| ==> s.ts[i].calls == r && (s.ts[i].pc.WaitUp? || s.ts[i].pc.ResetUp?))
    && exists i ::
         && 0 <= i < |s.ts| && s.ts[i].pc.ResetUp?
         && forall j :: 0 <= j < |s.ts| && j != i ==> s.ts[j].pc.WaitUp?
  }

  /** Round r is draining. */
  ghost predicate Drain(n: nat, s: State, r: nat) {
    && s.up == 0 && 1 <= s.down <= n && n - s.down == Count(s.ts, Left())
    && (s.down == n ==> exists i :: 0 <= i < |s.ts| && (s.ts[i].pc.LoadDown? || s.ts[i].pc.CasDown?))
    && forall i :: 0 <= i < |s.ts| ==>
         var t := s.ts[i];
         t.calls == r && (t.pc.WaitUp? || t.pc.WaitDown? || t.pc.LoadDown? || t.pc.CasDown? || t.pc.WaitReset?)
  }

  /** All have counted down in round r; the last one is about to reset the down counter. */
  ghost predicate Empty(n: nat, s: State, r: nat) {
    && s.up == 0 && s.down == 0
    && (forall i :: 0 <= i < |s.ts| ==> s.ts[i].calls == r && (s.ts[i].pc.WaitReset? || s.ts[i].pc.ResetDown?))
    && exists i ::
         && 0 <= i < |s.ts| && s.ts[i].pc.ResetDown?
         && forall j :: 0 <= j < |s.ts| && j != i ==> s.ts[j].pc.WaitReset?
  }

  ghost predicate InvAt(n: nat, s: State, r: nat) {
    |s.ts| == n && (Gather(n, s, r) || Full(n, s, r) || Drain(n, s, r) || Empty(n, s, r))
  }

  lemma InitInv(n: nat, s: State)
    requires 1 < n && Init(n, s)
    ensures InvAt(n, s, 0)
  {
    CountAll(s.ts, Arrived());
    assert !s.ts[0].pc.WaitUp?;
  }

  /** Thread i moves without arriving. */
  lemma GatherMove(n: nat, s: State, i: nat, t: Thread, r: nat)
    requires 1 < n && |s.ts| == n && Gather(n, s, r) && i < n
    requires !s.ts[i].pc.WaitUp? && (t.pc.Outside? || t.pc.CasUp?) && t.calls == r
    ensures Gather(n, s.(ts := s.ts[i := t]), r)
  {
    var s' := s.(ts := s.ts[i := t]);
    CountUpdate(s.ts, i, t, Arrived());
    assert !s'.ts[i].pc.WaitUp?;
  }

  /** Thread i arrives. */
  lemma GatherArrive(n: nat, s: State, i: nat, s': State, r: nat)
    requires 1 < n && |s.ts| == n && Gather(n, s, r) && i < n && s.ts[i].pc == CasUp(s.up)
    requires s' == Go(s.(up := s.up + 1), i, if s.up == n - 1 then ResetUp else WaitUp)
    ensures InvAt(n, s', r)
  {
    var t := Thread(WaitUp, r);
    CountUpdate(s.ts, i, t, Arrived());
    if s.up == n - 1 {
      AllOthers(s.ts, i, t, Arrived());
      assert s'.ts[i].pc.ResetUp?;
      assert Full(n, s', r);
    } else {
      CountAll(s'.ts, Arrived());
      assert Gather(n, s', r);
    }
  }

  lemma GatherStep(n: nat, s: State, i: nat, s': State, r: nat)
    requires 1 < n && |s.ts| == n && Gather(n, s, r) && (Advance(n, s, i, s') || Spin(n, s, i, s'))
    ensures InvAt(n, s', r)
  {
    if s' != s {
      if s'.up != s.up {
        GatherArrive(n, s, i, s', r);
      } else {
        CountAll(s.ts, Arrived());
        GatherMove(n, s, i, s'.ts[i], r);
      }
    }
  }

  lemma FullStep(n: nat, s: State, i: nat, s': State, r: nat)
    requires 1 < n && |s.ts| == n && Full(n, s, r) && (Advance(n, s, i, s') || Spin(n, s, i, s'))
    ensures InvAt(n, s', r)
  {
    if s' != s {
      CountAll(s'.ts, Left());
      assert s'.ts[i].pc.LoadDown?;
      assert Drain(n, s', r);
    }
  }

  /** Thread i moves without counting down. */
  lemma DrainMove(n: nat, s: State, i: nat, t: Thread, r: nat)
    requires 1 < n && |s.ts| == n && Drain(n, s, r) && i < n && t.calls == r
    requires (s.ts[i].pc.WaitUp? && t.pc.WaitDown?)
          || (!s.ts[i].pc.WaitReset? && (t.pc.LoadDown? || t.pc.CasDown?))
    ensures Drain(n, s.(ts := s.ts[i := t]), r)
  {
    var s' := s.(ts := s.ts[i := t]);
    CountUpdate(s.ts, i, t, Left());
    if s.down == n {
      var j :| 0 <= j < |s.ts| && (s.ts[j].pc.LoadDown? || s.ts[j].pc.CasDown?);
      assert s'.ts[j].pc.LoadDown? || s'.ts[j].pc.CasDown?;
    }
  }

  /** Thread i counts down. */
  lemma DrainLeave(n: nat, s: State, i: nat, s': State, r: nat)
    requires 1 < n && |s.ts| == n && Drain(n, s, r) && i < n && s.ts[i].pc == CasDown(s.down)
    requires s' == Go(s.(down := s.down - 1), i, if s.down == 1 then ResetDown else WaitReset)
    ensures InvAt(n, s', r)
  {
    var t := Thread(WaitReset, r);
    CountUpdate(s.ts, i, t, Left());
    if s.down == 1 {
      AllOthers(s.ts, i, t, Left());
      assert s'.ts[i].pc.ResetDown?;
      assert Empty(n, s', r);
    } else {
      assert Drain(n, s', r);
    }
  }

  lemma DrainStep(n: nat, s: State, i: nat, s': State, r: nat)
    requires 1 < n && |s.ts| == n && Drain(n, s, r) && (Advance(n, s, i, s') || Spin(n, s, i, s'))
    ensures InvAt(n, s', r)
  {
    if s' != s {
      if s'.down != s.down {
        DrainLeave(n, s, i, s', r);
      } else {
        CountAll(s.ts, Left());
        DrainMove(n, s, i, s'.ts[i], r);
      }
    }
  }

  lemma EmptyStep(n: nat, s: State, i: nat, s': State, r: nat)
    requires 1 < n && |s.ts| == n && Empty(n, s, r) && (Advance(n, s, i, s') || Spin(n, s, i, s'))
    ensures InvAt(n, s', r) || InvAt(n, s', r + 1)
  {
    if s' != s {
      CountAll(s'.ts, Arrived());
      assert s'.ts[i].pc.Outside?;
      assert Gather(n, s', r + 1);
    }
  }

  lemma StepInv(n: nat, s: State, i: nat, s': State, r: nat) returns (r': nat)
    requires 1 < n && InvAt(n, s, r) && (Advance(n, s, i, s') || Spin(n, s, i, s'))
    ensures InvAt(n, s', r') && r <= r' <= r + 1
  {
    r' := r;
    if Gather(n, s, r) {
      GatherStep(n, s, i, s', r);
    } else if Full(n, s, r) {
      FullStep(n, s, i, s', r);
    } else if Drain(n, s, r) {
      DrainStep(n, s, i, s', r);
    } else {
      EmptyStep(n, s, i, s', r);
      if !InvAt(n, s', r) {
        r' := r + 1;
      }
    }
  }

  lemma {:induction false} RunInv(n: nat, run: seq<State>, k: nat) returns (r: nat)
    requires 1 < n && IsRun(n, run) && k < |run|
    ensures InvAt(n, run[k], r)
  {
    if k == 0 {
      InitInv(n, run[0]);
      r := 0;
    } else {
      r := RunInv(n, run, k - 1);
      assert Step(n, run[k - 1], run[k - 1 + 1]);
      var i: nat :| Advance(n, run[k - 1], i, run[k]) || Spin(n, run[k - 1], i, run[k]);
      r := StepInv(n, run[k - 1], i, run[k], r);
    }
  }

  /** A barrier of one thread never leaves its initial state. */
  lemma {:induction false} SoloInv(n: nat, run: seq<State>, k: nat)
    requires n <= 1 && IsRun(n, run) && k < |run|
    ensures |run[k].ts| == n && run[k].up == 0 && run[k].down == n
    ensures forall i :: 0 <= i < n ==> run[k].ts[i].pc.Outside?
  {
    if k > 0 {
      SoloInv(n, run, k - 1);
      assert Step(n, run[k - 1], run[k - 1 + 1]);
    }
  }

  // ----- safety -----

  /** How many calls a thread has begun. */
  function Entered(t: Thread): nat { t.calls + One(!t.pc.Outside?) }

  /** No thread leaves its k-th call before all threads have entered their k-th: for every
      number of threads, every interleaving and every k. */
  lemma BarrierHolds(n: nat, run: seq<State>, m: nat, i: nat, j: nat)
    requires IsRun(n, run) && m < |run| && i < n && j < n
    ensures |run[m].ts| == n && run[m].ts[i].calls <= Entered(run[m].ts[j])
  {
    if n > 1 {
      var r := RunInv(n, run, m);
    } else {
      SoloInv(n, run, m);
    }
  }

  /** Between rounds, when all threads are outside, the counters are back at 0 and n and all
      threads have made equally many calls. */
  lemma CountersRestored(n: nat, run: seq<State>, m: nat)
    requires IsRun(n, run) && m < |run|
    requires forall i :: 0 <= i < |run[m].ts| ==> run[m].ts[i].pc.Outside?
    ensures run[m].up == 0 && run[m].down == n
    ensures forall i, j :: 0 <= i < |run[m].ts| && 0 <= j < |run[m].ts| ==> run[m].ts[i].calls == run[m].ts[j].calls
  {
    if n > 1 {
      var r := RunInv(n, run, m);
      CountAll(run[m].ts, Arrived());
      CountAll(run[m].ts, Left());
    } else {
      SoloInv(n, run, m);
    }
  }

  // ----- progress -----

  /** What thread t still has to do to return from its last call, the k-th. */
  function Rank(pc: Pc): nat {
    match pc
    case Outside => 9
    case CasUp(_) => 8
    case ResetUp => 7
    case WaitUp => 6
    case WaitDown => 5
    case LoadDown => 4
    case CasDown(_) => 3
    case ResetDown => 2
    case WaitReset => 1
  }

  function ToDo(k: nat): Thread -> nat {
    (t: Thread) => if t.calls < k then 9 * (k - t.calls - 1) + Rank(t.pc) else 0
  }

  /** A thread whose exchange must fail because it read an old value. */
  function Stale(up: int, down: int): Thread -> bool {
    (t: Thread) => (t.pc.CasUp? && t.pc.up != up) || (t.pc.CasDown? && t.pc.down != down)
  }

  function Measure(n: nat, k: nat, s: State): nat {
    (n + 1) * Sum(s.ts, ToDo(k)) + Count(s.ts, Stale(s.up, s.down))
  }

  /** Every advance decreases the measure, as long as the thread is not past its k-th call. */
  lemma AdvanceDecreases(n: nat, k: nat, s: State, i: nat, s': State)
    requires |s.ts| == n && Advance(n, s, i, s') && s.ts[i].calls < k
    ensures Measure(n, k, s') < Measure(n, k, s)
  {
    var t, t' := s.ts[i], s'.ts[i];
    assert s'.ts == s.ts[i := t'];
    SumUpdate(s.ts, i, t', ToDo(k));
    if (t.pc.CasUp? && t.pc.up != s.up) || (t.pc.CasDown? && t.pc.down != s.down) {
      CountUpdate(s.ts, i, t', Stale(s.up, s.down));
    } else {
      assert ToDo(k)(t') < ToDo(k)(t);
      MeasureArithmetic(n, Sum(s'.ts, ToDo(k)), Sum(s.ts, ToDo(k)), Count(s'.ts, Stale(s'.up, s'.down)),
          Count(s.ts, Stale(s.up, s.down)));
    }
  }

  /** No spin increases it. */
  lemma SpinKeeps(n: nat, k: nat, s: State, i: nat, s': State)
    requires |s.ts| == n && Spin(n, s, i, s')
    ensures Measure(n, k, s') <= Measure(n, k, s)
  {
    if s' != s {
      var t' := s'.ts[i];
      assert s'.ts == s.ts[i := t'];
      SumUpdate(s.ts, i, t', ToDo(k));
      CountUpdate(s.ts, i, t', Stale(s.up, s.down));
    }
  }

  ghost predicate CanAdvance(n: nat, s: State, i: nat) { exists s' :: Advance(n, s, i, s') }

  /** When does thread i have an advance? */
  lemma Enabled(n: nat, s: State, i: nat)
    requires i < |s.ts|
    ensures CanAdvance(n, s, i) <==>
      match s.ts[i].pc
      case WaitUp => s.up == 0
      case WaitDown => s.down != n
      case WaitReset => s.down == n
      case _ => true
  {
    match s.ts[i].pc
    case Outside => assert Advance(n, s, i, if n > 1 then Go(s, i, CasUp(s.up)) else Return(s, i));
    case CasUp(v) =>
      assert Advance(n, s, i, if v == s.up then Go(s.(up := v + 1), i, if v == n - 1 then ResetUp else WaitUp)
          else Go(s, i, CasUp(s.up)));
    case ResetUp => assert Advance(n, s, i, Go(s.(up := 0), i, LoadDown));
    case WaitUp => if s.up == 0 { assert Advance(n, s, i, Go(s, i, WaitDown)); }
    case WaitDown => if s.down != n { assert Advance(n, s, i, Go(s, i, LoadDown)); }
    case LoadDown => assert Advance(n, s, i, Go(s, i, CasDown(s.down)));
    case CasDown(v) =>
      assert Advance(n, s, i, if v == s.down then Go(s.(down := v - 1), i, if v == 1 then ResetDown else WaitReset)
          else Go(s, i, CasDown(s.down)));
    case ResetDown => assert Advance(n, s, i, Return(s.(down := n), i));
    case WaitReset => if s.down == n { assert Advance(n, s, i, Return(s, i)); }
  }

  /** A thread that can advance without beginning more than its k-th call, if not all have
      made k calls. */
  lemma SomeAdvance(n: nat, k: nat, s: State, r: nat) returns (i: nat)
    requires 1 < n && InvAt(n, s, r) && (forall j :: 0 <= j < n ==> Entered(s.ts[j]) <= k)
    requires exists j :: 0 <= j < n && s.ts[j].calls < k
    ensures i < n && s.ts[i].calls < k && CanAdvance(n, s, i)
  {
    if Gather(n, s, r) {
      if j :| 0 <= j < n && (s.ts[j].pc.CasUp? || s.ts[j].pc.WaitReset?) {
        i := j;
      } else {
        i :| 0 <= i < n && !s.ts[i].pc.WaitUp?;
      }
    } else if Full(n, s, r) {
      i :| 0 <= i < n && s.ts[i].pc.ResetUp?;
    } else if Drain(n, s, r) {
      if s.down == n {
        i :| 0 <= i < n && (s.ts[i].pc.LoadDown? || s.ts[i].pc.CasDown?);
      } else {
        CountAll(s.ts, Left());
        i :| 0 <= i < n && !s.ts[i].pc.WaitReset?;
      }
    } else {
      i :| 0 <= i < n && s.ts[i].pc.ResetDown?;
    }
    Enabled(n, s, i);
  }

  /** The same in every reachable state, also of a single thread. */
  lemma RunAdvance(n: nat, k: nat, run: seq<State>, m: nat) returns (i: nat)
    requires IsRun(n, run) && m < |run|
    requires forall j :: 0 <= j < |run[m].ts| ==> Entered(run[m].ts[j]) <= k
    requires exists j :: 0 <= j < |run[m].ts| && run[m].ts[j].calls < k
    ensures |run[m].ts| == n && i < n && run[m].ts[i].calls < k && CanAdvance(n, run[m], i)
  {
    if n > 1 {
      var r := RunInv(n, run, m);
      i := SomeAdvance(n, k, run[m], r);
    } else {
      i := SoloAdvance(n, k, run, m);
    }
  }

  lemma SoloAdvance(n: nat, k: nat, run: seq<State>, m: nat) returns (i: nat)
    requires n <= 1 && IsRun(n, run) && m < |run|
    requires exists j :: 0 <= j < |run[m].ts| && run[m].ts[j].calls < k
    ensures |run[m].ts| == n && i < n && run[m].ts[i].calls < k && CanAdvance(n, run[m], i)
  {
    SoloInv(n, run, m);
    i := 0;
    Enabled(n, run[m], i);
  }

  /** An advance begins at most one call, and only a thread outside begins one. */
  lemma AdvanceEnters(n: nat, k: nat, s: State, i: nat, s': State)
    requires Advance(n, s, i, s') && s.ts[i].calls < k
    requires forall j :: 0 <= j < |s.ts| ==> Entered(s.ts[j]) <= k
    ensures forall j :: 0 <= j < |s'.ts| ==> Entered(s'.ts[j]) <= k
  {
    forall j | 0 <= j < |s'.ts| ensures Entered(s'.ts[j]) <= k {
      assert j != i ==> s'.ts[j] == s.ts[j];
    }
  }

  /** Progress: if every thread makes k calls, then in every reachable state in which some
      thread has calls left, some thread can take a step that decreases the measure; no
      thread misses a reset it waits for.  Spinning never increases the measure. */
  lemma BarrierProgress(n: nat, k: nat, run: seq<State>, m: nat)
    requires IsRun(n, run) && m < |run|
    requires forall j :: 0 <= j < |run[m].ts| ==> Entered(run[m].ts[j]) <= k
    requires exists j :: 0 <= j < |run[m].ts| && run[m].ts[j].calls < k
    ensures exists i: nat, s' ::
      && Advance(n, run[m], i, s') && run[m].ts[i].calls < k && Measure(n, k, s') < Measure(n, k, run[m])
      && forall j :: 0 <= j < |s'.ts| ==> Entered(s'.ts[j]) <= k
  {
    var i := RunAdvance(n, k, run, m);
    var s' :| Advance(n, run[m], i, s');
    AdvanceDecreases(n, k, run[m], i, s');
    AdvanceEnters(n, k, run[m], i, s');
  }
}
