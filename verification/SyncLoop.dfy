/** Threads that repeat a body for a given time: `repeat_for` and its ordered broadcast.

    Every atomic access is one step, and memory is sequentially consistent.  The clock is
    arbitrary: thread 0 may broadcast any number. */
module SyncLoop {
  import opened Counting
  import opened Grid

  /** The arguments of one `repeat_for` call. */
  datatype Args = Args(seconds: real, least: nat, step: nat, most: nat)

  /** The increment, at least 1. */
  function Inc(a: Args): (d: nat)
    ensures d >= 1
  {
    if a.step < 1 then 1 else a.step
  }

  function Missing(a: Args, i: nat): nat { if i < a.least then a.least - i else 0 }

  // ----- what a thread does with the numbers it receives -----

  /** Where a thread next needs the elapsed time, or that all its calls have returned. */
  datatype Place = Asking(c: nat, i: nat, rets: seq<nat>) | Over(rets: seq<nat>)

  /** From the start of an iteration of call c after i executions of the body. */
  function Begin(jobs: seq<Args>, c: nat, i: nat, rets: seq<nat>): Place
    requires c <= |jobs|
    decreases |jobs| - c, if c < |jobs| then Missing(jobs[c], i) else 0
  {
    if c == |jobs| then Over(rets)
    else
      var i' := i + Inc(jobs[c]);
      if i' >= jobs[c].most then Begin(jobs, c + 1, 0, rets + [i'])
      else if i' < jobs[c].least then Begin(jobs, c, i', rets)
      else Asking(c, i', rets)
  }

  /** What an elapsed time of dt leads to. */
  function Answer(jobs: seq<Args>, p: Place, dt: real): Place
    requires p.Asking? ==> p.c < |jobs|
  {
    match p
    case Over(_) => p
    case Asking(c, i, rets) =>
      if dt < jobs[c].seconds then Begin(jobs, c, i, rets) else Begin(jobs, c + 1, 0, rets + [i])
  }

  lemma {:induction false} BeginInRange(jobs: seq<Args>, c: nat, i: nat, rets: seq<nat>)
    requires c <= |jobs|
    ensures Begin(jobs, c, i, rets).Asking? ==> Begin(jobs, c, i, rets).c < |jobs|
    decreases |jobs| - c, if c < |jobs| then Missing(jobs[c], i) else 0
  {
    if c < |jobs| {
      var i' := i + Inc(jobs[c]);
      if i' >= jobs[c].most {
        BeginInRange(jobs, c + 1, 0, rets + [i']);
      } else if i' < jobs[c].least {
        BeginInRange(jobs, c, i', rets);
      }
    }
  }

  lemma AnswerInRange(jobs: seq<Args>, p: Place, dt: real)
    requires p.Asking? ==> p.c < |jobs|
    ensures Answer(jobs, p, dt).Asking? ==> Answer(jobs, p, dt).c < |jobs|
  {
    if p.Asking? {
      BeginInRange(jobs, p.c, p.i, p.rets);
      BeginInRange(jobs, p.c + 1, 0, p.rets + [p.i]);
    }
  }

  /** Where a thread gets to with the elapsed times it has received. */
  function Replay(jobs: seq<Args>, dts: seq<real>): (p: Place)
    ensures p.Asking? ==> p.c < |jobs|
  {
    if dts == [] then
      BeginInRange(jobs, 0, 0, []);
      Begin(jobs, 0, 0, [])
    else
      var n := |dts| - 1;
      var p := Replay(jobs, dts[..n]);
      AnswerInRange(jobs, p, dts[n]);
      Answer(jobs, p, dts[n])
  }

  // ----- what the returned numbers are -----

  /** All executions of the body that calls with these results have made. */
  function Executions(rets: seq<nat>): nat { Sum(rets, (v: nat) => v) }

  /** v is a possible result of call a: a positive multiple of the increment, not below the
      minimum unless the maximum was reached, and not one increment too many. */
  ghost predicate Proper(a: Args, v: nat) {
    && v > 0 && v % Inc(a) == 0 && (v >= a.least || v >= a.most)
    && (v == Inc(a) || v - Inc(a) < a.most)
  }

  ghost predicate Returned(jobs: seq<Args>, c: nat, rets: seq<nat>) {
    |rets| == c <= |jobs| && forall k :: 0 <= k < c ==> Proper(jobs[k], rets[k])
  }

  /** i is a number of executions after some iterations of call a that have not ended it. */
  ghost predicate Underway(a: Args, i: nat) { i % Inc(a) == 0 && (i == 0 || i < a.most) }

  ghost predicate ProperPlace(jobs: seq<Args>, p: Place) {
    match p
    case Over(rets) => Returned(jobs, |jobs|, rets)
    case Asking(c, i, rets) =>
      c < |jobs| && Returned(jobs, c, rets) && i > 0 && Underway(jobs[c], i) && i >= jobs[c].least
  }

  lemma MultipleAfter(i: nat, d: nat)
    requires d > 0 && i % d == 0
    ensures (i + d) % d == 0
  {
    DivModOf(0, d, i / d + 1);
  }

  lemma {:induction false} BeginIsProper(jobs: seq<Args>, c: nat, i: nat, rets: seq<nat>)
    requires c <= |jobs| && Returned(jobs, c, rets) && (c < |jobs| ==> Underway(jobs[c], i))
    ensures ProperPlace(jobs, Begin(jobs, c, i, rets))
    decreases |jobs| - c, if c < |jobs| then Missing(jobs[c], i) else 0
  {
    if c < |jobs| {
      var i' := i + Inc(jobs[c]);
      MultipleAfter(i, Inc(jobs[c]));
      if i' >= jobs[c].most {
        assert Returned(jobs, c + 1, rets + [i']);
        BeginIsProper(jobs, c + 1, 0, rets + [i']);
      } else if i' < jobs[c].least {
        BeginIsProper(jobs, c, i', rets);
      }
    }
  }

  lemma {:induction false} ReplayIsProper(jobs: seq<Args>, dts: seq<real>)
    ensures ProperPlace(jobs, Replay(jobs, dts))
  {
    if dts == [] {
      BeginIsProper(jobs, 0, 0, []);
    } else {
      var p := Replay(jobs, dts[..|dts| - 1]);
      ReplayIsProper(jobs, dts[..|dts| - 1]);
      if p.Asking? {
        BeginIsProper(jobs, p.c, p.i, p.rets);
        assert Returned(jobs, p.c + 1, p.rets + [p.i]);
        BeginIsProper(jobs, p.c + 1, 0, p.rets + [p.i]);
      }
    }
  }

  // ----- threads -----

  datatype Pc =
    | Body | Ask | CasUp | ResetUp | WaitUp | Read
    | LoadDown | CasDown(down: int) | ResetDown | WaitReset | Done

  /** c: current call; i: executions in it; rets: what earlier calls returned; runs: all
      executions of the body; seen: the elapsed times received. */
  datatype Thread = Thread(pc: Pc, c: nat, i: nat, rets: seq<nat>, runs: nat, seen: seq<real>)

  /** vals: all that thread 0 has stored into the shared `dt`. */
  datatype State = State(up: int, down: int, dt: real, vals: seq<real>, ts: seq<Thread>)

  ghost predicate Init(jobs: seq<Args>, n: nat, s: State) {
    && s.up == 0 && s.down == n && s.vals == [] && |s.ts| == n
    && forall i :: 0 <= i < n ==> s.ts[i] == Thread(if jobs == [] then Done else Body, 0, 0, [], 0, [])
  }

  /** The call ends with result v; the next one starts. */
  function Finish(jobs: seq<Args>, t: Thread, v: nat): Thread {
    t.(pc := if t.c + 1 < |jobs| then Body else Done, c := t.c + 1, i := 0, rets := t.rets + [v])
  }

  /** One iteration of the body, up to the test that may need the elapsed time. */
  function Iterate(jobs: seq<Args>, t: Thread): Thread
    requires t.c < |jobs|
  {
    var a := jobs[t.c];
    var t' := t.(i := t.i + Inc(a), runs := t.runs + Inc(a));
    if t'.i >= a.most then Finish(jobs, t', t'.i)
    else if t'.i < a.least then t'
    else t'.(pc := Ask)
  }

  /** The broadcast returns the last number read. */
  function Resume(jobs: seq<Args>, t: Thread): Thread
    requires t.c < |jobs| && t.seen != []
  {
    if t.seen[|t.seen| - 1] < jobs[t.c].seconds then t.(pc := Body) else Finish(jobs, t, t.i)
  }

  function Set(s: State, k: nat, t: Thread): State
    requires k < |s.ts|
  {
    s.(ts := s.ts[k := t])
  }

  /** Thread k gets further.  When thread 0 asks, its clock has read x. */
  ghost predicate Advance(jobs: seq<Args>, n: nat, s: State, k: nat, x: real, s': State) {
    && k < |s.ts|
    && var t := s.ts[k];
       match t.pc
       case Body => t.c < |jobs| && s' == Set(s, k, Iterate(jobs, t))
       case Ask => s' == Set(if k == 0 then s.(dt := x, vals := s.vals + [x]) else s, k, t.(pc := CasUp))
       case CasUp => s.up == k && s' == Set(s.(up := k + 1), k, t.(pc := if k == n - 1 then ResetUp else WaitUp))
       case ResetUp => s' == Set(s.(up := 0), k, t.(pc := Read))
       case WaitUp => s.up == 0 && s' == Set(s, k, t.(pc := Read))
       case Read => s' == Set(s, k, t.(pc := LoadDown, seen := t.seen + [s.dt]))
       case LoadDown => s' == Set(s, k, t.(pc := CasDown(s.down)))
       case CasDown(v) =>
         if v == s.down then s' == Set(s.(down := v - 1), k, t.(pc := if v == 1 then ResetDown else WaitReset))
         else s' == Set(s, k, t.(pc := CasDown(s.down)))
       case ResetDown => t.c < |jobs| && t.seen != [] && s' == Set(s.(down := n), k, Resume(jobs, t))
       case WaitReset => s.down == n && t.c < |jobs| && t.seen != [] && s' == Set(s, k, Resume(jobs, t))
       case Done => false
  }

  /** Thread k spins, or its weak exchange fails. */
  ghost predicate Spin(n: nat, s: State, k: nat, s': State) {
    && k < |s.ts|
    && match s.ts[k].pc
       case CasUp => s' == s
       case WaitUp => s.up != 0 && s' == s
       case CasDown(v) => s' == Set(s, k, s.ts[k].(pc := CasDown(s.down)))
       case WaitReset => s.down != n && s' == s
       case _ => false
  }

  ghost predicate Step(jobs: seq<Args>, n: nat, s: State, s': State) {
    (exists k: nat, x: real :: Advance(jobs, n, s, k, x, s')) || exists k: nat :: Spin(n, s, k, s')
  }

  ghost predicate IsRun(jobs: seq<Args>, n: nat, run: seq<State>) {
    && |run| > 0 && Init(jobs, n, run[0])
    && forall m :: 0 <= m < |run| - 1 ==> Step(jobs, n, run[m], run[m + 1])
  }

  // ----- what each thread keeps -----

  /** Thread t is where the elapsed times it has received lead it: now is the place they lead
      to, before the place all but the last lead to. */
  ghost predicate Agrees(jobs: seq<Args>, t: Thread, before: Place, now: Place) {
    && t.runs == Executions(t.rets) + t.i
    && match t.pc
       case Body => t.c < |jobs| && now == Begin(jobs, t.c, t.i, t.rets)
       case Done => now == Over(t.rets) && t.i == 0
       case LoadDown | CasDown(_) | ResetDown | WaitReset =>
         t.c < |jobs| && t.seen != [] && before == Asking(t.c, t.i, t.rets)
             && now == Answer(jobs, before, t.seen[|t.seen| - 1])
       case _ => t.c < |jobs| && now == Asking(t.c, t.i, t.rets)
  }

  function Before(dts: seq<real>): seq<real> { if dts == [] then [] else dts[..|dts| - 1] }

  ghost predicate OnTrack(jobs: seq<Args>, t: Thread) {
    Agrees(jobs, t, Replay(jobs, Before(t.seen)), Replay(jobs, t.seen))
  }

  lemma FinishAgrees(jobs: seq<Args>, t: Thread, v: nat, before: Place, now: Place)
    requires t.c < |jobs| && t.runs == Executions(t.rets) + v
    requires now == Begin(jobs, t.c + 1, 0, t.rets + [v])
    ensures Agrees(jobs, Finish(jobs, t, v), before, now)
  {
    assert (t.rets + [v])[..|t.rets|] == t.rets;
    assert Executions(t.rets + [v]) == Executions(t.rets) + v;
  }

  /** One iteration follows one unfolding of `Begin`. */
  lemma BeginUnfolds(jobs: seq<Args>, c: nat, i: nat, rets: seq<nat>, i': nat, now: Place)
    requires c < |jobs| && now == Begin(jobs, c, i, rets) && i' == i + Inc(jobs[c])
    ensures i' >= jobs[c].most ==> now == Begin(jobs, c + 1, 0, rets + [i'])
    ensures i' < jobs[c].most && i' < jobs[c].least ==> now == Begin(jobs, c, i', rets)
    ensures jobs[c].least <= i' < jobs[c].most ==> now == Asking(c, i', rets)
  {
  }

  lemma IterateEnds(jobs: seq<Args>, t: Thread, i': nat, before: Place, now: Place)
    requires t.c < |jobs| && t.runs == Executions(t.rets) + t.i && i' == t.i + Inc(jobs[t.c]) >= jobs[t.c].most
    requires now == Begin(jobs, t.c + 1, 0, t.rets + [i'])
    ensures Agrees(jobs, Iterate(jobs, t), before, now)
  {
    FinishAgrees(jobs, t.(i := i', runs := t.runs + Inc(jobs[t.c])), i', before, now);
  }

  lemma IterateAgain(jobs: seq<Args>, t: Thread, i': nat, before: Place, now: Place)
    requires t.pc.Body? && t.c < |jobs| && t.runs == Executions(t.rets) + t.i && i' == t.i + Inc(jobs[t.c])
    requires i' < jobs[t.c].most && i' < jobs[t.c].least && now == Begin(jobs, t.c, i', t.rets)
    ensures Agrees(jobs, Iterate(jobs, t), before, now)
  {
  }

  lemma IterateAsks(jobs: seq<Args>, t: Thread, i': nat, before: Place, now: Place)
    requires t.c < |jobs| && t.runs == Executions(t.rets) + t.i && i' == t.i + Inc(jobs[t.c])
    requires jobs[t.c].least <= i' < jobs[t.c].most && now == Asking(t.c, i', t.rets)
    ensures Agrees(jobs, Iterate(jobs, t), before, now)
  {
  }

  lemma IterateAgrees(jobs: seq<Args>, t: Thread, before: Place, now: Place)
    requires t.pc.Body? && Agrees(jobs, t, before, now)
    ensures Agrees(jobs, Iterate(jobs, t), before, now)
  {
    var i' := t.i + Inc(jobs[t.c]);
    BeginUnfolds(jobs, t.c, t.i, t.rets, i', now);
    if i' >= jobs[t.c].most {
      IterateEnds(jobs, t, i', before, now);
    } else if i' < jobs[t.c].least {
      IterateAgain(jobs, t, i', before, now);
    } else {
      IterateAsks(jobs, t, i', before, now);
    }
  }

  lemma ResumeAgrees(jobs: seq<Args>, t: Thread, before: Place, now: Place)
    requires (t.pc.ResetDown? || t.pc.WaitReset?) && Agrees(jobs, t, before, now)
    ensures Agrees(jobs, Resume(jobs, t), before, now)
  {
    if !(t.seen[|t.seen| - 1] < jobs[t.c].seconds) {
      FinishAgrees(jobs, t, t.i, before, now);
    }
  }

  lemma ReadAgrees(jobs: seq<Args>, t: Thread, dt: real)
    requires t.pc.Read? && OnTrack(jobs, t)
    ensures OnTrack(jobs, t.(pc := LoadDown, seen := t.seen + [dt]))
  {
    var seen := t.seen + [dt];
    assert seen[..|t.seen|] == t.seen && Before(seen) == t.seen;
    assert Replay(jobs, seen) == Answer(jobs, Replay(jobs, t.seen), dt);
  }

  lemma AdvanceOnTrack(jobs: seq<Args>, n: nat, s: State, k: nat, x: real, s': State)
    requires Advance(jobs, n, s, k, x, s') && OnTrack(jobs, s.ts[k])
    ensures OnTrack(jobs, s'.ts[k])
  {
    var t := s.ts[k];
    if t.pc.Read? {
      ReadAgrees(jobs, t, s.dt);
    } else {
      var before, now := Replay(jobs, Before(t.seen)), Replay(jobs, t.seen);
      if t.pc.Body? {
        IterateAgrees(jobs, t, before, now);
      } else if t.pc.ResetDown? || t.pc.WaitReset? {
        ResumeAgrees(jobs, t, before, now);
      }
    }
  }

  // ----- the phases of a round -----

  function Left(): Thread -> bool { (t: Thread) => t.pc.WaitReset? }

  /** Thread 0 has stored the number of the round being gathered. */
  predicate Stored(pc: Pc) { pc.CasUp? || pc.WaitUp? }

  predicate Early(pc: Pc) { pc.Body? || pc.Ask? || pc.CasUp? || pc.WaitReset? || pc.Done? }

  predicate Late(pc: Pc) { pc.LoadDown? || pc.CasDown? || pc.WaitReset? }

  /** All threads have received r numbers; the first `up` threads have arrived for the next. */
  ghost predicate Gather(n: nat, s: State, r: nat) {
    && 0 <= s.up < n == |s.ts| && s.down == n
    && (forall k :: 0 <= k < |s.ts| ==>
        |s.ts[k].seen| == r && if k < s.up then s.ts[k].pc.WaitUp? else Early(s.ts[k].pc))
    && if Stored(s.ts[0].pc) then |s.vals| == r + 1 && s.vals[r] == s.dt else |s.vals| == r
  }

  /** All have arrived; the last is about to reset the up counter. */
  ghost predicate Full(n: nat, s: State, r: nat) {
    && s.up == n && s.down == n && |s.vals| == r + 1 && s.vals[r] == s.dt
    && forall k :: 0 <= k < |s.ts| ==>
        |s.ts[k].seen| == r && if k < n - 1 then s.ts[k].pc.WaitUp? else s.ts[k].pc.ResetUp?
  }

  /** The threads read the number and count down. */
  ghost predicate Drain(n: nat, s: State, r: nat) {
    && s.up == 0 && 1 <= s.down <= n && n - s.down == Count(s.ts, Left())
    && |s.vals| == r + 1 && s.vals[r] == s.dt
    && forall k :: 0 <= k < |s.ts| ==>
         var t := s.ts[k];
         if Late(t.pc) then |t.seen| == r + 1 else |t.seen| == r && (t.pc.WaitUp? || t.pc.Read?)
  }

  /** All have counted down; thread e is about to reset the down counter. */
  ghost predicate Empty(n: nat, s: State, r: nat, e: nat) {
    && s.up == 0 && s.down == 0 && |s.vals| == r + 1 && e < |s.ts|
    && forall k :: 0 <= k < |s.ts| ==>
        |s.ts[k].seen| == r + 1 && if k == e then s.ts[k].pc.ResetDown? else s.ts[k].pc.WaitReset?
  }

  ghost predicate PhaseAt(n: nat, s: State, r: nat) {
    Gather(n, s, r) || Full(n, s, r) || Drain(n, s, r) || exists e :: Empty(n, s, r, e)
  }

  /** Every thread is on track and has received the first numbers that thread 0 stored. */
  ghost predicate Local(jobs: seq<Args>, s: State) {
    forall k :: 0 <= k < |s.ts| ==> OnTrack(jobs, s.ts[k]) && s.ts[k].seen <= s.vals
  }

  ghost predicate InvAt(jobs: seq<Args>, n: nat, s: State, r: nat) {
    |s.ts| == n && n > 0 && PhaseAt(n, s, r) && Local(jobs, s)
  }

  lemma InitInv(jobs: seq<Args>, n: nat, s: State)
    requires n > 0 && Init(jobs, n, s)
    ensures InvAt(jobs, n, s, 0)
  {
    assert Gather(n, s, 0);
  }

  lemma GatherStep(jobs: seq<Args>, n: nat, s: State, k: nat, x: real, s': State, r: nat)
    requires |s.ts| == n && Gather(n, s, r) && Advance(jobs, n, s, k, x, s')
    ensures PhaseAt(n, s', r)
  {
    if s'.up == n {
      assert Full(n, s', r);
    } else {
      assert Gather(n, s', r);
    }
  }

  lemma FullStep(jobs: seq<Args>, n: nat, s: State, k: nat, x: real, s': State, r: nat)
    requires |s.ts| == n && n > 0 && Full(n, s, r) && Advance(jobs, n, s, k, x, s')
    ensures PhaseAt(n, s', r)
  {
    CountAll(s'.ts, Left());
    assert Drain(n, s', r);
  }

  /** Thread k moves without counting down. */
  lemma DrainMove(n: nat, s: State, k: nat, t: Thread, r: nat)
    requires |s.ts| == n && Drain(n, s, r) && k < n
    requires !s.ts[k].pc.WaitReset? && (if Late(t.pc) then |t.seen| == r + 1 else |t.seen| == r && t.pc.Read?)
        && !t.pc.WaitReset?
    ensures PhaseAt(n, Set(s, k, t), r)
  {
    CountUpdate(s.ts, k, t, Left());
    assert Drain(n, Set(s, k, t), r);
  }

  /** Thread k counts down. */
  lemma DrainLeave(n: nat, s: State, k: nat, s': State, r: nat)
    requires |s.ts| == n && Drain(n, s, r) && k < n && s.ts[k].pc == CasDown(s.down)
    requires s' == Set(s.(down := s.down - 1), k, s.ts[k].(pc := if s.down == 1 then ResetDown else WaitReset))
    ensures PhaseAt(n, s', r)
  {
    var t := s.ts[k].(pc := WaitReset);
    CountUpdate(s.ts, k, t, Left());
    if s.down == 1 {
      AllOthers(s.ts, k, t, Left());
      assert Empty(n, s', r, k);
    } else {
      assert Drain(n, s', r);
    }
  }

  lemma DrainStep(jobs: seq<Args>, n: nat, s: State, k: nat, x: real, s': State, r: nat)
    requires |s.ts| == n && Drain(n, s, r) && Advance(jobs, n, s, k, x, s')
    ensures PhaseAt(n, s', r)
  {
    CountAll(s.ts, Left());
    if s'.down != s.down {
      DrainLeave(n, s, k, s', r);
    } else {
      DrainMove(n, s, k, s'.ts[k], r);
    }
  }

  lemma EmptyStep(jobs: seq<Args>, n: nat, s: State, k: nat, x: real, s': State, r: nat, e: nat)
    requires |s.ts| == n && n > 0 && Empty(n, s, r, e) && Advance(jobs, n, s, k, x, s')
    ensures PhaseAt(n, s', r + 1)
  {
    assert Gather(n, s', r + 1);
  }

  lemma AdvancePhase(jobs: seq<Args>, n: nat, s: State, k: nat, x: real, s': State, r: nat) returns (r': nat)
    requires |s.ts| == n && n > 0 && PhaseAt(n, s, r) && Advance(jobs, n, s, k, x, s')
    ensures PhaseAt(n, s', r')
  {
    r' := r;
    if Gather(n, s, r) {
      GatherStep(jobs, n, s, k, x, s', r);
    } else if Full(n, s, r) {
      FullStep(jobs, n, s, k, x, s', r);
    } else if Drain(n, s, r) {
      DrainStep(jobs, n, s, k, x, s', r);
    } else {
      var e :| Empty(n, s, r, e);
      EmptyStep(jobs, n, s, k, x, s', r, e);
      r' := r + 1;
    }
  }

  /** The number a thread reads is the one of its round. */
  lemma ReadsTheRound(jobs: seq<Args>, n: nat, s: State, k: nat, x: real, s': State, r: nat)
    requires |s.ts| == n && n > 0 && PhaseAt(n, s, r) && Advance(jobs, n, s, k, x, s') && s.ts[k].seen <= s.vals
    ensures s'.ts[k].seen <= s'.vals && s.vals <= s'.vals
  {
    var t := s.ts[k];
    if t.pc.Read? {
      assert Drain(n, s, r);
      assert s'.ts[k].seen == s.vals[..r] + [s.vals[r]] == s.vals;
    }
  }

  lemma AdvanceInv(jobs: seq<Args>, n: nat, s: State, k: nat, x: real, s': State, r: nat) returns (r': nat)
    requires InvAt(jobs, n, s, r) && Advance(jobs, n, s, k, x, s')
    ensures InvAt(jobs, n, s', r')
  {
    r' := AdvancePhase(jobs, n, s, k, x, s', r);
    var track := (t: Thread) => OnTrack(jobs, t);
    AdvanceOnTrack(jobs, n, s, k, x, s');
    ReadsTheRound(jobs, n, s, k, x, s', r);
    OthersKeep(s, k, s', track);
  }

  /** The other threads do not change. */
  lemma OthersKeep(s: State, k: nat, s': State, track: Thread -> bool)
    requires k < |s.ts| && |s'.ts| == |s.ts| && s'.ts == s.ts[k := s'.ts[k]] && s.vals <= s'.vals
    requires forall j :: 0 <= j < |s.ts| ==> track(s.ts[j]) && s.ts[j].seen <= s.vals
    requires track(s'.ts[k]) && s'.ts[k].seen <= s'.vals
    ensures forall j :: 0 <= j < |s'.ts| ==> track(s'.ts[j]) && s'.ts[j].seen <= s'.vals
  {
    forall j | 0 <= j < |s'.ts| ensures track(s'.ts[j]) && s'.ts[j].seen <= s'.vals {
      if j != k {
        assert s'.ts[j] == s.ts[j];
      }
    }
  }

  lemma SpinOrStutter(jobs: seq<Args>, n: nat, s: State, k: nat, s': State)
    requires Spin(n, s, k, s')
    ensures s' == s || Advance(jobs, n, s, k, 0.0, s')
  {
    if s.ts[k].pc == CasDown(s.down) {
      assert s'.ts == s.ts;
    }
  }

  lemma {:induction false} RunInv(jobs: seq<Args>, n: nat, run: seq<State>, m: nat) returns (r: nat)
    requires n > 0 && IsRun(jobs, n, run) && m < |run|
    ensures InvAt(jobs, n, run[m], r)
  {
    if m == 0 {
      InitInv(jobs, n, run[0]);
      r := 0;
    } else {
      r := RunInv(jobs, n, run, m - 1);
      var s, s' := run[m - 1], run[m];
      assert Step(jobs, n, run[m - 1], run[m - 1 + 1]);
      if k: nat, x: real :| Advance(jobs, n, s, k, x, s') {
        r := AdvanceInv(jobs, n, s, k, x, s', r);
      } else {
        var k: nat :| Spin(n, s, k, s');
        SpinOrStutter(jobs, n, s, k, s');
        if s' != s {
          r := AdvanceInv(jobs, n, s, k, 0.0, s', r);
        }
      }
    }
  }

  // ----- agreement -----

  /** Broadcast agreement: the q-th number any thread receives is the q-th that thread 0
      stored, in every interleaving; and thread 0 stores its next number only when all
      threads have received all earlier ones. */
  lemma BroadcastAgreement(jobs: seq<Args>, n: nat, run: seq<State>, m: nat, k: nat)
    requires IsRun(jobs, n, run) && m < |run| && k < n
    ensures |run[m].ts| == n && run[m].ts[k].seen <= run[m].vals
    ensures run[m].ts[0].pc.Ask? ==> run[m].ts[k].seen == run[m].vals
    ensures |run[m].vals| <= |run[m].ts[k].seen| + 1
  {
    var r := RunInv(jobs, n, run, m);
  }

  lemma {:induction false} OverStays(jobs: seq<Args>, dts: seq<real>, more: seq<real>)
    requires dts <= more && Replay(jobs, dts).Over?
    ensures Replay(jobs, more) == Replay(jobs, dts)
  {
    if |more| > |dts| {
      OverStays(jobs, dts, more[..|more| - 1]);
    } else {
      assert more == dts;
    }
  }

  /** A thread that is done has returned a proper number from each call, has executed the body
      as often as these numbers say, and they follow from what thread 0 has stored. */
  lemma DoneResults(jobs: seq<Args>, n: nat, run: seq<State>, m: nat, k: nat)
    requires IsRun(jobs, n, run) && m < |run| && k < n
    ensures |run[m].ts| == n
    ensures run[m].ts[k].pc.Done? ==>
      && Replay(jobs, run[m].vals) == Over(run[m].ts[k].rets)
      && Returned(jobs, |jobs|, run[m].ts[k].rets)
      && run[m].ts[k].runs == Executions(run[m].ts[k].rets)
  {
    var r := RunInv(jobs, n, run, m);
    var t := run[m].ts[k];
    assert OnTrack(jobs, t);
    if t.pc.Done? {
      ReplayIsProper(jobs, t.seen);
      OverStays(jobs, t.seen, run[m].vals);
    }
  }

  /** Loop agreement: threads that have finished the same calls have returned the same
      numbers and have executed the body equally often, whatever their clocks; also threads
      of different ranks, since the ranks' threads 0 store the same numbers (they obtain
      them by MPI_Bcast). */
  lemma LoopAgreement(jobs: seq<Args>, n: nat, run: seq<State>, m: nat, k: nat,
                      n': nat, run': seq<State>, m': nat, k': nat)
    requires IsRun(jobs, n, run) && m < |run| && k < n
    requires IsRun(jobs, n', run') && m' < |run'| && k' < n'
    requires run[m].vals <= run'[m'].vals || run'[m'].vals <= run[m].vals
    requires |run[m].ts| == n && |run'[m'].ts| == n' && run[m].ts[k].pc.Done? && run'[m'].ts[k'].pc.Done?
    ensures run[m].ts[k].rets == run'[m'].ts[k'].rets
    ensures run[m].ts[k].runs == run'[m'].ts[k'].runs
    ensures Returned(jobs, |jobs|, run[m].ts[k].rets)
  {
    DoneResults(jobs, n, run, m, k);
    DoneResults(jobs, n', run', m', k');
    if run[m].vals <= run'[m'].vals {
      OverStays(jobs, run[m].vals, run'[m'].vals);
    } else {
      OverStays(jobs, run'[m'].vals, run[m].vals);
    }
  }

  /** When all threads are done the counters are as at the start. */
  lemma CountersRestored(jobs: seq<Args>, n: nat, run: seq<State>, m: nat)
    requires n > 0 && IsRun(jobs, n, run) && m < |run|
    requires forall k :: 0 <= k < |run[m].ts| ==> run[m].ts[k].pc.Done?
    ensures run[m].up == 0 && run[m].down == n
  {
    var r := RunInv(jobs, n, run, m);
    assert run[m].ts[0].pc.Done?;
  }

  // ----- progress -----

  /** A bound on the iterations of call c and later calls. */
  function Future(jobs: seq<Args>, c: nat): nat
    decreases |jobs| - c
  {
    if c >= |jobs| then 0 else 1 + jobs[c].most + Future(jobs, c + 1)
  }

  function Remaining(jobs: seq<Args>, c: nat, i: nat): nat {
    if c >= |jobs| then 0 else Future(jobs, c) - if i < jobs[c].most then i else jobs[c].most
  }

  function Rank(pc: Pc): nat {
    match pc
    case Ask => 10
    case CasUp => 9
    case ResetUp => 8
    case WaitUp => 7
    case Read => 6
    case LoadDown => 5
    case CasDown(_) => 4
    case ResetDown => 3
    case WaitReset => 2
    case _ => 0
  }

  function ToDo(jobs: seq<Args>): Thread -> nat {
    (t: Thread) => 11 * Remaining(jobs, t.c, t.i) + Rank(t.pc)
  }

  function Stale(down: int): Thread -> bool { (t: Thread) => t.pc.CasDown? && t.pc.down != down }

  function Measure(jobs: seq<Args>, n: nat, s: State): nat {
    (n + 1) * Sum(s.ts, ToDo(jobs)) + Count(s.ts, Stale(s.down))
  }

  /** Thread k has less to do, or an old value less to exchange. */
  lemma LessToDo(jobs: seq<Args>, n: nat, s: State, k: nat, x: real, s': State)
    requires Advance(jobs, n, s, k, x, s') && !(s.ts[k].pc.CasDown? && s.ts[k].pc.down != s.down)
    ensures ToDo(jobs)(s'.ts[k]) < ToDo(jobs)(s.ts[k])
  {
    var t, t' := s.ts[k], s'.ts[k];
    if t.pc.Body? || t.pc.ResetDown? || t.pc.WaitReset? {
      assert t'.pc.Body? || t'.pc.Done? || t'.pc.Ask?;
      assert Future(jobs, t.c) == 1 + jobs[t.c].most + Future(jobs, t.c + 1);
    } else {
      assert t'.c == t.c && t'.i == t.i;
    }
  }

  lemma AdvanceDecreases(jobs: seq<Args>, n: nat, s: State, k: nat, x: real, s': State)
    requires |s.ts| == n && Advance(jobs, n, s, k, x, s')
    ensures Measure(jobs, n, s') < Measure(jobs, n, s)
  {
    var t, t' := s.ts[k], s'.ts[k];
    assert s'.ts == s.ts[k := t'];
    SumUpdate(s.ts, k, t', ToDo(jobs));
    if t.pc.CasDown? && t.pc.down != s.down {
      CountUpdate(s.ts, k, t', Stale(s.down));
    } else {
      LessToDo(jobs, n, s, k, x, s');
      MeasureArithmetic(n, Sum(s'.ts, ToDo(jobs)), Sum(s.ts, ToDo(jobs)), Count(s'.ts, Stale(s'.down)),
          Count(s.ts, Stale(s.down)));
    }
  }

  lemma SpinKeeps(jobs: seq<Args>, n: nat, s: State, k: nat, s': State)
    requires |s.ts| == n && Spin(n, s, k, s')
    ensures Measure(jobs, n, s') <= Measure(jobs, n, s)
  {
    SpinOrStutter(jobs, n, s, k, s');
    if s' != s {
      AdvanceDecreases(jobs, n, s, k, 0.0, s');
    }
  }

  ghost predicate CanAdvance(jobs: seq<Args>, n: nat, s: State, k: nat) {
    exists x, s' :: Advance(jobs, n, s, k, x, s')
  }

  lemma Enabled(jobs: seq<Args>, n: nat, s: State, k: nat)
    requires k < |s.ts| && OnTrack(jobs, s.ts[k])
    requires match s.ts[k].pc
      case CasUp => s.up == k
      case WaitUp => s.up == 0
      case WaitReset => s.down == n
      case Done => false
      case _ => true
    ensures CanAdvance(jobs, n, s, k)
  {
    var t := s.ts[k];
    var s' := match t.pc
      case Body => Set(s, k, Iterate(jobs, t))
      case Ask => Set(if k == 0 then s.(dt := 0.0, vals := s.vals + [0.0]) else s, k, t.(pc := CasUp))
      case CasUp => Set(s.(up := k + 1), k, t.(pc := if k == n - 1 then ResetUp else WaitUp))
      case ResetUp => Set(s.(up := 0), k, t.(pc := Read))
      case WaitUp => Set(s, k, t.(pc := Read))
      case Read => Set(s, k, t.(pc := LoadDown, seen := t.seen + [s.dt]))
      case LoadDown => Set(s, k, t.(pc := CasDown(s.down)))
      case CasDown(v) =>
        if v == s.down then Set(s.(down := v - 1), k, t.(pc := if v == 1 then ResetDown else WaitReset))
        else Set(s, k, t.(pc := CasDown(s.down)))
      case ResetDown => Set(s.(down := n), k, Resume(jobs, t))
      case WaitReset => Set(s, k, Resume(jobs, t));
    assert Advance(jobs, n, s, k, 0.0, s');
  }

  /** While threads gather, a thread that is not done gets further or the next in order does. */
  lemma GatherEnabled(jobs: seq<Args>, n: nat, s: State, r: nat, j: nat) returns (k: nat)
    requires |s.ts| == n && Gather(n, s, r) && Local(jobs, s) && j < n && !s.ts[j].pc.Done?
    ensures k < n && CanAdvance(jobs, n, s, k)
  {
    k := s.up;
    assert OnTrack(jobs, s.ts[k]) && OnTrack(jobs, s.ts[j]);
    if s.ts[k].pc.Done? {
      assert s.ts[k].seen == s.vals[..r] == s.ts[j].seen;
      k := j;
    }
    Enabled(jobs, n, s, k);
  }

  lemma FullEnabled(jobs: seq<Args>, n: nat, s: State, r: nat)
    requires |s.ts| == n && n > 0 && Full(n, s, r) && OnTrack(jobs, s.ts[n - 1])
    ensures CanAdvance(jobs, n, s, n - 1)
  {
    Enabled(jobs, n, s, n - 1);
  }

  lemma StillDraining(n: nat, s: State, r: nat) returns (k: nat)
    requires |s.ts| == n && Drain(n, s, r)
    ensures k < n && !s.ts[k].pc.WaitReset?
  {
    CountAll(s.ts, Left());
    k :| 0 <= k < n && !s.ts[k].pc.WaitReset?;
  }

  lemma DrainEnabled(jobs: seq<Args>, n: nat, s: State, r: nat, k: nat)
    requires |s.ts| == n && Drain(n, s, r) && k < n && !s.ts[k].pc.WaitReset? && OnTrack(jobs, s.ts[k])
    ensures CanAdvance(jobs, n, s, k)
  {
    Enabled(jobs, n, s, k);
  }

  lemma EmptyEnabled(jobs: seq<Args>, n: nat, s: State, r: nat, e: nat)
    requires |s.ts| == n && Empty(n, s, r, e) && OnTrack(jobs, s.ts[e])
    ensures CanAdvance(jobs, n, s, e)
  {
    Enabled(jobs, n, s, e);
  }

  lemma SomeAdvance(jobs: seq<Args>, n: nat, s: State, r: nat, j: nat) returns (k: nat)
    requires InvAt(jobs, n, s, r) && j < n && !s.ts[j].pc.Done?
    ensures k < n && CanAdvance(jobs, n, s, k)
  {
    if Gather(n, s, r) {
      k := GatherEnabled(jobs, n, s, r, j);
    } else if Full(n, s, r) {
      k := n - 1;
      FullEnabled(jobs, n, s, r);
    } else if Drain(n, s, r) {
      k := StillDraining(n, s, r);
      DrainEnabled(jobs, n, s, r, k);
    } else {
      var e :| Empty(n, s, r, e);
      k := e;
      EmptyEnabled(jobs, n, s, r, e);
    }
  }

  /** Progress: in every reachable state in which some thread is not done, some thread can
      take a step that decreases the measure.  No thread misses the reset it spins on, and
      since no step increases the measure, `repeat_for` ends at the latest at the maximum. */
  lemma LoopProgress(jobs: seq<Args>, n: nat, run: seq<State>, m: nat, j: nat)
    requires IsRun(jobs, n, run) && m < |run| && j < n
    requires |run[m].ts| == n && !run[m].ts[j].pc.Done?
    ensures exists k: nat, x, s' ::
              Advance(jobs, n, run[m], k, x, s') && Measure(jobs, n, s') < Measure(jobs, n, run[m])
  {
    var r := RunInv(jobs, n, run, m);
    var k := SomeAdvance(jobs, n, run[m], r, j);
    var x, s' :| Advance(jobs, n, run[m], k, x, s');
    AdvanceDecreases(jobs, n, run[m], k, x, s');
  }
}
