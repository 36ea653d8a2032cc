/** The thread pool as its client sees it: what is asked for by calls is what the workers run. */
module PoolCalls {
  import opened ThreadPool

  /** Who takes a step. */
  datatype Act = ByClient(call: Call) | ByWorker(j: nat)

  ghost predicate StepBy(s: Pool, act: Act, s': Pool) {
    match act
    case ByClient(call) => ClientStep(s, call, s')
    case ByWorker(j) => WorkerStep(s, j, s')
  }

  ghost predicate ActAt(run: seq<Pool>, acts: seq<Act>, m: nat)
    requires m < |run| - 1 && m < |acts|
  {
    StepBy(run[m], acts[m], run[m + 1])
  }

  /** A run together with who took each step, and with which call. */
  ghost predicate IsTrace(n: nat, run: seq<Pool>, acts: seq<Act>) {
    && |run| == |acts| + 1 && Init(n, run[0])
    && forall m {:trigger ActAt(run, acts, m)} :: 0 <= m < |acts| ==> ActAt(run, acts, m)
  }

  lemma TraceIsRun(n: nat, run: seq<Pool>, acts: seq<Act>)
    requires IsTrace(n, run, acts)
    ensures IsRun(n, run)
  {
    forall m | 0 <= m < |run| - 1 ensures StepAt(run, m) {
      assert ActAt(run, acts, m);
    }
  }

  lemma SomeAct(s: Pool, s': Pool) returns (act: Act)
    requires Step(s, s')
    ensures StepBy(s, act, s')
  {
    if j: nat :| WorkerStep(s, j, s') {
      act := ByWorker(j);
    } else {
      var call :| ClientStep(s, call, s');
      act := ByClient(call);
    }
  }

  /** Every run is one of calls. */
  lemma {:induction false} RunHasTrace(n: nat, run: seq<Pool>) returns (acts: seq<Act>)
    requires IsRun(n, run)
    ensures IsTrace(n, run, acts)
  {
    if |run| == 1 {
      acts := [];
    } else {
      var k := |run| - 2;
      var before := run[..k + 1];
      forall m | 0 <= m < |before| - 1 ensures StepAt(before, m) {
        assert StepAt(run, m);
      }
      var first := RunHasTrace(n, before);
      assert StepAt(run, k);
      var act := SomeAct(run[k], run[k + 1]);
      acts := first + [act];
      forall m | 0 <= m < |acts| ensures ActAt(run, acts, m) {
        if m < k {
          assert ActAt(before, first, m);
        }
      }
    }
  }

  // ----- what a call asks for -----

  /** The client, outside the pool, calls `schedule` for worker j, and the pool is not joined. */
  predicate Asks(s: Pool, act: Act, j: nat) {
    s.client.Outside? && !s.joined && act.ByClient? && act.call.Schedule? && act.call.j == j
  }

  /** The jobs that worker j was asked to run by the calls among the first m steps, in order. */
  function Asked(run: seq<Pool>, acts: seq<Act>, m: nat, j: nat): seq<nat>
    requires m <= |acts| <= |run|
  {
    if m == 0 then []
    else Asked(run, acts, m - 1, j) + if Asks(run[m - 1], acts[m - 1], j) then [acts[m - 1].call.id] else []
  }

  /** The client's own jobs, without those that `sync` posts. */
  function Tasks(q: seq<Job>): seq<nat> {
    if q == [] then [] else Tasks(q[..|q| - 1]) + if q[|q| - 1].Task? then [q[|q| - 1].id] else []
  }

  lemma {:induction false} TasksConcat(q: seq<Job>, q': seq<Job>)
    ensures Tasks(q + q') == Tasks(q) + Tasks(q')
  {
    if q' == [] {
      assert q + q' == q;
    } else {
      var k := |q'| - 1;
      assert (q + q')[..|q + q'| - 1] == q + q'[..k];
      TasksConcat(q, q'[..k]);
    }
  }

  lemma TasksPrefix(q: seq<Job>, q': seq<Job>)
    requires q <= q'
    ensures Tasks(q) <= Tasks(q')
  {
    assert q' == q + q'[|q|..];
    TasksConcat(q, q'[|q|..]);
  }

  lemma TasksOfOne(job: Job)
    ensures Tasks([job]) == if job.Task? then [job.id] else []
  {
    assert [job][..0] == [];
  }

  /** A call of `schedule` puts its job into the queue of the worker it names, once, behind the
      jobs there, and changes nothing else of any worker; after `join` it changes none. */
  lemma ScheduleQueues(s: Pool, j: nat, id: nat, s': Pool)
    requires s.client.Outside? && ClientStep(s, Schedule(j, id), s')
    ensures |s'.ws| == |s.ws| && j < |s.ws| && s'.running == s.running && s'.joined == s.joined
    ensures forall i :: 0 <= i < |s.ws| && (i != j || s.joined) ==> s'.ws[i] == s.ws[i]
    ensures !s.joined ==>
      && s'.ws[j].queue == s.ws[j].queue + [Task(id)] && s'.ws[j].sched == s.ws[j].sched + [Task(id)]
      && s'.ws[j].done == s.ws[j].done && s'.ws[j].pc == s.ws[j].pc && !s'.client.Outside?
    ensures s.joined ==> !s'.ok && s'.client.Outside?
  {
  }

  /** Every other step leaves the client's jobs in the log as they are. */
  lemma OtherStepsAddNone(s: Pool, act: Act, s': Pool, j: nat)
    requires StepBy(s, act, s') && !Asks(s, act, j) && j < |s.ws|
    ensures |s'.ws| == |s.ws| && Tasks(s'.ws[j].sched) == Tasks(s.ws[j].sched)
  {
    if act.ByClient? {
      LogGrows(s, act.call, s', j);
      TasksConcat(s.ws[j].sched, [Noop]);
      TasksOfOne(Noop);
    }
  }

  lemma LogGrows(s: Pool, call: Call, s': Pool, j: nat)
    requires ClientStep(s, call, s') && !Asks(s, ByClient(call), j) && j < |s.ws|
    ensures |s'.ws| == |s.ws|
    ensures s'.ws[j].sched == s.ws[j].sched || s'.ws[j].sched == s.ws[j].sched + [Noop]
  {
  }

  lemma AskedIsLogged(s: Pool, act: Act, s': Pool, j: nat)
    requires StepBy(s, act, s') && Asks(s, act, j) && j < |s.ws|
    ensures |s'.ws| == |s.ws| && Tasks(s'.ws[j].sched) == Tasks(s.ws[j].sched) + [act.call.id]
  {
    ScheduleQueues(s, j, act.call.id, s');
    TasksConcat(s.ws[j].sched, [Task(act.call.id)]);
    TasksOfOne(Task(act.call.id));
  }

  // ----- main results -----

  /** The log of a worker is what the calls asked it for, in order, nothing lost or added. */
  lemma {:induction false} LogIsAsked(n: nat, run: seq<Pool>, acts: seq<Act>, m: nat, j: nat)
    requires IsTrace(n, run, acts) && m < |run| && j < n
    ensures |run[m].ws| == n && Tasks(run[m].ws[j].sched) == Asked(run, acts, m, j)
  {
    if m > 0 {
      LogIsAsked(n, run, acts, m - 1, j);
      assert ActAt(run, acts, m - 1);
      if Asks(run[m - 1], acts[m - 1], j) {
        AskedIsLogged(run[m - 1], acts[m - 1], run[m], j);
      } else {
        OtherStepsAddNone(run[m - 1], acts[m - 1], run[m], j);
      }
    }
  }

  /** Jobs run once each, in the order of the calls: at any time worker j was asked for what it
      has finished, then what it executes, then what it has queued. */
  lemma AskedRunInOrder(n: nat, run: seq<Pool>, acts: seq<Act>, m: nat, j: nat)
    requires IsTrace(n, run, acts) && m < |run| && j < n
    ensures |run[m].ws| == n
    ensures var w := run[m].ws[j];
            Asked(run, acts, m, j) == Tasks(w.done) + Tasks(InHand(w.pc)) + Tasks(w.queue)
  {
    TraceIsRun(n, run, acts);
    LogIsAsked(n, run, acts, m, j);
    JobsRunOnceInOrder(n, run, m, j);
    var w := run[m].ws[j];
    TasksConcat(w.done + InHand(w.pc), w.queue);
    TasksConcat(w.done, InHand(w.pc));
  }

  /** The first moment after step a at which the client is outside the pool. */
  ghost predicate Returns(run: seq<Pool>, a: nat, b: nat) {
    a < b < |run| && run[b].client.Outside? && forall m :: a < m < b ==> !run[m].client.Outside?
  }

  /** When a call of `sync` returns, all jobs that calls before it asked for have finished. */
  lemma SyncFinishesAsked(n: nat, run: seq<Pool>, acts: seq<Act>, a: nat, b: nat, j: nat)
    requires IsTrace(n, run, acts) && Returns(run, a, b) && j < n
    requires run[a].client.Outside? && acts[a] == ByClient(Sync)
    ensures |run[b].ws| == n && Asked(run, acts, a, j) <= Tasks(run[b].ws[j].done)
  {
    TraceIsRun(n, run, acts);
    assert ActAt(run, acts, a);
    LogIsAsked(n, run, acts, a, j);
    SyncWaitsForAll(n, run, a, b, j);
    TasksPrefix(run[a].ws[j].sched, run[b].ws[j].done);
  }

  lemma {:induction false} JoinLasts(n: nat, run: seq<Pool>, a: nat, m: nat)
    requires IsRun(n, run) && a < m < |run| && run[a].client.Outside? && ClientStep(run[a], Join, run[a + 1])
    requires !run[a].joined && forall i :: a < i <= m ==> !run[i].client.Outside?
    ensures Joining(run[m].client)
  {
    if m > a + 1 {
      JoinLasts(n, run, a, m - 1);
      assert StepAt(run, m - 1);
    }
  }

  /** When a call of `join` returns, the pool is joined: all workers have exited, and each has
      finished all that calls asked it for, and has nothing queued. */
  lemma JoinFinishesAsked(n: nat, run: seq<Pool>, acts: seq<Act>, a: nat, b: nat, j: nat)
    requires IsTrace(n, run, acts) && Returns(run, a, b) && j < n
    requires run[a].client.Outside? && acts[a] == ByClient(Join)
    ensures |run[b].ws| == n && run[b].joined && run[b].ws[j].pc.Exited? && run[b].ws[j].queue == []
    ensures Tasks(run[b].ws[j].done) == Asked(run, acts, b, j)
  {
    TraceIsRun(n, run, acts);
    assert ActAt(run, acts, a);
    if run[a].joined {
      JoinedForGood(n, run, a, b);
    } else {
      if b > a + 1 {
        JoinLasts(n, run, a, b - 1);
      }
      assert StepAt(run, b - 1);
    }
    JoinWaitsForAll(n, run, b, j);
    LogIsAsked(n, run, acts, b, j);
  }

  lemma {:induction false} NotifyLasts(n: nat, run: seq<Pool>, a: nat, j: nat, m: nat)
    requires IsRun(n, run) && a < m < |run| && run[a + 1].client == Notify(j)
    requires forall i :: a < i <= m ==> !run[i].client.Outside?
    ensures run[m].client == Notify(j)
  {
    if m > a + 1 {
      NotifyLasts(n, run, a, j, m - 1);
      assert StepAt(run, m - 1);
    }
  }

  /** A call of `schedule` returns true unless the pool is joined. */
  lemma ScheduleAnswers(n: nat, run: seq<Pool>, acts: seq<Act>, a: nat, b: nat, j: nat, id: nat)
    requires IsTrace(n, run, acts) && Returns(run, a, b)
    requires run[a].client.Outside? && acts[a] == ByClient(Schedule(j, id))
    ensures run[b].ok <==> !run[a].joined
  {
    TraceIsRun(n, run, acts);
    assert ActAt(run, acts, a);
    if !run[a].joined {
      NotifyLasts(n, run, a, j, b - 1);
      assert StepAt(run, b - 1);
    }
  }
}
