/** A pool of worker threads with one job queue each, and the thread that schedules,
    synchronises and joins.

    Each critical section, each notification and each look at a queue is one step. */
module ThreadPool {
  import opened Counting

  /** `sync` schedules jobs of its own, which do nothing. */
  datatype Job = Task(id: nat) | Noop

  /** A worker tests its queue under the lock, is blocked on its condition variable, executes
      a job, or has left its loop. */
  datatype WorkerPc = Check | Blocked | Executing(job: Job) | Exited

  /** sched: all jobs ever put into the queue; done: all jobs finished, in order. */
  datatype Worker = Worker(pc: WorkerPc, queue: seq<Job>, sched: seq<Job>, done: seq<Job>)

  /** The client is outside the pool; about to notify worker j of a job; in `sync`, about to
      post to worker j, to notify it, or to look at its queue; in `join`, about to notify
      worker j, or waiting for it to exit. */
  datatype Client =
    | Outside | Notify(j: nat)
    | Post(j: nat) | PostNotify(j: nat) | Scan(j: nat, busy: bool)
    | Wake(j: nat) | Await(j: nat)

  /** ok: what the last `schedule` returned; mark: what was scheduled when `sync` was called. */
  datatype Pool = Pool(running: bool, joined: bool, client: Client, ws: seq<Worker>, ok: bool, mark: seq<seq<Job>>)

  datatype Call = Schedule(j: nat, id: nat) | Sync | Join

  ghost predicate Init(n: nat, s: Pool) {
    && s.running && !s.joined && s.client.Outside? && |s.ws| == n
    && forall j :: 0 <= j < n ==> s.ws[j] == Worker(Check, [], [], [])
  }

  function Push(s: Pool, j: nat, job: Job): Pool
    requires j < |s.ws|
  {
    s.(ws := s.ws[j := s.ws[j].(queue := s.ws[j].queue + [job], sched := s.ws[j].sched + [job])])
  }

  function Woken(s: Pool, j: nat): Pool
    requires j < |s.ws|
  {
    s.(ws := s.ws[j := s.ws[j].(pc := if s.ws[j].pc.Blocked? then Check else s.ws[j].pc)])
  }

  function Scheds(s: Pool): (r: seq<seq<Job>>)
    ensures |r| == |s.ws| && forall j :: 0 <= j < |r| ==> r[j] == s.ws[j].sched
  {
    seq(|s.ws|, j requires 0 <= j < |s.ws| => s.ws[j].sched)
  }

  /** The client enters the pool with a call, or continues the one it is in. */
  ghost predicate ClientStep(s: Pool, call: Call, s': Pool) {
    var n := |s.ws|;
    match s.client
    case Outside =>
      (match call
       case Schedule(j, id) =>
         j < n && s' == if s.joined then s.(ok := false) else Push(s, j, Task(id)).(client := Notify(j))
       case Sync => s' == s.(client := Post(0), mark := Scheds(s))
       case Join => s' == if s.joined then s else s.(running := false, client := Wake(0)))
    case Notify(j) => j < n && s' == Woken(s, j).(client := Outside, ok := true)
    case Post(j) =>
      if j >= n then s' == s.(client := Scan(0, false))
      else if s.joined then s' == s.(client := Post(j + 1))
      else s' == Push(s, j, Noop).(client := PostNotify(j))
    case PostNotify(j) => j < n && s' == Woken(s, j).(client := Post(j + 1))
    case Scan(j, busy) =>
      if j < n then s' == s.(client := Scan(j + 1, busy || s.ws[j].queue != []))
      else s' == s.(client := if busy then Scan(0, false) else Outside)
    case Wake(j) =>
      if j < n then s' == Woken(s, j).(client := Await(j))
      else s' == s.(joined := true, client := Outside)
    case Await(j) => j < n && s.ws[j].pc.Exited? && s' == s.(client := Wake(j + 1))
  }

  /** What worker w does next, if it has not exited.  A blocked worker may wake up spuriously. */
  function Worked(running: bool, w: Worker): Worker {
    match w.pc
    case Check =>
      if w.queue != [] then w.(pc := Executing(w.queue[0]), queue := w.queue[1..])
      else if running then w.(pc := Blocked)
      else w.(pc := Exited)
    case Executing(job) => w.(pc := Check, done := w.done + [job])
    case Blocked => w.(pc := Check)
    case Exited => w
  }

  ghost predicate WorkerStep(s: Pool, j: nat, s': Pool) {
    j < |s.ws| && !s.ws[j].pc.Exited? && s' == s.(ws := s.ws[j := Worked(s.running, s.ws[j])])
  }

  ghost predicate Step(s: Pool, s': Pool) {
    (exists call :: ClientStep(s, call, s')) || exists j: nat :: WorkerStep(s, j, s')
  }

  ghost predicate StepAt(run: seq<Pool>, m: nat)
    requires m < |run| - 1
  {
    Step(run[m], run[m + 1])
  }

  ghost predicate IsRun(n: nat, run: seq<Pool>) {
    && |run| > 0 && Init(n, run[0])
    && forall m {:trigger StepAt(run, m)} :: 0 <= m < |run| - 1 ==> StepAt(run, m)
  }

  // ----- invariant -----

  function InHand(pc: WorkerPc): seq<Job> { if pc.Executing? then [pc.job] else [] }

  /** Nothing is lost, repeated or overtaken. */
  ghost predicate Fifo(w: Worker) { w.sched == w.done + InHand(w.pc) + w.queue }

  /** The client will still notify worker j. */
  predicate Pending(client: Client, j: nat) {
    match client
    case Notify(i) => i == j
    case PostNotify(i) => i == j
    case Wake(i) => i <= j
    case Await(i) => i < j
    case _ => false
  }

  ghost predicate WorkerOk(running: bool, client: Client, j: nat, w: Worker) {
    && Fifo(w)
    && (w.pc.Exited? ==> w.queue == [] && !running)
    && (w.pc.Blocked? && (w.queue != [] || !running) ==> Pending(client, j))
  }

  predicate Joining(client: Client) { client.Wake? || client.Await? }

  predicate Syncing(client: Client) { client.Post? || client.PostNotify? || client.Scan? }

  /** Has `sync` already posted to worker j? */
  predicate Posted(client: Client, j: nat) {
    match client
    case Post(i) => j < i
    case PostNotify(i) => j <= i
    case _ => true
  }

  predicate InRange(client: Client, n: nat) {
    match client
    case Outside => true
    case Notify(j) => j < n
    case PostNotify(j) => j < n
    case Await(j) => j < n
    case Post(j) => j <= n
    case Scan(j, _) => j <= n
    case Wake(j) => j <= n
  }

  ghost predicate MarkOk(s: Pool) {
    && |s.mark| == |s.ws|
    && forall j :: 0 <= j < |s.ws| ==>
         s.ws[j].sched == s.mark[j] + if Posted(s.client, j) && !s.joined then [Noop] else []
  }

  ghost predicate ClientOk(s: Pool) {
    && InRange(s.client, |s.ws|)
    && (s.running <==> !s.joined && !Joining(s.client))
    && (s.joined ==> !Joining(s.client) && !s.client.Notify? && !s.client.PostNotify?)
    && (s.joined ==> forall j :: 0 <= j < |s.ws| ==> s.ws[j].pc.Exited?)
    && (Joining(s.client) ==> forall j :: 0 <= j < s.client.j ==> s.ws[j].pc.Exited?)
    && (Syncing(s.client) ==> MarkOk(s))
    && (s.client.Scan? && !s.client.busy ==> forall j :: 0 <= j < s.client.j ==> s.ws[j].queue == [])
  }

  ghost predicate Inv(n: nat, s: Pool) {
    && |s.ws| == n && ClientOk(s)
    && forall j :: 0 <= j < n ==> WorkerOk(s.running, s.client, j, s.ws[j])
  }

  lemma PushKeepsFifo(w: Worker, job: Job)
    requires Fifo(w)
    ensures Fifo(w.(queue := w.queue + [job], sched := w.sched + [job]))
  {
    assert w.done + InHand(w.pc) + (w.queue + [job]) == w.done + InHand(w.pc) + w.queue + [job];
  }

  lemma WorkKeepsFifo(running: bool, w: Worker)
    requires Fifo(w)
    ensures Fifo(Worked(running, w))
  {
    var w' := Worked(running, w);
    assert w'.done + InHand(w'.pc) + w'.queue == w.done + InHand(w.pc) + w.queue;
  }

  lemma WorkerStepInv(n: nat, s: Pool, j: nat, s': Pool)
    requires Inv(n, s) && WorkerStep(s, j, s')
    ensures Inv(n, s')
  {
    assert WorkerOk(s.running, s.client, j, s.ws[j]);
    WorkKeepsFifo(s.running, s.ws[j]);
    assert WorkerOk(s.running, s.client, j, s'.ws[j]);
    assert forall i :: 0 <= i < n && i != j ==> s'.ws[i] == s.ws[i];
    assert s'.ws[j].sched == s.ws[j].sched;
  }

  lemma CallInv(n: nat, s: Pool, call: Call, s': Pool)
    requires Inv(n, s) && s.client.Outside? && ClientStep(s, call, s')
    ensures Inv(n, s')
  {
    if call.Schedule? && !s.joined {
      assert WorkerOk(s.running, s.client, call.j, s.ws[call.j]);
      PushKeepsFifo(s.ws[call.j], Task(call.id));
    }
    forall i | 0 <= i < n ensures WorkerOk(s'.running, s'.client, i, s'.ws[i]) {
      assert WorkerOk(s.running, s.client, i, s.ws[i]);
    }
  }

  lemma PostInv(n: nat, s: Pool, j: nat)
    requires Inv(n, s) && s.client == Post(j) && j < n && !s.joined
    ensures Inv(n, Push(s, j, Noop).(client := PostNotify(j)))
  {
    var s' := Push(s, j, Noop).(client := PostNotify(j));
    PushKeepsFifo(s.ws[j], Noop);
    assert WorkerOk(s.running, s.client, j, s.ws[j]);
    assert WorkerOk(s'.running, s'.client, j, s'.ws[j]);
    forall i | 0 <= i < n && i != j ensures WorkerOk(s'.running, s'.client, i, s'.ws[i]) {
      assert s'.ws[i] == s.ws[i] && WorkerOk(s.running, s.client, i, s.ws[i]);
    }
    forall i | 0 <= i < n ensures s'.ws[i].sched == s'.mark[i] + if Posted(s'.client, i) then [Noop] else [] {
      if i == j {
        assert s.ws[j].sched == s.mark[j] + [];
      }
    }
  }

  lemma PostNotifyInv(n: nat, s: Pool, j: nat)
    requires Inv(n, s) && s.client == PostNotify(j)
    ensures Inv(n, Woken(s, j).(client := Post(j + 1)))
  {
    var s' := Woken(s, j).(client := Post(j + 1));
    forall i | 0 <= i < n ensures WorkerOk(s'.running, s'.client, i, s'.ws[i]) {
      assert WorkerOk(s.running, s.client, i, s.ws[i]);
    }
    forall i | 0 <= i < n ensures s'.ws[i].sched == s'.mark[i] + if Posted(s'.client, i) then [Noop] else [] {
      assert Posted(s'.client, i) <==> Posted(s.client, i);
    }
  }

  /** The steps of `sync` that change no worker. */
  lemma LookInv(n: nat, s: Pool, s': Pool)
    requires Inv(n, s) && Syncing(s.client) && s' == s.(client := s'.client) && InRange(s'.client, n)
    requires s'.client.Post? || s'.client.Scan? || s'.client.Outside?
    requires forall i :: 0 <= i < n && !s.joined ==> (Posted(s'.client, i) <==> Posted(s.client, i))
    requires !s.client.PostNotify?
    requires s'.client.Scan? && !s'.client.busy ==> forall j :: 0 <= j < s'.client.j ==> s.ws[j].queue == []
    ensures Inv(n, s')
  {
    forall i | 0 <= i < n ensures WorkerOk(s'.running, s'.client, i, s'.ws[i]) {
      assert WorkerOk(s.running, s.client, i, s.ws[i]);
    }
  }

  lemma SyncStepInv(n: nat, s: Pool, call: Call, s': Pool)
    requires Inv(n, s) && Syncing(s.client) && ClientStep(s, call, s')
    ensures Inv(n, s')
  {
    if s.client.Post? && s.client.j < n && !s.joined {
      PostInv(n, s, s.client.j);
    } else if s.client.PostNotify? {
      PostNotifyInv(n, s, s.client.j);
    } else {
      LookInv(n, s, s');
    }
  }

  lemma JoinStepInv(n: nat, s: Pool, call: Call, s': Pool)
    requires Inv(n, s) && (Joining(s.client) || s.client.Notify?) && ClientStep(s, call, s')
    ensures Inv(n, s')
  {
    forall i | 0 <= i < n ensures WorkerOk(s'.running, s'.client, i, s'.ws[i]) {
      assert WorkerOk(s.running, s.client, i, s.ws[i]);
    }
  }

  lemma {:induction false} RunInv(n: nat, run: seq<Pool>, m: nat)
    requires IsRun(n, run) && m < |run|
    ensures Inv(n, run[m])
  {
    if m > 0 {
      RunInv(n, run, m - 1);
      var s, s' := run[m - 1], run[m];
      assert StepAt(run, m - 1);
      if j: nat :| WorkerStep(s, j, s') {
        WorkerStepInv(n, s, j, s');
      } else {
        var call :| ClientStep(s, call, s');
        if s.client.Outside? {
          CallInv(n, s, call, s');
        } else if Syncing(s.client) {
          SyncStepInv(n, s, call, s');
        } else {
          JoinStepInv(n, s, call, s');
        }
      }
    }
  }

  // ----- completeness -----

  /** Jobs run once each, in the order of scheduling: at any time what was scheduled on worker
      j is what it has finished, then what it executes, then its queue. */
  lemma JobsRunOnceInOrder(n: nat, run: seq<Pool>, m: nat, j: nat)
    requires IsRun(n, run) && m < |run| && j < n
    ensures |run[m].ws| == n
    ensures run[m].ws[j].sched == run[m].ws[j].done + InHand(run[m].ws[j].pc) + run[m].ws[j].queue
  {
    RunInv(n, run, m);
    assert WorkerOk(run[m].running, run[m].client, j, run[m].ws[j]);
  }

  lemma MarkStep(s: Pool, s': Pool)
    requires Step(s, s') && Syncing(s.client)
    ensures s'.mark == s.mark
  {
  }

  /** The mark is what was scheduled when `sync` was called. */
  lemma {:induction false} MarkStays(run: seq<Pool>, a: nat, b: nat)
    requires forall m {:trigger StepAt(run, m)} :: 0 <= m < |run| - 1 ==> StepAt(run, m)
    requires a < b < |run| && forall m :: a < m <= b ==> Syncing(run[m].client)
    ensures run[b].mark == run[a + 1].mark
  {
    if b > a + 1 {
      MarkStays(run, a, b - 1);
      assert Syncing(run[b - 1].client);
      assert StepAt(run, b - 1);
      MarkStep(run[b - 1], run[b]);
    }
  }

  /** From its call to its return the client is in `sync`. */
  lemma {:induction false} SyncLasts(n: nat, run: seq<Pool>, a: nat, m: nat)
    requires IsRun(n, run) && a < m < |run| && run[a].client.Outside? && ClientStep(run[a], Sync, run[a + 1])
    requires forall i :: a < i <= m ==> !run[i].client.Outside?
    ensures Syncing(run[m].client)
  {
    if m > a + 1 {
      SyncLasts(n, run, a, m - 1);
      assert StepAt(run, m - 1);
    }
  }

  /** When `sync` returns, every job scheduled before the call has finished, on every worker,
      although `sync` looks only at the queues, one after the other, and never at what a
      worker executes: run[a] is the call, and run[b] the first moment after it at which the
      client is outside the pool. */
  lemma SyncWaitsForAll(n: nat, run: seq<Pool>, a: nat, b: nat, j: nat)
    requires IsRun(n, run) && a < b < |run| && j < n
    requires run[a].client.Outside? && ClientStep(run[a], Sync, run[a + 1])
    requires run[b].client.Outside? && forall m :: a < m < b ==> !run[m].client.Outside?
    ensures |run[a].ws| == |run[b].ws| == n
    ensures run[a].ws[j].sched <= run[b].ws[j].done
  {
    RunInv(n, run, a);
    RunInv(n, run, b - 1);
    RunInv(n, run, b);
    forall m | a < m <= b - 1 ensures Syncing(run[m].client) {
      SyncLasts(n, run, a, m);
    }
    MarkStays(run, a, b - 1);
    var s, s' := run[b - 1], run[b];
    assert Syncing(s.client);
    assert StepAt(run, b - 1);
    assert s.client == Scan(n, false) && s'.ws == s.ws;
    FinishedBeforeNoop(n, s, j);
  }

  lemma FinishedBeforeNoop(n: nat, s: Pool, j: nat)
    requires Inv(n, s) && s.client == Scan(n, false) && j < n
    ensures s.mark[j] <= s.ws[j].done
  {
    var w := s.ws[j];
    assert WorkerOk(s.running, s.client, j, w);
    assert w.queue == [];
    if s.joined {
      assert w.pc.Exited? && w.sched == s.mark[j] + [] == s.mark[j];
    } else {
      assert w.sched == s.mark[j] + [Noop] == w.done + InHand(w.pc);
      if w.pc.Executing? {
        assert w.sched[..|w.sched| - 1] == s.mark[j] == w.done;
      } else {
        assert w.done == s.mark[j] + [Noop];
      }
    }
  }

  /** When `join` has returned, all workers have exited, all queues are empty and all jobs
      ever scheduled have finished. */
  lemma JoinWaitsForAll(n: nat, run: seq<Pool>, m: nat, j: nat)
    requires IsRun(n, run) && m < |run| && j < n && run[m].joined
    ensures |run[m].ws| == n && run[m].ws[j].pc.Exited? && run[m].ws[j].queue == []
    ensures run[m].ws[j].done == run[m].ws[j].sched
  {
    RunInv(n, run, m);
    assert WorkerOk(run[m].running, run[m].client, j, run[m].ws[j]);
  }

  lemma JoinedStep(n: nat, s: Pool, s': Pool)
    requires Inv(n, s) && s.joined && Step(s, s')
    ensures s'.joined && s'.ws == s.ws && (s'.ok ==> s.ok)
  {
  }

  /** A joined pool accepts no more jobs: its workers stay as they are, and `schedule`
      returns no success. */
  lemma {:induction false} JoinedForGood(n: nat, run: seq<Pool>, a: nat, b: nat)
    requires IsRun(n, run) && a <= b < |run| && run[a].joined
    ensures run[b].joined && run[b].ws == run[a].ws && (run[b].ok ==> run[a].ok)
  {
    if b > a {
      JoinedForGood(n, run, a, b - 1);
      RunInv(n, run, b - 1);
      assert StepAt(run, b - 1);
      JoinedStep(n, run[b - 1], run[b]);
    }
  }

  // ----- progress -----

  /** No wake-up is lost: a blocked worker with a job, or whose pool is being joined, is about
      to be notified. */
  lemma NoLostWakeUp(n: nat, run: seq<Pool>, m: nat, j: nat)
    requires IsRun(n, run) && m < |run| && j < n
    ensures |run[m].ws| == n
    ensures run[m].ws[j].pc.Blocked? && (run[m].ws[j].queue != [] || !run[m].running) ==> Pending(run[m].client, j)
  {
    RunInv(n, run, m);
    assert WorkerOk(run[m].running, run[m].client, j, run[m].ws[j]);
  }

  /** What worker w still has to do. */
  function Weight(): Worker -> nat {
    (w: Worker) => 3 * |w.queue| + match w.pc case Executing(_) => 2 case Exited => 0 case _ => 1
  }

  function Load(s: Pool): nat { Sum(s.ws, Weight()) }

  /** How far the client is from leaving the pool if no queue keeps it there. */
  function Distance(n: nat, client: Client): int {
    match client
    case Outside => 0
    case Notify(_) => 1
    case Post(j) => 2 * (n - j) + 2 * n + 4
    case PostNotify(j) => 2 * (n - j) + 2 * n + 3
    case Scan(j, busy) => if busy then n - j + n + 2 else n - j + 1
    case Wake(j) => 2 * (n - j) + 1
    case Await(j) => 2 * (n - j)
  }

  /** No worker's step adds work, and only a worker without any does not reduce it. */
  lemma WorkReduces(s: Pool, j: nat, s': Pool)
    requires WorkerStep(s, j, s')
    ensures Load(s') <= Load(s)
    ensures !s.ws[j].pc.Blocked? && (s.ws[j].queue != [] || s.ws[j].pc.Executing? || !s.running) ==> Load(s') < Load(s)
  {
    SumUpdate(s.ws, j, s'.ws[j], Weight());
  }

  lemma WorkerGetsOn(n: nat, s: Pool, j: nat)
    requires Inv(n, s) && j < n && !Pending(s.client, j) && (s.ws[j].queue != [] || (!s.running && !s.ws[j].pc.Exited?))
    ensures exists i: nat, s' :: WorkerStep(s, i, s') && Load(s') < Load(s)
  {
    assert WorkerOk(s.running, s.client, j, s.ws[j]);
    var s' := s.(ws := s.ws[j := Worked(s.running, s.ws[j])]);
    assert WorkerStep(s, j, s');
    WorkReduces(s, j, s');
  }

  function NextPost(n: nat, s: Pool, j: nat): Pool
    requires |s.ws| == n
  {
    if j >= n then s.(client := Scan(0, false))
    else if s.joined then s.(client := Post(j + 1))
    else Push(s, j, Noop).(client := PostNotify(j))
  }

  /** The client's next step inside the pool, unless it waits. */
  lemma ClientGetsOn(n: nat, s: Pool)
    requires Inv(n, s) && !s.client.Outside?
    requires s.client.Scan? && s.client.j < n ==> s.ws[s.client.j].queue == []
    requires s.client.Await? ==> s.ws[s.client.j].pc.Exited?
    ensures exists s' :: ClientStep(s, Sync, s') && 0 <= Distance(n, s'.client) < Distance(n, s.client)
  {
    var s' := match s.client
      case Notify(j) => Woken(s, j).(client := Outside, ok := true)
      case Post(j) => NextPost(n, s, j)
      case PostNotify(j) => Woken(s, j).(client := Post(j + 1))
      case Scan(j, busy) =>
        if j < n then s.(client := Scan(j + 1, busy)) else s.(client := if busy then Scan(0, false) else Outside)
      case Wake(j) => if j < n then Woken(s, j).(client := Await(j)) else s.(joined := true, client := Outside)
      case Await(j) => s.(client := Wake(j + 1));
    assert ClientStep(s, Sync, s');
  }

  /** Progress: as long as the client is in a call or a queue holds a job, a worker can take a
      step that reduces the load, or the client one that brings it closer to returning. */
  lemma PoolProgress(n: nat, run: seq<Pool>, m: nat)
    requires IsRun(n, run) && m < |run|
    requires run[m].client.Outside? ==> exists j :: 0 <= j < |run[m].ws| && run[m].ws[j].queue != []
    ensures (exists j: nat, s' :: WorkerStep(run[m], j, s') && Load(s') < Load(run[m]))
         || (exists s' :: ClientStep(run[m], Sync, s') && 0 <= Distance(n, s'.client) < Distance(n, run[m].client))
  {
    RunInv(n, run, m);
    var s := run[m];
    if s.client.Outside? {
      var j :| 0 <= j < n && s.ws[j].queue != [];
      WorkerGetsOn(n, s, j);
    } else if (s.client.Scan? && s.client.j < n && s.ws[s.client.j].queue != [])
        || (s.client.Await? && !s.ws[s.client.j].pc.Exited?) {
      WorkerGetsOn(n, s, s.client.j);
    } else {
      ClientGetsOn(n, s);
    }
  }

  // ----- no other step undoes progress -----

  /** The load together with what `sync` has still to post. */
  function Owed(n: nat, s: Pool): int {
    Load(s) + match s.client
      case Post(j) => 4 * (n - j)
      case PostNotify(j) => 4 * (n - j - 1)
      case _ => 0
  }

  /** The client looks at a queue that holds a job, for the first time in a pass: its spin. */
  predicate FindsJob(s: Pool) {
    s.client.Scan? && !s.client.busy && s.client.j < |s.ws| && s.ws[s.client.j].queue != []
  }

  lemma PushLoad(s: Pool, j: nat, job: Job, client: Client)
    requires j < |s.ws|
    ensures Load(Push(s, j, job).(client := client)) == Load(s) + 3
  {
    SumUpdate(s.ws, j, Push(s, j, job).ws[j], Weight());
  }

  lemma WokenLoad(s: Pool, j: nat)
    requires j < |s.ws|
    ensures Load(Woken(s, j)) == Load(s)
  {
    SumUpdate(s.ws, j, Woken(s, j).ws[j], Weight());
  }

  lemma PostReduces(n: nat, s: Pool, call: Call, s': Pool)
    requires Inv(n, s) && s.client.Post? && ClientStep(s, call, s')
    ensures Owed(n, s') < Owed(n, s)
        || (Owed(n, s') == Owed(n, s) && 0 <= Distance(n, s'.client) < Distance(n, s.client))
  {
    if s.client.j < n && !s.joined {
      PushLoad(s, s.client.j, Noop, PostNotify(s.client.j));
    }
  }

  lemma WakeReduces(n: nat, s: Pool, call: Call, s': Pool)
    requires Inv(n, s) && (s.client.Notify? || s.client.PostNotify? || s.client.Wake?) && ClientStep(s, call, s')
    ensures Owed(n, s') == Owed(n, s) && 0 <= Distance(n, s'.client) < Distance(n, s.client)
  {
    if s.client.j < n {
      WokenLoad(s, s.client.j);
    }
  }

  lemma LookReduces(n: nat, s: Pool, call: Call, s': Pool)
    requires Inv(n, s) && (s.client.Scan? || s.client.Await?) && ClientStep(s, call, s')
    ensures Owed(n, s') == Owed(n, s) && (FindsJob(s) || 0 <= Distance(n, s'.client) < Distance(n, s.client))
  {
  }

  /** Inside a call no step of the client adds to what is owed, and each either lessens it or
      brings the client closer to returning, except the spin. */
  lemma ClientReduces(n: nat, s: Pool, call: Call, s': Pool)
    requires Inv(n, s) && !s.client.Outside? && ClientStep(s, call, s')
    ensures Owed(n, s') <= Owed(n, s)
    ensures FindsJob(s) || Owed(n, s') < Owed(n, s) || 0 <= Distance(n, s'.client) < Distance(n, s.client)
  {
    if s.client.Post? {
      PostReduces(n, s, call, s');
    } else if s.client.Scan? || s.client.Await? {
      LookReduces(n, s, call, s');
    } else {
      WakeReduces(n, s, call, s');
    }
  }

  /** No step of a worker adds to it or concerns the client. */
  lemma WorkerReduces(n: nat, s: Pool, j: nat, s': Pool)
    requires WorkerStep(s, j, s')
    ensures Owed(n, s') <= Owed(n, s) && s'.client == s.client
  {
    WorkReduces(s, j, s');
  }

  /** The client's own steps between two positions of a run in which it looks at the queues. */
  function Looks(run: seq<Pool>, a: nat, b: nat): nat
    requires a <= b < |run|
  {
    if a == b then 0 else Looks(run, a, b - 1) + if run[b].client == run[b - 1].client then 0 else 1
  }

  ghost predicate Drained(s: Pool) { forall j :: 0 <= j < |s.ws| ==> s.ws[j].queue == [] }

  lemma DrainedStep(n: nat, s: Pool, s': Pool)
    requires Inv(n, s) && Drained(s) && s.client.Scan? && Step(s, s')
    ensures Drained(s')
    ensures s'.client == s.client || 0 <= Distance(n, s'.client) < Distance(n, s.client)
  {
    if call :| ClientStep(s, call, s') {
      assert !FindsJob(s);
    }
  }

  /** Once the queues are empty, `sync` returns after at most 2 n + 2 more steps of its own,
      whatever the workers do. */
  lemma {:induction false} SyncReturnsWhenDrained(n: nat, run: seq<Pool>, a: nat, b: nat)
    requires IsRun(n, run) && a <= b < |run| && Drained(run[a])
    requires forall m :: a <= m < b ==> run[m].client.Scan?
    requires run[a].client.Scan?
    ensures Looks(run, a, b) + Distance(n, run[b].client) <= Distance(n, run[a].client) <= 2 * n + 2
    ensures Drained(run[b]) && Distance(n, run[b].client) >= 0
    ensures Looks(run, a, b) <= 2 * n + 2
  {
    RunInv(n, run, a);
    if a < b {
      SyncReturnsWhenDrained(n, run, a, b - 1);
      RunInv(n, run, b - 1);
      assert StepAt(run, b - 1);
      assert run[b - 1].client.Scan?;
      DrainedStep(n, run[b - 1], run[b]);
    }
  }
}
