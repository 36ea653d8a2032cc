/** A message-passing run of a staged program, one process per domain.

    In every stage a process posts two receives, posts two sends, waits for both
    receives, and updates its local store.  Event number e of a process is the
    left (e even) or right (e odd) message of stage e / 2.  Messages and receives are
    matched the way section 3.5 of MPI 3.1 prescribes for point-to-point
    communication without wildcards: on one (source rank, destination rank, tag)
    channel, the i-th posted receive takes the i-th message sent. */
module MessagePassing {
  import opened Counting

  datatype Key = Key(src: int, dst: int, tag: int)

  /** What the processes run: their peers, the channels they name, and what they compute. */
  datatype Plan<!D(==,!new), !L, !M> = Plan(
    doms: set<D>,
    stages: nat,
    dest: (D, nat) -> D,      // where send e of a process goes
    source: (D, nat) -> D,    // where receive e of a process comes from
    sendKey: (D, nat) -> Key,
    recvKey: (D, nat) -> Key,
    pack: (D, nat, L) -> M,
    update: (D, nat, L, M, M) -> L)

  /** `from` and `ev` label a message for the theorems; no step of a process reads them. */
  datatype Msg<+D, +M> = Msg(from: D, ev: nat, data: M)

  /** `slot` and `sslot` are the request handles of the current stage: the position of
      each posted receive, and of each posted send, on its channel. */
  datatype Node<+L> = Node(stage: nat, posted: nat, sent: nat, slot: seq<nat>, sslot: seq<nat>, loc: L)

  /** The receive that process `owner` posted for event `ev`, again for the theorems only: a step
      reads no more than how many there are. */
  datatype Req<+D> = Req(owner: D, ev: nat)

  datatype Net<D, L, M> = Net(
    nodes: map<D, Node<L>>,
    out: map<Key, seq<Msg<D, M>>>,  // all messages sent on a channel, oldest first
    posts: map<Key, seq<Req<D>>>)   // all receives posted on a channel, oldest first

  function Sent<D, L, M>(s: Net<D, L, M>, k: Key): seq<Msg<D, M>> {
    if k in s.out then s.out[k] else []
  }

  function Requests<D, L, M>(s: Net<D, L, M>, k: Key): seq<Req<D>> {
    if k in s.posts then s.posts[k] else []
  }

  function Posts<D, L, M>(s: Net<D, L, M>, k: Key): nat {
    |Requests(s, k)|
  }

  // ----- steps -----

  ghost predicate Init<D(!new), L, M>(p: Plan<D, L, M>, init: D -> L, s: Net<D, L, M>) {
    && s.nodes.Keys == p.doms
    && (forall c :: c in p.doms ==> s.nodes[c] == Node(0, 0, 0, [], [], init(c)))
    && s.out == map[] && s.posts == map[]
  }

  predicate CanPost<D(!new), L, M>(p: Plan<D, L, M>, s: Net<D, L, M>, c: D) {
    c in s.nodes && s.nodes[c].stage < p.stages && s.nodes[c].posted < 2 * s.nodes[c].stage + 2
  }

  function PostRecv<D(!new), L, M>(p: Plan<D, L, M>, s: Net<D, L, M>, c: D): Net<D, L, M>
    requires CanPost(p, s, c)
  {
    var n := s.nodes[c];
    var k := p.recvKey(c, n.posted);
    s.(nodes := s.nodes[c := n.(posted := n.posted + 1, slot := n.slot + [Posts(s, k)])],
       posts := s.posts[k := Requests(s, k) + [Req(c, n.posted)]])
  }

  predicate CanSend<D(!new), L, M>(p: Plan<D, L, M>, s: Net<D, L, M>, c: D) {
    && c in s.nodes && s.nodes[c].stage < p.stages
    && s.nodes[c].posted == 2 * s.nodes[c].stage + 2
    && s.nodes[c].sent < 2 * s.nodes[c].stage + 2
  }

  function PostSend<D(!new), L, M>(p: Plan<D, L, M>, s: Net<D, L, M>, c: D): Net<D, L, M>
    requires CanSend(p, s, c)
  {
    var n := s.nodes[c];
    var k := p.sendKey(c, n.sent);
    s.(nodes := s.nodes[c := n.(sent := n.sent + 1, sslot := n.sslot + [|Sent(s, k)|])],
       out := s.out[k := Sent(s, k) + [Msg(c, n.sent, p.pack(c, n.sent, n.loc))]])
  }

  /** Both receives of the stage have their message: the wait may return. */
  predicate CanComplete<D(!new), L, M>(p: Plan<D, L, M>, s: Net<D, L, M>, c: D) {
    && c in s.nodes && s.nodes[c].stage < p.stages
    && var n := s.nodes[c];
    && n.posted == n.sent == 2 * n.stage + 2
    && |n.slot| == 2
    && n.slot[0] < |Sent(s, p.recvKey(c, 2 * n.stage))|
    && n.slot[1] < |Sent(s, p.recvKey(c, 2 * n.stage + 1))|
  }

  /** In addition both sends have found their receive: the wait must return, even when
      the library buffers nothing. */
  predicate MustComplete<D(!new), L, M>(p: Plan<D, L, M>, s: Net<D, L, M>, c: D) {
    && CanComplete(p, s, c)
    && var n := s.nodes[c];
    && |n.sslot| == 2
    && n.sslot[0] < Posts(s, p.sendKey(c, 2 * n.stage))
    && n.sslot[1] < Posts(s, p.sendKey(c, 2 * n.stage + 1))
  }

  function Matched<D(!new), L, M>(p: Plan<D, L, M>, s: Net<D, L, M>, c: D, j: nat): Msg<D, M>
    requires CanComplete(p, s, c) && j < 2
  {
    var n := s.nodes[c];
    Sent(s, p.recvKey(c, 2 * n.stage + j))[n.slot[j]]
  }

  function Complete<D(!new), L, M>(p: Plan<D, L, M>, s: Net<D, L, M>, c: D): Net<D, L, M>
    requires CanComplete(p, s, c)
  {
    var n := s.nodes[c];
    var loc := p.update(c, n.stage, n.loc, Matched(p, s, c, 0).data, Matched(p, s, c, 1).data);
    s.(nodes := s.nodes[c := Node(n.stage + 1, n.posted, n.sent, [], [], loc)])
  }

  ghost predicate Step<D(!new), L, M>(p: Plan<D, L, M>, s: Net<D, L, M>, c: D, s': Net<D, L, M>) {
    || (CanPost(p, s, c) && s' == PostRecv(p, s, c))
    || (CanSend(p, s, c) && s' == PostSend(p, s, c))
    || (CanComplete(p, s, c) && s' == Complete(p, s, c))
  }

  ghost predicate Moves<D(!new), L, M>(p: Plan<D, L, M>, s: Net<D, L, M>, s': Net<D, L, M>) {
    exists c :: Step(p, s, c, s')
  }

  ghost predicate MovesAt<D(!new), L, M>(p: Plan<D, L, M>, run: seq<Net<D, L, M>>, i: nat)
    requires i < |run| - 1
  {
    Moves(p, run[i], run[i + 1])
  }

  /** `run` is an interleaving of process steps from an initial state. */
  ghost predicate IsRun<D(!new), L, M>(p: Plan<D, L, M>, init: D -> L, run: seq<Net<D, L, M>>) {
    && |run| > 0
    && Init(p, init, run[0])
    && forall i {:trigger MovesAt(p, run, i)} :: 0 <= i < |run| - 1 ==> MovesAt(p, run, i)
  }

  predicate Finished<D(!new), L, M>(p: Plan<D, L, M>, s: Net<D, L, M>) {
    forall c :: c in p.doms ==> c in s.nodes && s.nodes[c].stage == p.stages
  }

  // ----- the lockstep meaning of a plan -----

  /** The local store of c when all processes run their stages in lockstep. */
  ghost function Lock<D(!new), L, M>(p: Plan<D, L, M>, init: D -> L, s: nat, c: D): L
    decreases s, 0
  {
    if s == 0 then init(c) else
      p.update(c, s - 1, Lock(p, init, s - 1, c), LockMsg(p, init, s - 1, c, 0), LockMsg(p, init, s - 1, c, 1))
  }

  /** What c receives from side j in stage s of the lockstep run: the buffer its
      neighbour packed in the same stage. */
  ghost function LockMsg<D(!new), L, M>(p: Plan<D, L, M>, init: D -> L, s: nat, c: D, j: nat): M
    decreases s, 1
  {
    var a := p.source(c, 2 * s + j);
    p.pack(a, 2 * s + j, Lock(p, init, s, a))
  }

  lemma LockNext<D(!new), L, M>(p: Plan<D, L, M>, init: D -> L, s: nat, c: D, a: D, b: D, m: M, m': M)
    requires p.source(c, 2 * s + 0) == a && p.pack(a, 2 * s + 0, Lock(p, init, s, a)) == m
    requires p.source(c, 2 * s + 1) == b && p.pack(b, 2 * s + 1, Lock(p, init, s, b)) == m'
    ensures Lock(p, init, s + 1, c) == p.update(c, s, Lock(p, init, s, c), m, m')
  {
  }

  // ----- what a plan must satisfy -----

  /** Neighbour relations invert each other, and both ends name the same channel. */
  ghost predicate SymmetricAt<D(!new), L, M>(p: Plan<D, L, M>, c: D, e: nat) {
    && p.dest(c, e) in p.doms && p.source(c, e) in p.doms
    && p.source(p.dest(c, e), e) == c && p.dest(p.source(c, e), e) == c
    && p.recvKey(c, e) == p.sendKey(p.source(c, e), e)
    && p.recvKey(p.dest(c, e), e) == p.sendKey(c, e)
  }

  ghost predicate Symmetric<D(!new), L, M>(p: Plan<D, L, M>) {
    forall c, e: nat {:trigger SymmetricAt(p, c, e)} :: c in p.doms ==> SymmetricAt(p, c, e)
  }

  // ----- how far a run has got -----

  /** How far a process is within its stage; this holds of any plan. */
  predicate Paced<D(!new), L, M>(p: Plan<D, L, M>, n: Node<L>) {
    && n.stage <= p.stages
    && 2 * n.stage <= n.sent <= n.posted <= 2 * n.stage + 2
    && (n.stage == p.stages ==> n.posted == 2 * n.stage)
    && (n.sent > 2 * n.stage ==> n.posted == 2 * n.stage + 2)
  }

  predicate CanMove<D(!new), L, M>(p: Plan<D, L, M>, s: Net<D, L, M>, c: D) {
    CanPost(p, s, c) || CanSend(p, s, c) || MustComplete(p, s, c)
  }

  /** The steps process n has taken so far: one per receive, per send and per wait. */
  function Work<L>(n: Node<L>): nat {
    n.posted + n.sent + n.stage
  }

  function WorkOf<D(!new), L>(nodes: map<D, Node<L>>): D -> nat { (c: D) => if c in nodes then Work(nodes[c]) else 0 }

  lemma StepWork<D(!new), L, M>(p: Plan<D, L, M>, s: Net<D, L, M>, c: D, s': Net<D, L, M>)
    requires Step(p, s, c, s')
    ensures s'.nodes.Keys == s.nodes.Keys && c in s.nodes
    ensures forall b :: b in s.nodes && b != c ==> s'.nodes[b] == s.nodes[b]
    ensures Work(s'.nodes[c]) == Work(s.nodes[c]) + 1
  {
  }

  lemma StepTotal<D(!new), L, M>(p: Plan<D, L, M>, s: Net<D, L, M>, c: D, s': Net<D, L, M>)
    requires s.nodes.Keys == p.doms && Step(p, s, c, s')
    ensures s'.nodes.Keys == p.doms && Total(p.doms, WorkOf(s'.nodes)) == Total(p.doms, WorkOf(s.nodes)) + 1
  {
    StepWork(p, s, c, s');
    TotalStep(p.doms, WorkOf(s.nodes), WorkOf(s'.nodes), c);
  }

  lemma {:induction false} WorkIsRunLength<D(!new), L, M>(p: Plan<D, L, M>, init: D -> L, run: seq<Net<D, L, M>>,
      i: nat)
    requires IsRun(p, init, run) && i < |run|
    ensures run[i].nodes.Keys == p.doms && Total(p.doms, WorkOf(run[i].nodes)) == i
  {
    if i == 0 {
      TotalBounds(p.doms, WorkOf(run[0].nodes), 0);
    } else {
      WorkIsRunLength(p, init, run, i - 1);
      assert MovesAt(p, run, i - 1);
      var c :| Step(p, run[i - 1], c, run[i]);
      StepTotal(p, run[i - 1], c, run[i]);
    }
  }

  lemma {:induction false} RunPaced<D(!new), L, M>(p: Plan<D, L, M>, init: D -> L, run: seq<Net<D, L, M>>, i: nat)
    requires IsRun(p, init, run) && i < |run|
    ensures run[i].nodes.Keys == p.doms
    ensures forall c :: c in p.doms ==> Paced(p, run[i].nodes[c])
  {
    if i > 0 {
      RunPaced(p, init, run, i - 1);
      assert MovesAt(p, run, i - 1);
      var c :| Step(p, run[i - 1], c, run[i]);
      StepWork(p, run[i - 1], c, run[i]);
      StepPaced(p, run[i - 1], c, run[i]);
    }
  }

  lemma StepPaced<D(!new), L, M>(p: Plan<D, L, M>, s: Net<D, L, M>, c: D, s': Net<D, L, M>)
    requires Step(p, s, c, s') && c in s.nodes && Paced(p, s.nodes[c])
    ensures c in s'.nodes && Paced(p, s'.nodes[c])
  {
  }

  /** Termination, of any plan: the number of steps of a run is bounded, and a run is finished
      exactly when it has used all of them. */
  lemma RunsTerminate<D(!new), L, M>(p: Plan<D, L, M>, init: D -> L, run: seq<Net<D, L, M>>)
    requires IsRun(p, init, run)
    ensures |run| - 1 <= |p.doms| * (5 * p.stages)
    ensures Finished(p, run[|run| - 1]) <==> |run| - 1 == |p.doms| * (5 * p.stages)
  {
    var s := run[|run| - 1];
    RunPaced(p, init, run, |run| - 1);
    WorkIsRunLength(p, init, run, |run| - 1);
    BoundedWork(p, s);
  }

  lemma BoundedWork<D(!new), L, M>(p: Plan<D, L, M>, s: Net<D, L, M>)
    requires s.nodes.Keys == p.doms && forall c :: c in p.doms ==> Paced(p, s.nodes[c])
    ensures Total(p.doms, WorkOf(s.nodes)) <= |p.doms| * (5 * p.stages)
    ensures Finished(p, s) <==> Total(p.doms, WorkOf(s.nodes)) == |p.doms| * (5 * p.stages)
  {
    forall c | c in p.doms
      ensures WorkOf(s.nodes)(c) <= 5 * p.stages
      ensures WorkOf(s.nodes)(c) == 5 * p.stages <==> s.nodes[c].stage == p.stages
    {
      assert Paced(p, s.nodes[c]);
    }
    TotalBounds(p.doms, WorkOf(s.nodes), 5 * p.stages);
  }

  lemma CanMoveSteps<D(!new), L, M>(p: Plan<D, L, M>, s: Net<D, L, M>, c: D)
    requires CanMove(p, s, c)
    ensures exists s' :: Step(p, s, c, s')
  {
    if CanPost(p, s, c) {
      assert Step(p, s, c, PostRecv(p, s, c));
    } else if CanSend(p, s, c) {
      assert Step(p, s, c, PostSend(p, s, c));
    } else {
      assert Step(p, s, c, Complete(p, s, c));
    }
  }

  lemma ExtendRun<D(!new), L, M>(p: Plan<D, L, M>, init: D -> L, run: seq<Net<D, L, M>>, c: D, s: Net<D, L, M>)
    requires IsRun(p, init, run) && Step(p, run[|run| - 1], c, s)
    ensures IsRun(p, init, run + [s])
  {
    var more := run + [s];
    forall i | 0 <= i < |more| - 1 ensures MovesAt(p, more, i) {
      if i < |run| - 1 {
        assert MovesAt(p, run, i);
      }
    }
  }}
