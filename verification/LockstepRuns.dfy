/** Runs in which all processes take a stage together: any plan has them whose channels are
    kept apart within each stage. */
module LockstepRuns {
  import opened Counting
  import opened MessagePassing

  ghost function Last<D, L, M>(run: seq<Net<D, L, M>>): Net<D, L, M>
    requires |run| > 0
  {
    run[|run| - 1]
  }

  /** Process c has nothing outstanding. */
  predicate Idle<D, L>(nodes: map<D, Node<L>>, c: D, stage: nat) {
    && c in nodes && nodes[c].stage == stage && nodes[c].posted == 2 * stage && nodes[c].sent == 2 * stage
    && nodes[c].slot == [] && nodes[c].sslot == []
  }

  /** On every channel, as many messages as receives. */
  ghost predicate Balanced<D, L, M>(s: Net<D, L, M>) {
    forall k :: |Sent(s, k)| == Posts(s, k)
  }

  ghost predicate Quiet<D(!new), L, M>(p: Plan<D, L, M>, s: Net<D, L, M>, stage: nat) {
    s.nodes.Keys == p.doms && Balanced(s) && forall c :: c in p.doms ==> Idle(s.nodes, c, stage)
  }

  // ----- one process -----

  ghost predicate TwoPosts<D(!new), L, M>(p: Plan<D, L, M>, s: Net<D, L, M>, c: D, stage: nat, s': Net<D, L, M>)
    requires c in s.nodes
  {
    var k0, k1 := p.recvKey(c, 2 * stage), p.recvKey(c, 2 * stage + 1);
    && s'.nodes == s.nodes[c := Node(stage, 2 * stage + 2, 2 * stage, [Posts(s, k0), Posts(s, k1)], [], s.nodes[c].loc)]
    && s'.out == s.out
    && forall k :: Posts(s', k) == Posts(s, k) + One(k == k0) + One(k == k1)
  }

  lemma PostTwo<D(!new), L, M>(p: Plan<D, L, M>, init: D -> L, run: seq<Net<D, L, M>>, c: D, stage: nat)
      returns (run': seq<Net<D, L, M>>)
    requires IsRun(p, init, run) && Idle(Last(run).nodes, c, stage) && stage < p.stages
    requires p.recvKey(c, 2 * stage) != p.recvKey(c, 2 * stage + 1)
    ensures IsRun(p, init, run') && TwoPosts(p, Last(run), c, stage, Last(run'))
  {
    var s := Last(run);
    var s1 := PostRecv(p, s, c);
    ExtendRun(p, init, run, c, s1);
    var s2 := PostRecv(p, s1, c);
    run' := run + [s1] + [s2];
    ExtendRun(p, init, run + [s1], c, s2);
    assert s2.nodes[c].slot == [Posts(s, p.recvKey(c, 2 * stage)), Posts(s, p.recvKey(c, 2 * stage + 1))];
    assert s2.nodes == s.nodes[c := s2.nodes[c]];
  }

  ghost predicate OneSend<D(!new), L, M>(p: Plan<D, L, M>, s: Net<D, L, M>, c: D, e: nat, s': Net<D, L, M>)
    requires c in s.nodes
  {
    var k := p.sendKey(c, e);
    && s'.nodes == s.nodes[c := s.nodes[c].(sent := e + 1, sslot := s.nodes[c].sslot + [|Sent(s, k)|])]
    && s'.posts == s.posts
    && (forall k' :: k' != k ==> Sent(s', k') == Sent(s, k'))
    && Sent(s', k) == Sent(s, k) + [Msg(c, e, p.pack(c, e, s.nodes[c].loc))]
  }

  lemma SendOne<D(!new), L, M>(p: Plan<D, L, M>, init: D -> L, run: seq<Net<D, L, M>>, c: D, e: nat)
      returns (run': seq<Net<D, L, M>>)
    requires IsRun(p, init, run) && CanSend(p, Last(run), c) && Last(run).nodes[c].sent == e
    ensures IsRun(p, init, run') && OneSend(p, Last(run), c, e, Last(run'))
  {
    var s := Last(run);
    var s' := PostSend(p, s, c);
    ExtendRun(p, init, run, c, s');
    run' := run + [s'];
  }

  /** Process c sends both its messages of a stage. */
  ghost predicate TwoSends<D(!new), L, M>(p: Plan<D, L, M>, s: Net<D, L, M>, c: D, stage: nat, s': Net<D, L, M>)
    requires c in s.nodes
  {
    var k0, k1 := p.sendKey(c, 2 * stage), p.sendKey(c, 2 * stage + 1);
    && s'.nodes.Keys == s.nodes.Keys && s'.posts == s.posts
    && (forall b :: b in s.nodes && b != c ==> s'.nodes[b] == s.nodes[b])
    && s'.nodes[c].stage == s.nodes[c].stage && s'.nodes[c].slot == s.nodes[c].slot
    && s'.nodes[c].posted == s.nodes[c].posted && s'.nodes[c].sent == 2 * stage + 2
    && forall k :: Sent(s, k) <= Sent(s', k) && |Sent(s', k)| == |Sent(s, k)| + One(k == k0) + One(k == k1)
  }

  lemma SendTwo<D(!new), L, M>(p: Plan<D, L, M>, init: D -> L, run: seq<Net<D, L, M>>, c: D, stage: nat)
      returns (run': seq<Net<D, L, M>>)
    requires IsRun(p, init, run) && c in Last(run).nodes && stage < p.stages
    requires var n := Last(run).nodes[c]; n.stage == stage && n.posted == 2 * stage + 2 && n.sent == 2 * stage
    requires p.sendKey(c, 2 * stage) != p.sendKey(c, 2 * stage + 1)
    ensures IsRun(p, init, run') && TwoSends(p, Last(run), c, stage, Last(run'))
  {
    var s := Last(run);
    run' := SendOne(p, init, run, c, 2 * stage);
    var s1 := Last(run');
    run' := SendOne(p, init, run', c, 2 * stage + 1);
    var s2 := Last(run');
    forall k
      ensures Sent(s, k) <= Sent(s2, k)
      ensures |Sent(s2, k)| == |Sent(s, k)| + One(k == p.sendKey(c, 2 * stage)) + One(k == p.sendKey(c, 2 * stage + 1))
    {
      assert Sent(s, k) <= Sent(s1, k) <= Sent(s2, k);
    }
  }

  lemma Wait<D(!new), L, M>(p: Plan<D, L, M>, init: D -> L, run: seq<Net<D, L, M>>, c: D)
      returns (run': seq<Net<D, L, M>>)
    requires IsRun(p, init, run) && CanComplete(p, Last(run), c)
    ensures IsRun(p, init, run')
    ensures Last(run').out == Last(run).out && Last(run').posts == Last(run).posts
    ensures Last(run').nodes.Keys == Last(run).nodes.Keys
    ensures Idle(Last(run').nodes, c, Last(run).nodes[c].stage + 1)
    ensures forall b :: b in Last(run).nodes && b != c ==> Last(run').nodes[b] == Last(run).nodes[b]
  {
    var s' := Complete(p, Last(run), c);
    ExtendRun(p, init, run, c, s');
    run' := run + [s'];
  }

  // ----- all processes -----

  /** Within a stage no two sends name one channel. */
  ghost predicate StageApart<D(!new), L, M>(p: Plan<D, L, M>, stage: nat) {
    forall c, c', e: nat, e': nat {:trigger p.sendKey(c, e), p.sendKey(c', e')} ::
      c in p.doms && c' in p.doms && e / 2 == stage && e' / 2 == stage && p.sendKey(c, e) == p.sendKey(c', e') ==>
          c == c' && e == e'
  }

  ghost function RecvKeys<D(!new), L, M>(p: Plan<D, L, M>, stage: nat, ds: set<D>): set<Key> {
    (set c | c in ds :: p.recvKey(c, 2 * stage)) + (set c | c in ds :: p.recvKey(c, 2 * stage + 1))
  }

  ghost function SendKeys<D(!new), L, M>(p: Plan<D, L, M>, stage: nat, ds: set<D>): set<Key> {
    (set c | c in ds :: p.sendKey(c, 2 * stage)) + (set c | c in ds :: p.sendKey(c, 2 * stage + 1))
  }

  /** Receives of a stage are kept apart as its sends are. */
  lemma RecvsApart<D(!new), L, M>(p: Plan<D, L, M>, stage: nat, c: D, e: nat, c': D, e': nat)
    requires Symmetric(p) && StageApart(p, stage) && c in p.doms && c' in p.doms && e / 2 == stage && e' / 2 == stage
    requires p.recvKey(c, e) == p.recvKey(c', e')
    ensures c == c' && e == e'
  {
    assert SymmetricAt(p, c, e) && SymmetricAt(p, c', e');
    assert p.sendKey(p.source(c, e), e) == p.sendKey(p.source(c', e'), e');
  }

  /** The channels a stage receives on are those it sends on. */
  lemma SameKeys<D(!new), L, M>(p: Plan<D, L, M>, stage: nat)
    requires Symmetric(p)
    ensures RecvKeys(p, stage, p.doms) == SendKeys(p, stage, p.doms)
  {
    forall c | c in p.doms
      ensures p.recvKey(c, 2 * stage) in SendKeys(p, stage, p.doms)
          && p.recvKey(c, 2 * stage + 1) in SendKeys(p, stage, p.doms)
      ensures p.sendKey(c, 2 * stage) in RecvKeys(p, stage, p.doms)
          && p.sendKey(c, 2 * stage + 1) in RecvKeys(p, stage, p.doms)
    {
      assert SymmetricAt(p, c, 2 * stage) && SymmetricAt(p, c, 2 * stage + 1);
    }
  }

  /** c has posted its receives behind as many as there were in state s. */
  ghost predicate Posted<D(!new), L, M>(p: Plan<D, L, M>, stage: nat, c: D, s: Net<D, L, M>, s': Net<D, L, M>) {
    && c in s'.nodes
    && var n := s'.nodes[c];
       n.stage == stage && n.posted == 2 * stage + 2 && n.sent == 2 * stage
       && n.slot == [Posts(s, p.recvKey(c, 2 * stage)), Posts(s, p.recvKey(c, 2 * stage + 1))]
  }

  ghost predicate PostsAt<D(!new), L, M>(p: Plan<D, L, M>, stage: nat, ds: set<D>, s: Net<D, L, M>,
      s': Net<D, L, M>, k: Key) {
    Posts(s', k) == Posts(s, k) + One(k in RecvKeys(p, stage, ds))
  }

  ghost predicate AllPosted<D(!new), L, M>(p: Plan<D, L, M>, stage: nat, ds: set<D>, s: Net<D, L, M>,
      s': Net<D, L, M>) {
    && s'.nodes.Keys == s.nodes.Keys && s'.out == s.out
    && (forall c :: c in ds ==> Posted(p, stage, c, s, s'))
    && (forall c :: c in s.nodes && c !in ds ==> s'.nodes[c] == s.nodes[c])
    && forall k {:trigger PostsAt(p, stage, ds, s, s', k)} :: PostsAt(p, stage, ds, s, s', k)
  }

  lemma OneMorePosted<D(!new), L, M>(p: Plan<D, L, M>, stage: nat, ds: set<D>, c: D, s: Net<D, L, M>,
      s1: Net<D, L, M>, s2: Net<D, L, M>)
    requires Symmetric(p) && StageApart(p, stage) && ds <= p.doms && c in p.doms && c !in ds && p.doms <= s.nodes.Keys
    requires AllPosted(p, stage, ds, s, s1) && TwoPosts(p, s1, c, stage, s2)
    ensures AllPosted(p, stage, ds + {c}, s, s2)
  {
    var k0, k1 := p.recvKey(c, 2 * stage), p.recvKey(c, 2 * stage + 1);
    NewRecvKeys(p, stage, ds, c);
    forall k ensures PostsAt(p, stage, ds + {c}, s, s2, k) {
      assert PostsAt(p, stage, ds, s, s1, k);
      assert k in RecvKeys(p, stage, ds + {c}) <==> k in RecvKeys(p, stage, ds) || k == k0 || k == k1;
    }
    assert PostsAt(p, stage, ds, s, s1, k0) && PostsAt(p, stage, ds, s, s1, k1);
    forall b | b in ds + {c} ensures Posted(p, stage, b, s, s2) {
      assert b in ds ==> Posted(p, stage, b, s, s1);
    }
  }

  lemma NewRecvKeys<D(!new), L, M>(p: Plan<D, L, M>, stage: nat, ds: set<D>, c: D)
    requires Symmetric(p) && StageApart(p, stage) && ds <= p.doms && c in p.doms && c !in ds
    ensures p.recvKey(c, 2 * stage) != p.recvKey(c, 2 * stage + 1)
    ensures p.recvKey(c, 2 * stage) !in RecvKeys(p, stage, ds) && p.recvKey(c, 2 * stage + 1) !in RecvKeys(p, stage, ds)
  {
    var e := 2 * stage;
    assert e / 2 == stage && (e + 1) / 2 == stage;
    if p.recvKey(c, e) == p.recvKey(c, e + 1) {
      RecvsApart(p, stage, c, e, c, e + 1);
    }
    forall b | b in ds
      ensures p.recvKey(b, e) != p.recvKey(c, e) && p.recvKey(b, e) != p.recvKey(c, e + 1)
      ensures p.recvKey(b, e + 1) != p.recvKey(c, e) && p.recvKey(b, e + 1) != p.recvKey(c, e + 1)
    {
      if p.recvKey(b, e) == p.recvKey(c, e) { RecvsApart(p, stage, b, e, c, e); }
      if p.recvKey(b, e) == p.recvKey(c, e + 1) { RecvsApart(p, stage, b, e, c, e + 1); }
      if p.recvKey(b, e + 1) == p.recvKey(c, e) { RecvsApart(p, stage, b, e + 1, c, e); }
      if p.recvKey(b, e + 1) == p.recvKey(c, e + 1) { RecvsApart(p, stage, b, e + 1, c, e + 1); }
    }
  }

  lemma PostOneMore<D(!new), L, M>(p: Plan<D, L, M>, init: D -> L, s: Net<D, L, M>, run: seq<Net<D, L, M>>,
      stage: nat, ds: set<D>, c: D)
      returns (run': seq<Net<D, L, M>>)
    requires IsRun(p, init, run) && Symmetric(p) && StageApart(p, stage) && stage < p.stages
    requires ds <= p.doms && c in ds && Quiet(p, s, stage)
    requires AllPosted(p, stage, ds - {c}, s, Last(run))
    ensures IsRun(p, init, run') && AllPosted(p, stage, ds, s, Last(run'))
  {
    var rest := ds - {c};
    NewRecvKeys(p, stage, rest, c);
    assert Idle(s.nodes, c, stage);
    assert Last(run).nodes[c] == s.nodes[c];
    run' := PostTwo(p, init, run, c, stage);
    OneMorePosted(p, stage, rest, c, s, Last(run), Last(run'));
    assert rest + {c} == ds;
  }

  lemma NothingPosted<D(!new), L, M>(p: Plan<D, L, M>, stage: nat, s: Net<D, L, M>)
    ensures AllPosted(p, stage, {}, s, s)
  {
    forall k ensures PostsAt(p, stage, {}, s, s, k) {
    }
  }

  /** All processes of ds post their receives. */
  lemma {:induction false} PostAll<D(!new), L, M>(p: Plan<D, L, M>, init: D -> L, run: seq<Net<D, L, M>>,
      stage: nat, ds: set<D>)
      returns (run': seq<Net<D, L, M>>)
    requires IsRun(p, init, run) && Symmetric(p) && StageApart(p, stage) && stage < p.stages
    requires ds <= p.doms && Quiet(p, Last(run), stage)
    ensures IsRun(p, init, run') && AllPosted(p, stage, ds, Last(run), Last(run'))
    decreases |ds|
  {
    if ds == {} {
      run' := run;
      NothingPosted(p, stage, Last(run));
    } else {
      var c :| c in ds;
      var run1 := PostAll(p, init, run, stage, ds - {c});
      run' := PostOneMore(p, init, Last(run), run1, stage, ds, c);
    }
  }

  // ----- all send -----

  ghost predicate SentTwo<D, L>(before: map<D, Node<L>>, after: map<D, Node<L>>, c: D, stage: nat) {
    && c in before && c in after && after[c].stage == stage && after[c].slot == before[c].slot
    && after[c].posted == 2 * stage + 2 && after[c].sent == 2 * stage + 2
  }

  ghost predicate SendsAt<D(!new), L, M>(p: Plan<D, L, M>, stage: nat, ds: set<D>, s: Net<D, L, M>,
      s': Net<D, L, M>, k: Key) {
    |Sent(s', k)| == |Sent(s, k)| + One(k in SendKeys(p, stage, ds))
  }

  ghost predicate AllSent<D(!new), L, M>(p: Plan<D, L, M>, stage: nat, ds: set<D>, s: Net<D, L, M>, s': Net<D, L, M>) {
    && s'.nodes.Keys == s.nodes.Keys && s'.posts == s.posts
    && (forall c :: c in ds ==> SentTwo(s.nodes, s'.nodes, c, stage))
    && (forall c :: c in s.nodes && c !in ds ==> s'.nodes[c] == s.nodes[c])
    && forall k {:trigger SendsAt(p, stage, ds, s, s', k)} :: SendsAt(p, stage, ds, s, s', k)
  }

  lemma NewSendKeys<D(!new), L, M>(p: Plan<D, L, M>, stage: nat, ds: set<D>, c: D)
    requires StageApart(p, stage) && ds <= p.doms && c in p.doms && c !in ds
    ensures p.sendKey(c, 2 * stage) != p.sendKey(c, 2 * stage + 1)
    ensures p.sendKey(c, 2 * stage) !in SendKeys(p, stage, ds) && p.sendKey(c, 2 * stage + 1) !in SendKeys(p, stage, ds)
  {
    var e := 2 * stage;
    assert e / 2 == stage && (e + 1) / 2 == stage;
  }

  lemma OneMoreSend<D(!new), L, M>(p: Plan<D, L, M>, stage: nat, ds: set<D>, c: D, s: Net<D, L, M>,
      s1: Net<D, L, M>, s2: Net<D, L, M>, k: Key)
    requires StageApart(p, stage) && ds <= p.doms && c in p.doms && c !in ds && c in s1.nodes
    requires SendsAt(p, stage, ds, s, s1, k) && TwoSends(p, s1, c, stage, s2)
    ensures SendsAt(p, stage, ds + {c}, s, s2, k)
  {
    var k0, k1 := p.sendKey(c, 2 * stage), p.sendKey(c, 2 * stage + 1);
    NewSendKeys(p, stage, ds, c);
    assert k in SendKeys(p, stage, ds + {c}) <==> k in SendKeys(p, stage, ds) || k == k0 || k == k1;
    assert Sent(s1, k) <= Sent(s2, k);
  }

  lemma OneMoreSent<D(!new), L, M>(p: Plan<D, L, M>, stage: nat, ds: set<D>, c: D, s: Net<D, L, M>,
      s1: Net<D, L, M>, s2: Net<D, L, M>)
    requires StageApart(p, stage) && ds <= p.doms && c in p.doms && c !in ds && p.doms <= s.nodes.Keys
    requires AllSent(p, stage, ds, s, s1) && s1.nodes[c].stage == stage && s1.nodes[c].posted == 2 * stage + 2
    requires TwoSends(p, s1, c, stage, s2)
    ensures AllSent(p, stage, ds + {c}, s, s2)
  {
    forall k ensures SendsAt(p, stage, ds + {c}, s, s2, k) {
      assert SendsAt(p, stage, ds, s, s1, k);
      OneMoreSend(p, stage, ds, c, s, s1, s2, k);
    }
    forall b | b in ds + {c} ensures SentTwo(s.nodes, s2.nodes, b, stage) {
      assert b in ds ==> SentTwo(s.nodes, s1.nodes, b, stage);
    }
  }

  ghost predicate ReadyToSend<D, L>(nodes: map<D, Node<L>>, c: D, stage: nat) {
    c in nodes && nodes[c].stage == stage && nodes[c].posted == 2 * stage + 2 && nodes[c].sent == 2 * stage
  }

  lemma SendOneMore<D(!new), L, M>(p: Plan<D, L, M>, init: D -> L, s: Net<D, L, M>, run: seq<Net<D, L, M>>,
      stage: nat, ds: set<D>, c: D)
      returns (run': seq<Net<D, L, M>>)
    requires IsRun(p, init, run) && StageApart(p, stage) && stage < p.stages
    requires c in ds && ds <= p.doms <= s.nodes.Keys && ReadyToSend(s.nodes, c, stage)
    requires AllSent(p, stage, ds - {c}, s, Last(run))
    ensures IsRun(p, init, run') && AllSent(p, stage, ds, s, Last(run'))
  {
    var rest := ds - {c};
    NewSendKeys(p, stage, rest, c);
    assert Last(run).nodes[c] == s.nodes[c];
    run' := SendTwo(p, init, run, c, stage);
    OneMoreSent(p, stage, rest, c, s, Last(run), Last(run'));
    assert rest + {c} == ds;
  }

  lemma NothingSent<D(!new), L, M>(p: Plan<D, L, M>, stage: nat, s: Net<D, L, M>)
    ensures AllSent(p, stage, {}, s, s)
  {
    forall k ensures SendsAt(p, stage, {}, s, s, k) {
    }
  }

  /** All processes of ds send. */
  lemma {:induction false} SendAll<D(!new), L, M>(p: Plan<D, L, M>, init: D -> L, run: seq<Net<D, L, M>>,
      stage: nat, ds: set<D>)
      returns (run': seq<Net<D, L, M>>)
    requires IsRun(p, init, run) && StageApart(p, stage) && stage < p.stages
    requires ds <= p.doms <= Last(run).nodes.Keys && forall c :: c in p.doms ==> ReadyToSend(Last(run).nodes, c, stage)
    ensures IsRun(p, init, run') && AllSent(p, stage, ds, Last(run), Last(run'))
    decreases |ds|
  {
    if ds == {} {
      run' := run;
      NothingSent(p, stage, Last(run));
    } else {
      var c :| c in ds;
      var run1 := SendAll(p, init, run, stage, ds - {c});
      run' := SendOneMore(p, init, Last(run), run1, stage, ds, c);
    }
  }

  // ----- all wait -----

  ghost predicate AllWaited<D(!new), L, M>(stage: nat, ds: set<D>, s: Net<D, L, M>, s': Net<D, L, M>) {
    && s'.nodes.Keys == s.nodes.Keys && s'.out == s.out && s'.posts == s.posts
    && (forall c :: c in ds ==> Idle(s'.nodes, c, stage + 1))
    && forall c :: c in s.nodes && c !in ds ==> s'.nodes[c] == s.nodes[c]
  }

  lemma WaitOneMore<D(!new), L, M>(p: Plan<D, L, M>, init: D -> L, s: Net<D, L, M>, run: seq<Net<D, L, M>>,
      stage: nat, ds: set<D>, c: D)
      returns (run': seq<Net<D, L, M>>)
    requires IsRun(p, init, run) && c in ds && AllWaited(stage, ds - {c}, s, Last(run))
    requires CanComplete(p, s, c) && s.nodes[c].stage == stage
    ensures IsRun(p, init, run') && AllWaited(stage, ds, s, Last(run'))
  {
    CompleteAgrees(p, s, Last(run), c);
    run' := Wait(p, init, run, c);
    forall b | b in ds ensures Idle(Last(run').nodes, b, stage + 1) {
      assert b != c ==> b in ds - {c};
    }
  }

  /** All processes of ds have their messages, and their waits return. */
  lemma {:induction false} WaitAll<D(!new), L, M>(p: Plan<D, L, M>, init: D -> L, run: seq<Net<D, L, M>>,
      stage: nat, ds: set<D>)
      returns (run': seq<Net<D, L, M>>)
    requires IsRun(p, init, run) && forall c :: c in ds ==>
        CanComplete(p, Last(run), c) && Last(run).nodes[c].stage == stage
    ensures IsRun(p, init, run') && AllWaited(stage, ds, Last(run), Last(run'))
    decreases |ds|
  {
    if ds == {} {
      run' := run;
    } else {
      var c :| c in ds;
      var run1 := WaitAll(p, init, run, stage, ds - {c});
      run' := WaitOneMore(p, init, Last(run), run1, stage, ds, c);
    }
  }

  lemma CompleteAgrees<D(!new), L, M>(p: Plan<D, L, M>, s: Net<D, L, M>, s': Net<D, L, M>, c: D)
    requires CanComplete(p, s, c) && c in s'.nodes && s'.nodes[c] == s.nodes[c] && s'.out == s.out
    ensures CanComplete(p, s', c)
  {
    var n := s.nodes[c];
    assert Sent(s', p.recvKey(c, 2 * n.stage)) == Sent(s, p.recvKey(c, 2 * n.stage));
    assert Sent(s', p.recvKey(c, 2 * n.stage + 1)) == Sent(s, p.recvKey(c, 2 * n.stage + 1));
  }

  // ----- a stage -----

  lemma BalancedAgain<D(!new), L, M>(p: Plan<D, L, M>, stage: nat, s: Net<D, L, M>, s1: Net<D, L, M>, s2: Net<D, L, M>)
    requires Symmetric(p) && Balanced(s) && AllPosted(p, stage, p.doms, s, s1) && AllSent(p, stage, p.doms, s1, s2)
    ensures Balanced(s2)
  {
    SameKeys(p, stage);
    forall k ensures |Sent(s2, k)| == Posts(s2, k) {
      assert SendsAt(p, stage, p.doms, s1, s2, k) && PostsAt(p, stage, p.doms, s, s1, k);
      assert Sent(s1, k) == Sent(s, k) && Posts(s2, k) == Posts(s1, k);
    }
  }

  lemma NobodyWaits<D(!new), L, M>(p: Plan<D, L, M>, stage: nat, s: Net<D, L, M>, s1: Net<D, L, M>,
      s2: Net<D, L, M>, c: D)
    requires Symmetric(p) && stage < p.stages && Balanced(s) && c in p.doms
    requires AllPosted(p, stage, p.doms, s, s1) && AllSent(p, stage, p.doms, s1, s2)
    ensures CanComplete(p, s2, c) && s2.nodes[c].stage == stage
  {
    assert Posted(p, stage, c, s, s1) && SentTwo(s1.nodes, s2.nodes, c, stage);
    Arrived(p, stage, s, s1, s2, c, 2 * stage);
    Arrived(p, stage, s, s1, s2, c, 2 * stage + 1);
  }

  /** After all have posted and sent, the channels are even again, and nobody waits. */
  lemma Matches<D(!new), L, M>(p: Plan<D, L, M>, stage: nat, s: Net<D, L, M>, s1: Net<D, L, M>, s2: Net<D, L, M>)
    requires Symmetric(p) && stage < p.stages && Balanced(s)
    requires AllPosted(p, stage, p.doms, s, s1) && AllSent(p, stage, p.doms, s1, s2)
    ensures Balanced(s2)
    ensures forall c :: c in p.doms ==> CanComplete(p, s2, c) && s2.nodes[c].stage == stage
  {
    BalancedAgain(p, stage, s, s1, s2);
    forall c | c in p.doms ensures CanComplete(p, s2, c) && s2.nodes[c].stage == stage {
      NobodyWaits(p, stage, s, s1, s2, c);
    }
  }

  lemma Arrived<D(!new), L, M>(p: Plan<D, L, M>, stage: nat, s: Net<D, L, M>, s1: Net<D, L, M>, s2: Net<D, L, M>,
      c: D, e: nat)
    requires Symmetric(p) && Balanced(s) && s1.out == s.out && AllSent(p, stage, p.doms, s1, s2)
    requires c in p.doms && (e == 2 * stage || e == 2 * stage + 1)
    ensures Posts(s, p.recvKey(c, e)) < |Sent(s2, p.recvKey(c, e))|
  {
    var k := p.recvKey(c, e);
    SameKeys(p, stage);
    assert k in RecvKeys(p, stage, p.doms);
    assert SendsAt(p, stage, p.doms, s1, s2, k) && Sent(s1, k) == Sent(s, k);
  }

  /** All processes complete a stage side by side. */
  lemma JointStage<D(!new), L, M>(p: Plan<D, L, M>, init: D -> L, run: seq<Net<D, L, M>>, stage: nat)
      returns (run': seq<Net<D, L, M>>)
    requires IsRun(p, init, run) && Quiet(p, Last(run), stage) && stage < p.stages && Symmetric(p)
        && StageApart(p, stage)
    ensures IsRun(p, init, run') && Quiet(p, Last(run'), stage + 1)
  {
    var s := Last(run);
    var run1 := PostAll(p, init, run, stage, p.doms);
    forall c | c in p.doms ensures ReadyToSend(Last(run1).nodes, c, stage) {
      assert Posted(p, stage, c, s, Last(run1));
    }
    var run2 := SendAll(p, init, run1, stage, p.doms);
    Matches(p, stage, s, Last(run1), Last(run2));
    run' := WaitAll(p, init, run2, stage, p.doms);
    SameCounts(Last(run2), Last(run'));
  }

  lemma SameCounts<D, L, M>(s: Net<D, L, M>, s': Net<D, L, M>)
    requires Balanced(s) && s'.out == s.out && s'.posts == s.posts
    ensures Balanced(s')
  {
    forall k ensures |Sent(s', k)| == Posts(s', k) {
      assert Sent(s', k) == Sent(s, k) && Posts(s', k) == Posts(s, k);
    }
  }

  lemma Begin<D(!new), L, M>(p: Plan<D, L, M>, init: D -> L) returns (run: seq<Net<D, L, M>>)
    ensures IsRun(p, init, run) && Quiet(p, Last(run), 0)
  {
    var s: Net<D, L, M> := Net(map c | c in p.doms :: Node(0, 0, 0, [], [], init(c)), map[], map[]);
    run := [s];
  }

  /** The lockstep run exists, up to any stage. */
  lemma {:induction false} SideBySide<D(!new), L, M>(p: Plan<D, L, M>, init: D -> L, stage: nat)
      returns (run: seq<Net<D, L, M>>)
    requires Symmetric(p) && stage <= p.stages && forall t: nat :: t < stage ==> StageApart(p, t)
    ensures IsRun(p, init, run) && Quiet(p, Last(run), stage)
    decreases stage
  {
    if stage == 0 {
      run := Begin(p, init);
    } else {
      run := SideBySide(p, init, stage - 1);
      run := JointStage(p, init, run, stage - 1);
    }
  }
}
