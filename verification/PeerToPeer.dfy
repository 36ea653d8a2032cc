/** Two ranks that exchange messages: every window slot of every thread has one send and one
    receive under way, whose completion callbacks post the next one. */
module PeerToPeer {
  import opened Counting

  datatype Bench = Bench(threads: nat, window: nat, nrep: nat)

  /** How often a callback chain posts its operation. */
  function Reps(b: Bench): nat { if b.nrep < 1 then 1 else b.nrep }

  /** A window slot of a thread of one of the two ranks. */
  datatype End = End(rank: bool, thread: nat, slot: nat)

  function Peer(e: End): End { End(!e.rank, e.thread, e.slot) }

  function TagOf(e: End): nat { e.thread + e.slot * 1000 }

  ghost predicate Within(b: Bench, e: End) { e.thread < b.threads && e.slot < b.window }

  ghost function Ends(b: Bench): set<End> {
    set r: bool, t: nat, i: nat | t < b.threads && i < b.window :: End(r, t, i)
  }

  /** A channel, named by its destination and tag. */
  datatype Key = Key(dst: bool, tag: nat)

  function SendKey(e: End): Key { Key(!e.rank, TagOf(e)) }

  function RecvKey(e: End): Key { Key(e.rank, TagOf(e)) }

  /** Message number `num` of a slot. */
  datatype Msg = Msg(from: End, num: nat)

  /** Sends posted and completed, receives posted and completed, and the positions of the
      pending send and receive on their channels.  The two completed counts are the callbacks'
      counters i. */
  datatype Node = Node(sends: nat, sdone: nat, spos: nat, recvs: nat, rdone: nat, rpos: nat)

  datatype State = State(nodes: map<End, Node>, out: map<Key, seq<Msg>>, posted: map<Key, nat>)

  function Sent(s: State, k: Key): seq<Msg> { if k in s.out then s.out[k] else [] }

  function Posted(s: State, k: Key): nat { if k in s.posted then s.posted[k] else 0 }

  ghost predicate Init(b: Bench, s: State) {
    && s.nodes.Keys == Ends(b) && s.out == map[] && s.posted == map[]
    && forall e :: e in s.nodes ==> s.nodes[e] == Node(0, 0, 0, 0, 0, 0)
  }

  // ----- steps -----

  function Recv(s: State, e: End, n: Node): State {
    var k := RecvKey(e);
    State(s.nodes[e := n.(recvs := n.recvs + 1, rpos := Posted(s, k))], s.out, s.posted[k := Posted(s, k) + 1])
  }

  function Send(s: State, e: End, n: Node): State {
    var k := SendKey(e);
    State(s.nodes[e := n.(sends := n.sends + 1, spos := |Sent(s, k)|)], s.out[k := Sent(s, k) + [Msg(e, n.sends)]],
        s.posted)
  }

  /** The loop of `send_recv` has come to the receive of slot e. */
  ghost predicate FirstRecv(s: State, e: End) {
    && e in s.nodes && s.nodes[e].recvs == 0
    && (e.slot > 0 ==>
          var before := End(e.rank, e.thread, e.slot - 1);
          before in s.nodes && s.nodes[before].sends > 0)
  }

  ghost predicate FirstSend(s: State, e: End) {
    e in s.nodes && s.nodes[e].recvs > 0 && s.nodes[e].sends == 0
  }

  /** A send may complete as soon as it is posted. */
  ghost predicate CanFinishSend(s: State, e: End) { e in s.nodes && s.nodes[e].sends > s.nodes[e].sdone }

  /** It must once its receive is posted. */
  ghost predicate MustFinishSend(s: State, e: End) { CanFinishSend(s, e) && s.nodes[e].spos < Posted(s, SendKey(e)) }

  ghost predicate CanFinishRecv(s: State, e: End) {
    e in s.nodes && s.nodes[e].recvs > s.nodes[e].rdone && s.nodes[e].rpos < |Sent(s, RecvKey(e))|
  }

  /** The callback of a send: count, and post again. */
  function SendCallback(b: Bench, s: State, e: End): State
    requires e in s.nodes
  {
    var n := s.nodes[e];
    var n' := n.(sdone := n.sdone + 1);
    if n'.sdone < b.nrep then Send(s, e, n') else s.(nodes := s.nodes[e := n'])
  }

  function RecvCallback(b: Bench, s: State, e: End): State
    requires e in s.nodes
  {
    var n := s.nodes[e];
    var n' := n.(rdone := n.rdone + 1);
    if n'.rdone < b.nrep then Recv(s, e, n') else s.(nodes := s.nodes[e := n'])
  }

  ghost predicate Step(b: Bench, s: State, e: End, s': State) {
    || (FirstRecv(s, e) && s' == Recv(s, e, s.nodes[e]))
    || (FirstSend(s, e) && s' == Send(s, e, s.nodes[e]))
    || (CanFinishSend(s, e) && s' == SendCallback(b, s, e))
    || (CanFinishRecv(s, e) && s' == RecvCallback(b, s, e))
  }

  ghost predicate Moves(b: Bench, s: State, s': State) { exists e :: Step(b, s, e, s') }

  ghost predicate IsRun(b: Bench, run: seq<State>) {
    && |run| > 0 && Init(b, run[0])
    && forall m :: 0 <= m < |run| - 1 ==> Moves(b, run[m], run[m + 1])
  }

  // ----- counts -----

  /** A chain that has started and has nothing pending has run its course. */
  ghost predicate ChainOk(b: Bench, posted: nat, done: nat) {
    done <= posted <= done + 1 && posted <= Reps(b) && (0 < posted == done ==> posted == Reps(b))
  }

  ghost predicate NodeOk(b: Bench, s: State, e: End)
    requires e in s.nodes
  {
    var n := s.nodes[e];
    && ChainOk(b, n.sends, n.sdone) && ChainOk(b, n.recvs, n.rdone)
    && (n.sends > 0 ==> n.recvs > 0)
    && (n.recvs > 0 && e.slot > 0 ==>
         var p := End(e.rank, e.thread, e.slot - 1);
         p in s.nodes && s.nodes[p].sends > 0)
  }

  ghost predicate CountsOk(b: Bench, s: State) {
    s.nodes.Keys == Ends(b) && forall e {:trigger NodeOk(b, s, e)} :: e in s.nodes ==> NodeOk(b, s, e)
  }

  lemma StepCounts(b: Bench, s: State, e: End, s': State)
    requires CountsOk(b, s) && Step(b, s, e, s')
    ensures CountsOk(b, s')
  {
    assert NodeOk(b, s, e);
    assert s'.nodes.Keys == s.nodes.Keys;
    forall f | f in s'.nodes ensures NodeOk(b, s', f) {
      assert NodeOk(b, s, f);
      assert f != e ==> s'.nodes[f] == s.nodes[f];
    }
  }

  lemma {:induction false} RunCounts(b: Bench, run: seq<State>, m: nat)
    requires IsRun(b, run) && m < |run|
    ensures CountsOk(b, run[m])
  {
    if m > 0 {
      RunCounts(b, run, m - 1);
      assert Moves(b, run[m - 1], run[m - 1 + 1]);
      var e :| Step(b, run[m - 1], e, run[m]);
      StepCounts(b, run[m - 1], e, run[m]);
    }
  }

  /** All slots of the thread have been posted and none of their operations is pending: what
      the loops around `send_recv` wait for. */
  ghost predicate Ready(b: Bench, s: State, rank: bool, thread: nat) {
    forall i: nat :: i < b.window ==>
      && End(rank, thread, i) in s.nodes
      && var n := s.nodes[End(rank, thread, i)];
         0 < n.sends == n.sdone && 0 < n.recvs == n.rdone
  }

  /** Exact message count: in every run, whatever the order of completions, and whether or not
      tags are distinct, a thread that is ready has sent and received exactly `nrep` messages
      on every slot; or one, if `nrep` is 0. */
  lemma ExactCount(b: Bench, run: seq<State>, m: nat, rank: bool, thread: nat, i: nat)
    requires IsRun(b, run) && m < |run| && Ready(b, run[m], rank, thread) && i < b.window
    ensures var e := End(rank, thread, i);
            && e in run[m].nodes
            && var n := run[m].nodes[e];
               n.sends == n.sdone == n.recvs == n.rdone == Reps(b)
  {
    RunCounts(b, run, m);
    assert NodeOk(b, run[m], End(rank, thread, i));
  }

  function Received(s: State): End -> nat { (e: End) => if e in s.nodes then s.nodes[e].rdone else 0 }

  /** When all threads are ready, the messages received are as many as the benchmark reports,
      threads times window times repetitions, exactly when `nrep` is at least 1. */
  lemma ReportedIff(b: Bench, run: seq<State>, m: nat)
    requires IsRun(b, run) && m < |run| && Ends(b) != {}
    requires forall r: bool, t: nat :: t < b.threads ==> Ready(b, run[m], r, t)
    ensures Total(Ends(b), Received(run[m])) == |Ends(b)| * b.nrep <==> b.nrep >= 1
  {
    forall e | e in Ends(b) ensures Received(run[m])(e) == Reps(b) {
      ExactCount(b, run, m, e.rank, e.thread, e.slot);
    }
    TotalBounds(Ends(b), Received(run[m]), Reps(b));
    if b.nrep < 1 {
      assert |Ends(b)| * Reps(b) == |Ends(b)| && |Ends(b)| * b.nrep == 0;
    }
  }

  // ----- tags -----

  ghost predicate DistinctTags(b: Bench) {
    forall e, f :: Within(b, e) && Within(b, f) && e.rank == f.rank && TagOf(e) == TagOf(f) ==> e == f
  }

  /** Tags tell threads and slots apart exactly when there are at most 1000 threads or a single
      slot. */
  lemma DistinctTagsIff(b: Bench)
    ensures DistinctTags(b) <==> b.threads <= 1000 || b.window <= 1
  {
    if !(b.threads <= 1000 || b.window <= 1) {
      var e, f := End(true, 1000, 0), End(true, 0, 1);
      assert Within(b, e) && Within(b, f) && TagOf(e) == TagOf(f);
    }
  }

  /** Each channel belongs to one slot of each rank. */
  ghost predicate ChannelOk(s: State, e: End)
    requires e in s.nodes
  {
    var n := s.nodes[e];
    var q := Sent(s, SendKey(e));
    && |q| == n.sends && (forall k :: 0 <= k < |q| ==> q[k] == Msg(e, k))
    && (n.sends > n.sdone ==> n.spos == n.sends - 1)
    && Posted(s, RecvKey(e)) == n.recvs
    && (n.recvs > n.rdone ==> n.rpos == n.recvs - 1)
  }

  ghost predicate ChannelsOk(b: Bench, s: State) {
    s.nodes.Keys == Ends(b) && forall e {:trigger ChannelOk(s, e)} :: e in s.nodes ==> ChannelOk(s, e)
  }

  lemma OwnChannel(b: Bench, s: State, e: End, s': State)
    requires e in s.nodes && NodeOk(b, s, e) && ChannelOk(s, e) && Step(b, s, e, s')
    ensures e in s'.nodes && ChannelOk(s', e)
  {
  }

  lemma OtherChannel(b: Bench, s: State, e: End, s': State, f: End)
    requires f in s.nodes && f != e && ChannelOk(s, f) && Step(b, s, e, s')
    requires SendKey(f) != SendKey(e) && RecvKey(f) != RecvKey(e)
    ensures f in s'.nodes && ChannelOk(s', f)
  {
    assert s'.nodes[f] == s.nodes[f];
    assert Sent(s', SendKey(f)) == Sent(s, SendKey(f)) && Posted(s', RecvKey(f)) == Posted(s, RecvKey(f));
  }

  lemma StepChannels(b: Bench, s: State, e: End, s': State)
    requires DistinctTags(b) && CountsOk(b, s) && ChannelsOk(b, s) && Step(b, s, e, s')
    ensures ChannelsOk(b, s')
  {
    assert NodeOk(b, s, e);
    StepCounts(b, s, e, s');
    forall f | f in s'.nodes ensures ChannelOk(s', f) {
      assert ChannelOk(s, f);
      if f == e {
        OwnChannel(b, s, e, s');
      } else {
        assert Within(b, e) && Within(b, f);
        OtherChannel(b, s, e, s', f);
      }
    }
  }

  lemma {:induction false} RunChannels(b: Bench, run: seq<State>, m: nat)
    requires DistinctTags(b) && IsRun(b, run) && m < |run|
    ensures CountsOk(b, run[m]) && ChannelsOk(b, run[m])
  {
    RunCounts(b, run, m);
    if m > 0 {
      RunChannels(b, run, m - 1);
      assert Moves(b, run[m - 1], run[m - 1 + 1]);
      var e :| Step(b, run[m - 1], e, run[m]);
      StepChannels(b, run[m - 1], e, run[m]);
    } else {
      forall e | e in run[0].nodes ensures ChannelOk(run[0], e) {
      }
    }
  }

  /** With distinct tags, the k-th receive of a slot gets the k-th message of the same slot of
      the peer. */
  lemma OwnMessages(b: Bench, run: seq<State>, m: nat, e: End)
    requires DistinctTags(b) && IsRun(b, run) && m < |run| && CanFinishRecv(run[m], e)
    ensures Sent(run[m], RecvKey(e))[run[m].nodes[e].rpos] == Msg(Peer(e), run[m].nodes[e].rdone)
  {
    RunChannels(b, run, m);
    assert NodeOk(b, run[m], e) && ChannelOk(run[m], e) && ChannelOk(run[m], Peer(e));
  }

  // ----- progress -----

  /** A step that will be taken even if no send is buffered. */
  ghost predicate CanMove(s: State, e: End) {
    FirstRecv(s, e) || FirstSend(s, e) || MustFinishSend(s, e) || CanFinishRecv(s, e)
  }

  /** The loop of the thread of an unposted slot can go on. */
  lemma {:induction false} LoopGoesOn(b: Bench, s: State, e: End) returns (f: End)
    requires CountsOk(b, s) && e in s.nodes && s.nodes[e].sends == 0
    ensures CanMove(s, f)
    decreases e.slot
  {
    f := e;
    assert NodeOk(b, s, e);
    if s.nodes[e].recvs == 0 && e.slot > 0 {
      var p := End(e.rank, e.thread, e.slot - 1);
      assert Within(b, p);
      if s.nodes[p].sends == 0 {
        f := LoopGoesOn(b, s, p);
      }
    }
  }

  ghost predicate Finished(b: Bench, s: State) {
    forall e :: e in Ends(b) ==> e in s.nodes && s.nodes[e].sdone == s.nodes[e].rdone == Reps(b)
  }

  // ----- channels that several slots may share -----

  /** The slots that send on channel k; their peers receive on it. */
  ghost function Senders(b: Bench, k: Key): set<End> { set e | e in Ends(b) && SendKey(e) == k }

  function SendsOf(s: State): End -> nat { (e: End) => if e in s.nodes then s.nodes[e].sends else 0 }

  function PeerRecvsOf(s: State): End -> nat { (e: End) => if Peer(e) in s.nodes then s.nodes[Peer(e)].recvs else 0 }

  /** A channel holds what its slots have posted together. */
  ghost predicate QueueOk(b: Bench, s: State, k: Key) {
    && |Sent(s, k)| == Total(Senders(b, k), SendsOf(s))
    && Posted(s, k) == Total(Senders(b, k), PeerRecvsOf(s))
  }

  /** What is pending has a place on its channel. */
  ghost predicate PendingOk(s: State, e: End)
    requires e in s.nodes
  {
    var n := s.nodes[e];
    && (n.sends > n.sdone ==> n.spos < |Sent(s, SendKey(e))|)
    && (n.recvs > n.rdone ==> n.rpos < Posted(s, RecvKey(e)))
  }

  ghost predicate QueuesOk(b: Bench, s: State) {
    && (forall k {:trigger QueueOk(b, s, k)} :: QueueOk(b, s, k))
    && s.nodes.Keys == Ends(b)
    && forall e {:trigger PendingOk(s, e)} :: e in s.nodes ==> PendingOk(s, e)
  }

  /** What a step does to the queues: at most one post, by e. */
  ghost predicate PostsAtMost(s: State, e: End, s': State) {
    && e in s.nodes && s'.nodes.Keys == s.nodes.Keys
    && (forall f :: f in s.nodes && f != e ==> s'.nodes[f] == s.nodes[f])
    && var n, n' := s.nodes[e], s'.nodes[e];
       && n.sdone <= n'.sdone && n.rdone <= n'.rdone
       && (forall k :: |Sent(s', k)| == |Sent(s, k)| + (if k == SendKey(e) then n'.sends - n.sends else 0))
       && (forall k :: Posted(s', k) == Posted(s, k) + (if k == RecvKey(e) then n'.recvs - n.recvs else 0))
       && n.sends <= n'.sends <= n.sends + 1
       && n'.spos == (if n'.sends == n.sends then n.spos else |Sent(s, SendKey(e))|)
       && n.recvs <= n'.recvs <= n.recvs + 1
       && n'.rpos == (if n'.recvs == n.recvs then n.rpos else Posted(s, RecvKey(e)))
  }

  lemma RecvPosts(s: State, e: End, n: Node)
    requires e in s.nodes && n.sends == s.nodes[e].sends && n.spos == s.nodes[e].spos && n.recvs == s.nodes[e].recvs
    requires s.nodes[e].sdone <= n.sdone && s.nodes[e].rdone <= n.rdone
    ensures PostsAtMost(s, e, Recv(s, e, n))
  {
  }

  lemma SendPosts(s: State, e: End, n: Node)
    requires e in s.nodes && n.recvs == s.nodes[e].recvs && n.rpos == s.nodes[e].rpos && n.sends == s.nodes[e].sends
    requires s.nodes[e].sdone <= n.sdone && s.nodes[e].rdone <= n.rdone
    ensures PostsAtMost(s, e, Send(s, e, n))
  {
  }

  lemma StepPosts(b: Bench, s: State, e: End, s': State)
    requires Step(b, s, e, s')
    ensures PostsAtMost(s, e, s')
  {
    var n := s.nodes[e];
    if s'.posted != s.posted {
      RecvPosts(s, e, if s' == Recv(s, e, n) then n else n.(rdone := n.rdone + 1));
    } else if s'.out != s.out {
      SendPosts(s, e, if s' == Send(s, e, n) then n else n.(sdone := n.sdone + 1));
    }
  }

  lemma SendsQueue(b: Bench, s: State, e: End, s': State, k: Key)
    requires s.nodes.Keys == Ends(b) && PostsAtMost(s, e, s') && |Sent(s, k)| == Total(Senders(b, k), SendsOf(s))
    ensures |Sent(s', k)| == Total(Senders(b, k), SendsOf(s'))
  {
    if s'.nodes[e].sends == s.nodes[e].sends {
      TotalAgree(Senders(b, k), SendsOf(s), SendsOf(s'));
    } else {
      TotalStep(Senders(b, k), SendsOf(s), SendsOf(s'), e);
    }
  }

  lemma RecvsQueue(b: Bench, s: State, e: End, s': State, k: Key)
    requires s.nodes.Keys == Ends(b) && PostsAtMost(s, e, s') && Posted(s, k) == Total(Senders(b, k), PeerRecvsOf(s))
    ensures Posted(s', k) == Total(Senders(b, k), PeerRecvsOf(s'))
  {
    var f := Peer(e);
    assert Peer(f) == e && f in Ends(b);
    if s'.nodes[e].recvs == s.nodes[e].recvs {
      TotalAgree(Senders(b, k), PeerRecvsOf(s), PeerRecvsOf(s'));
    } else {
      assert f in Senders(b, k) <==> RecvKey(e) == k;
      TotalStep(Senders(b, k), PeerRecvsOf(s), PeerRecvsOf(s'), f);
    }
  }

  lemma StepQueues(b: Bench, s: State, e: End, s': State)
    requires QueuesOk(b, s) && Step(b, s, e, s')
    ensures QueuesOk(b, s')
  {
    StepPosts(b, s, e, s');
    forall k ensures QueueOk(b, s', k) {
      assert QueueOk(b, s, k);
      SendsQueue(b, s, e, s', k);
      RecvsQueue(b, s, e, s', k);
    }
    forall f | f in s'.nodes ensures PendingOk(s', f) {
      assert PendingOk(s, f);
    }
  }

  lemma InitQueues(b: Bench, s: State)
    requires Init(b, s)
    ensures QueuesOk(b, s)
  {
    forall k ensures QueueOk(b, s, k) {
      TotalBounds(Senders(b, k), SendsOf(s), 0);
      TotalBounds(Senders(b, k), PeerRecvsOf(s), 0);
    }
  }

  lemma {:induction false} RunQueues(b: Bench, run: seq<State>, m: nat)
    requires IsRun(b, run) && m < |run|
    ensures QueuesOk(b, run[m])
  {
    if m == 0 {
      InitQueues(b, run[0]);
    } else {
      RunQueues(b, run, m - 1);
      assert Moves(b, run[m - 1], run[m - 1 + 1]);
      var e :| Step(b, run[m - 1], e, run[m]);
      StepQueues(b, run[m - 1], e, run[m]);
    }
  }

  /** If no send is pending on channel k, all messages there will ever be have been sent, and
      no more receives can have been posted. */
  lemma NoSendPending(b: Bench, s: State, k: Key)
    requires CountsOk(b, s) && QueuesOk(b, s) && forall e :: e in s.nodes ==> s.nodes[e].sends > 0
    requires forall e :: e in Senders(b, k) ==> !CanFinishSend(s, e)
    ensures Posted(s, k) <= |Sent(s, k)|
  {
    var ds := Senders(b, k);
    forall e | e in ds ensures SendsOf(s)(e) == Reps(b) && PeerRecvsOf(s)(e) <= Reps(b) {
      assert NodeOk(b, s, e) && Peer(e) in Ends(b) && NodeOk(b, s, Peer(e));
    }
    TotalBounds(ds, SendsOf(s), Reps(b));
    TotalBounds(ds, PeerRecvsOf(s), Reps(b));
    assert QueueOk(b, s, k);
  }

  /** If no receive is pending on it, no more messages can have been sent. */
  lemma NoRecvPending(b: Bench, s: State, k: Key)
    requires CountsOk(b, s) && QueuesOk(b, s) && forall e :: e in s.nodes ==> s.nodes[e].sends > 0
    requires forall e :: e in Senders(b, k) ==> s.nodes[Peer(e)].recvs == s.nodes[Peer(e)].rdone
    ensures |Sent(s, k)| <= Posted(s, k)
  {
    var ds := Senders(b, k);
    forall e | e in ds ensures PeerRecvsOf(s)(e) == Reps(b) && SendsOf(s)(e) <= Reps(b) {
      assert NodeOk(b, s, e) && Peer(e) in Ends(b) && NodeOk(b, s, Peer(e));
    }
    TotalBounds(ds, SendsOf(s), Reps(b));
    TotalBounds(ds, PeerRecvsOf(s), Reps(b));
    assert QueueOk(b, s, k);
  }

  /** On a channel on which something is pending, something moves. */
  lemma ChannelMoves(b: Bench, s: State, k: Key, e: End) returns (f: End)
    requires CountsOk(b, s) && QueuesOk(b, s) && (forall d :: d in s.nodes ==> s.nodes[d].sends > 0)
    requires e in Senders(b, k) && (CanFinishSend(s, e) || s.nodes[Peer(e)].recvs > s.nodes[Peer(e)].rdone)
    ensures CanMove(s, f)
  {
    if |Sent(s, k)| <= Posted(s, k) {
      if d :| d in Senders(b, k) && CanFinishSend(s, d) {
        assert PendingOk(s, d);
        f := d;
      } else {
        NoSendPending(b, s, k);
        f := Peer(e);
        assert PendingOk(s, f);
      }
    } else {
      if forall d :: d in Senders(b, k) ==> s.nodes[Peer(d)].recvs == s.nodes[Peer(d)].rdone {
        NoRecvPending(b, s, k);
      }
      var d :| d in Senders(b, k) && s.nodes[Peer(d)].recvs != s.nodes[Peer(d)].rdone;
      f := Peer(d);
      assert PendingOk(s, f) && NodeOk(b, s, f);
    }
  }

  /** No deadlock: in every reachable unfinished state some slot moves, even if no send is
      buffered, and however many slots share a tag. */
  lemma SomeEndMoves(b: Bench, run: seq<State>, m: nat)
    requires IsRun(b, run) && m < |run| && !Finished(b, run[m])
    ensures exists e :: CanMove(run[m], e)
  {
    RunCounts(b, run, m);
    RunQueues(b, run, m);
    var s := run[m];
    if e :| e in s.nodes && s.nodes[e].sends == 0 {
      var f := LoopGoesOn(b, s, e);
    } else {
      var e :| e in Ends(b) && !(s.nodes[e].sdone == s.nodes[e].rdone == Reps(b));
      assert NodeOk(b, s, e);
      assert Peer(Peer(e)) == e && Peer(e) in Ends(b);
      if CanFinishSend(s, e) {
        var f := ChannelMoves(b, s, SendKey(e), e);
      } else {
        var f := ChannelMoves(b, s, RecvKey(e), Peer(e));
      }
    }
  }

  function Work(s: State): End -> nat {
    (e: End) =>
      if e in s.nodes then
        var n := s.nodes[e];
        n.sdone + n.rdone + One(n.sends > 0) + One(n.recvs > 0)
      else 0
  }

  lemma StepWork(b: Bench, s: State, e: End, s': State)
    requires CountsOk(b, s) && Step(b, s, e, s')
    ensures e in Ends(b) && Total(Ends(b), Work(s')) == Total(Ends(b), Work(s)) + 1
  {
    assert NodeOk(b, s, e);
    assert Work(s')(e) == Work(s)(e) + 1;
    TotalStep(Ends(b), Work(s), Work(s'), e);
  }

  lemma {:induction false} WorkIsRunLength(b: Bench, run: seq<State>, m: nat)
    requires IsRun(b, run) && m < |run|
    ensures Total(Ends(b), Work(run[m])) == m
  {
    if m == 0 {
      TotalBounds(Ends(b), Work(run[0]), 0);
    } else {
      WorkIsRunLength(b, run, m - 1);
      RunCounts(b, run, m - 1);
      assert Moves(b, run[m - 1], run[m - 1 + 1]);
      var e :| Step(b, run[m - 1], e, run[m]);
      StepWork(b, run[m - 1], e, run[m]);
    }
  }

  lemma WorkBound(b: Bench, s: State, e: End)
    requires CountsOk(b, s) && e in s.nodes
    ensures Work(s)(e) <= 2 * Reps(b) + 2
    ensures Work(s)(e) == 2 * Reps(b) + 2 <==> s.nodes[e].sdone == s.nodes[e].rdone == Reps(b)
  {
    assert NodeOk(b, s, e);
  }

  /** Every run ends: it takes two posts and twice `nrep` completions a slot, no more and no
      fewer. */
  lemma BenchTerminates(b: Bench, run: seq<State>)
    requires IsRun(b, run)
    ensures |run| - 1 <= |Ends(b)| * (2 * Reps(b) + 2)
    ensures Finished(b, run[|run| - 1]) <==> |run| - 1 == |Ends(b)| * (2 * Reps(b) + 2)
  {
    var s := run[|run| - 1];
    RunCounts(b, run, |run| - 1);
    WorkIsRunLength(b, run, |run| - 1);
    RunWorkBound(b, s);
  }

  lemma RunWorkBound(b: Bench, s: State)
    requires CountsOk(b, s)
    ensures Total(Ends(b), Work(s)) <= |Ends(b)| * (2 * Reps(b) + 2)
    ensures Finished(b, s) <==> Total(Ends(b), Work(s)) == |Ends(b)| * (2 * Reps(b) + 2)
  {
    forall e | e in Ends(b)
      ensures Work(s)(e) <= 2 * Reps(b) + 2
      ensures Work(s)(e) == 2 * Reps(b) + 2 <==> s.nodes[e].sdone == s.nodes[e].rdone == Reps(b)
    {
      WorkBound(b, s, e);
    }
    TotalBounds(Ends(b), Work(s), 2 * Reps(b) + 2);
  }

  lemma CanMoveSteps(b: Bench, s: State, e: End)
    requires CanMove(s, e)
    ensures exists s' :: Step(b, s, e, s')
  {
    if FirstRecv(s, e) {
      assert Step(b, s, e, Recv(s, e, s.nodes[e]));
    } else if FirstSend(s, e) {
      assert Step(b, s, e, Send(s, e, s.nodes[e]));
    } else if MustFinishSend(s, e) {
      assert Step(b, s, e, SendCallback(b, s, e));
    } else {
      assert Step(b, s, e, RecvCallback(b, s, e));
    }
  }

  lemma ExtendRun(b: Bench, run: seq<State>, s: State)
    requires IsRun(b, run) && Moves(b, run[|run| - 1], s)
    ensures IsRun(b, run + [s])
  {
    var more := run + [s];
    forall m | 0 <= m < |more| - 1 ensures Moves(b, more[m], more[m + 1]) {
      if m < |run| - 1 {
        assert Moves(b, run[m], run[m + 1]);
      }
    }
  }

  /** However a run has begun, it can be continued until all slots have finished. */
  lemma {:induction false} BenchCompletes(b: Bench, run: seq<State>) returns (more: seq<State>)
    requires IsRun(b, run)
    ensures run <= more && IsRun(b, more) && Finished(b, more[|more| - 1])
    decreases |Ends(b)| * (2 * Reps(b) + 2) + 1 - |run|
  {
    BenchTerminates(b, run);
    var s := run[|run| - 1];
    if Finished(b, s) {
      more := run;
    } else {
      SomeEndMoves(b, run, |run| - 1);
      var e :| CanMove(s, e);
      CanMoveSteps(b, s, e);
      var s' :| Step(b, s, e, s');
      ExtendRun(b, run, s');
      more := BenchCompletes(b, run + [s']);
    }
  }
}
