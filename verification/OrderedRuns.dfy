/** Plans whose runs cannot mismatch a message: wherever two messages use one channel, the
    exchange itself forces the order in which they are sent and received.  In their runs
    asynchrony does not matter. */
module OrderedRuns {
  import opened Counting
  import opened MessagePassing

  // ----- what one process's progress says about the others -----

  /** The moves a process has made before it posts receive e, and before it posts send e. */
  function ReceiveMove(e: nat): nat { 5 * (e / 2) + e % 2 }

  function SendMove(e: nat): nat { 5 * (e / 2) + 2 + e % 2 }

  function Max(a: nat, b: nat): nat { if a < b then b else a }

  /** The moves b must have made when c has made i: a wait is over only when the two
      sources have sent. */
  ghost function Needs<D(!new), L, M>(p: Plan<D, L, M>, c: D, i: nat, b: D): nat {
    if b == c then i
    else if i == 0 then 0
    else if i % 5 != 0 then Needs(p, c, i - 1, b)
    else
      Max(Needs(p, c, i - 1, b),
          Max(Needs(p, p.source(c, 2 * (i / 5) - 2), i - 2, b), Needs(p, p.source(c, 2 * (i / 5) - 1), i - 1, b)))
  }

  lemma NeedsOwn<D(!new), L, M>(p: Plan<D, L, M>, c: D, i: nat)
    ensures Needs(p, c, i, c) == i
  {
  }

  /** Nobody needs anyone else to have got as far as itself. */
  lemma {:induction false} NeedsLess<D(!new), L, M>(p: Plan<D, L, M>, c: D, i: nat, b: D)
    ensures Needs(p, c, i, b) <= i
    ensures b != c && 0 < i ==> Needs(p, c, i, b) < i
  {
    if b != c && 0 < i {
      NeedsLess(p, c, i - 1, b);
      if i % 5 == 0 {
        NeedsLess(p, p.source(c, 2 * (i / 5) - 2), i - 2, b);
        NeedsLess(p, p.source(c, 2 * (i / 5) - 1), i - 1, b);
      }
    }
  }

  lemma NeedsNext<D(!new), L, M>(p: Plan<D, L, M>, c: D, i: nat, b: D)
    ensures Needs(p, c, i, b) <= Needs(p, c, i + 1, b)
  {
  }

  lemma {:induction false} NeedsMonotone<D(!new), L, M>(p: Plan<D, L, M>, c: D, i: nat, j: nat, b: D)
    requires i <= j
    ensures Needs(p, c, i, b) <= Needs(p, c, j, b)
    decreases j - i
  {
    if i < j {
      NeedsMonotone(p, c, i, j - 1, b);
      NeedsNext(p, c, j - 1, b);
    }
  }

  /** The wait of stage e / 2 needs what the source of event e needs to send. */
  lemma NeedsSource<D(!new), L, M>(p: Plan<D, L, M>, c: D, e: nat, b: D)
    requires b != c
    ensures Needs(p, p.source(c, e), SendMove(e) + 1, b) <= Needs(p, c, 5 * (e / 2) + 5, b)
  {
    var i := 5 * (e / 2) + 5;
    assert i % 5 == 0 && i / 5 == e / 2 + 1;
    assert e == 2 * (i / 5) - 2 || e == 2 * (i / 5) - 1;
  }

  /** What a source needed before a stage, its receiver needs after it. */
  lemma NeedsOfSource<D(!new), L, M>(p: Plan<D, L, M>, c: D, a: D, s: nat, j: nat, b: D)
    requires j < 2 && a == p.source(c, 2 * s + j)
    ensures Needs(p, a, 5 * s, b) <= Needs(p, c, 5 * s + 5, b)
  {
    assert (2 * s + j) / 2 == s;
    if b == c {
      NeedsOwn(p, c, 5 * s + 5);
      NeedsLess(p, a, 5 * s, b);
    } else {
      NeedsMonotone(p, a, 5 * s, SendMove(2 * s + j) + 1, b);
      NeedsSource(p, c, 2 * s + j, b);
    }
  }

  /** Within a stage, more moves of its own ask no more of others. */
  lemma {:induction false} NeedsWithinStage<D(!new), L, M>(p: Plan<D, L, M>, c: D, s: nat, j: nat, b: D)
    requires b != c && j < 5
    ensures Needs(p, c, 5 * s + j, b) == Needs(p, c, 5 * s, b) <= 5 * s
  {
    if j == 0 {
      NeedsLess(p, c, 5 * s, b);
    } else {
      NeedsWithinStage(p, c, s, j - 1, b);
      assert (5 * s + j) % 5 == j;
    }
  }

  lemma NeedsOfWait<D(!new), L, M>(p: Plan<D, L, M>, c: D, s: nat, b: D, most: nat)
    requires b != c && Needs(p, c, 5 * s + 4, b) <= most
    requires Needs(p, p.source(c, 2 * s), 5 * s + 3, b) <= most
    requires Needs(p, p.source(c, 2 * s + 1), 5 * s + 4, b) <= most
    ensures Needs(p, c, 5 * (s + 1), b) <= most
  {
    var i := 5 * (s + 1);
    assert i % 5 == 0 && 2 * (i / 5) - 2 == 2 * s && 2 * (i / 5) - 1 == 2 * s + 1;
  }

  /** Somebody a process does not receive from in a stage need not have begun it. */
  lemma NeedsNoStranger<D(!new), L, M>(p: Plan<D, L, M>, c: D, s: nat, j: nat, b: D)
    requires b != c && b != p.source(c, 2 * s) && b != p.source(c, 2 * s + 1) && j < 5
    ensures Needs(p, c, 5 * (s + 1) + j, b) <= 5 * s
  {
    NeedsWithinStage(p, c, s, 4, b);
    NeedsWithinStage(p, p.source(c, 2 * s), s, 3, b);
    NeedsWithinStage(p, p.source(c, 2 * s + 1), s, 4, b);
    NeedsOfWait(p, c, s, b, 5 * s);
    NeedsWithinStage(p, c, s + 1, j, b);
  }

  /** A cut through a run: y(c) moves of process c.  It is closed if every wait it contains
      can be over. */
  ghost predicate ClosedAt<D(!new), L, M>(p: Plan<D, L, M>, y: D -> nat, c: D, e: nat) {
    5 * (e / 2) + 5 <= y(c) ==> SendMove(e) < y(p.source(c, e))
  }

  ghost predicate Closed<D(!new), L, M>(p: Plan<D, L, M>, y: D -> nat) {
    forall c, e: nat {:trigger ClosedAt(p, y, c, e)} :: c in p.doms ==> ClosedAt(p, y, c, e)
  }

  /** In a closed cut everyone has what the others need. */
  lemma {:induction false} NeedsMet<D(!new), L, M>(p: Plan<D, L, M>, y: D -> nat, c: D, i: nat, b: D)
    requires Symmetric(p) && Closed(p, y) && c in p.doms && i <= y(c)
    ensures Needs(p, c, i, b) <= y(b)
    decreases i
  {
    if b != c && 0 < i {
      NeedsMet(p, y, c, i - 1, b);
      if i % 5 == 0 {
        var e := 2 * (i / 5) - 2;
        assert e / 2 == i / 5 - 1 && (e + 1) / 2 == i / 5 - 1;
        assert ClosedAt(p, y, c, e) && ClosedAt(p, y, c, e + 1);
        assert SymmetricAt(p, c, e) && SymmetricAt(p, c, e + 1);
        NeedsMet(p, y, p.source(c, e), i - 2, b);
        NeedsMet(p, y, p.source(c, e + 1), i - 1, b);
      }
    }
  }

  // ----- which plans are ordered -----

  /** Nobody can send event e' before a sends e, nor post the receive of e' before the
      receiver of e posts its. */
  ghost predicate Precedes<D(!new), L, M>(p: Plan<D, L, M>, a: D, e: nat, a': D, e': nat) {
    && SendMove(e) < Needs(p, a', SendMove(e'), a)
    && ReceiveMove(e) < Needs(p, p.dest(a', e'), ReceiveMove(e'), p.dest(a, e))
  }

  ghost predicate OrderedAt<D(!new), L, M>(p: Plan<D, L, M>, a: D, e: nat, a': D, e': nat) {
    e <= e' && (a != a' || e != e') && p.sendKey(a, e) == p.sendKey(a', e') ==> Precedes(p, a, e, a', e')
  }

  /** Of any two messages on one channel the earlier event precedes the later. */
  ghost predicate Ordered<D(!new), L, M>(p: Plan<D, L, M>) {
    forall a, e: nat, a', e': nat {:trigger OrderedAt(p, a, e, a', e')} ::
      a in p.doms && a' in p.doms && e' < 2 * p.stages ==> OrderedAt(p, a, e, a', e')
  }

  /** One channel never carries the messages of two pairs of processes. */
  ghost predicate SeparatedAt<D(!new), L, M>(p: Plan<D, L, M>, a: D, e: nat, a': D, e': nat) {
    p.sendKey(a, e) == p.sendKey(a', e') ==> a == a' && p.dest(a, e) == p.dest(a', e')
  }

  ghost predicate Separated<D(!new), L, M>(p: Plan<D, L, M>) {
    forall a, e: nat, a', e': nat {:trigger SeparatedAt(p, a, e, a', e')} ::
      a in p.doms && a' in p.doms ==> SeparatedAt(p, a, e, a', e')
  }

  lemma MovesIncrease(e: nat, e': nat)
    requires e < e'
    ensures SendMove(e) < SendMove(e') && ReceiveMove(e) < ReceiveMove(e')
  {
  }

  /** Such plans are ordered: program order is enough. */
  lemma SeparatedIsOrdered<D(!new), L, M>(p: Plan<D, L, M>)
    requires Separated(p)
    ensures Ordered(p)
  {
    forall a, e: nat, a', e': nat | a in p.doms && a' in p.doms && e' < 2 * p.stages
      ensures OrderedAt(p, a, e, a', e')
    {
      assert SeparatedAt(p, a, e, a', e');
      if e < e' {
        MovesIncrease(e, e');
        NeedsOwn(p, a, SendMove(e'));
        NeedsOwn(p, p.dest(a, e), ReceiveMove(e'));
      }
    }
  }

  /** In an ordered plan an event uses a channel once. */
  lemma OncePerEvent<D(!new), L, M>(p: Plan<D, L, M>, a: D, a': D, e: nat)
    requires Ordered(p) && a in p.doms && a' in p.doms && e < 2 * p.stages && p.sendKey(a, e) == p.sendKey(a', e)
    ensures a == a'
  {
    if a != a' {
      assert OrderedAt(p, a, e, a', e);
      NeedsLess(p, a', SendMove(e), a);
    }
  }

  // ----- positions on a channel -----

  ghost predicate Used<D(!new), L, M>(p: Plan<D, L, M>, k: Key, e: nat) {
    exists a :: a in p.doms && p.sendKey(a, e) == k
  }

  /** How many events before e use channel k: the position of event e on it. */
  ghost function Before<D(!new), L, M>(p: Plan<D, L, M>, k: Key, e: nat): nat {
    if e == 0 then 0 else Before(p, k, e - 1) + One(Used(p, k, e - 1))
  }

  lemma {:induction false} BeforeMonotone<D(!new), L, M>(p: Plan<D, L, M>, k: Key, e: nat, e': nat)
    requires e <= e'
    ensures Before(p, k, e) <= Before(p, k, e')
    decreases e' - e
  {
    if e < e' {
      BeforeMonotone(p, k, e, e' - 1);
    }
  }

  lemma BeforeStrict<D(!new), L, M>(p: Plan<D, L, M>, k: Key, e: nat, e': nat)
    requires e < e' && Used(p, k, e)
    ensures Before(p, k, e) < Before(p, k, e')
  {
    BeforeMonotone(p, k, e + 1, e');
  }

  /** The last use of a channel before event e. */
  lemma {:induction false} LastUse<D(!new), L, M>(p: Plan<D, L, M>, k: Key, e: nat) returns (e0: nat)
    requires 0 < Before(p, k, e)
    ensures e0 < e && Used(p, k, e0) && Before(p, k, e0) == Before(p, k, e) - 1
  {
    e0 := e - 1;
    if !Used(p, k, e0) {
      e0 := LastUse(p, k, e0);
    }
  }

  // ----- the invariant -----

  /** Receives and sends under way are at the positions of their events. */
  ghost predicate NodeOk<D(!new), L, M>(p: Plan<D, L, M>, init: D -> L, c: D, n: Node<L>) {
    && Paced(p, n)
    && |n.slot| == n.posted - 2 * n.stage
    && |n.sslot| == n.sent - 2 * n.stage
    && (forall j :: 0 <= j < |n.slot| ==> n.slot[j] == Before(p, p.recvKey(c, 2 * n.stage + j), 2 * n.stage + j))
    && (forall j :: 0 <= j < |n.sslot| ==> n.sslot[j] == Before(p, p.sendKey(c, 2 * n.stage + j), 2 * n.stage + j))
    && n.loc == Lock(p, init, n.stage, c)
  }

  /** The message of an event is at its position, with the buffer of the lockstep run, or that
      position is still free. */
  ghost predicate SendOk<D(!new), L, M>(p: Plan<D, L, M>, init: D -> L, s: Net<D, L, M>, a: D, e: nat)
    requires a in s.nodes
  {
    var k := p.sendKey(a, e);
    var at := Before(p, k, e);
    if e < s.nodes[a].sent then
      at < |Sent(s, k)| && Sent(s, k)[at] == Msg(a, e, p.pack(a, e, Lock(p, init, e / 2, a)))
    else
      |Sent(s, k)| <= at
  }

  ghost predicate PostOk<D(!new), L, M>(p: Plan<D, L, M>, s: Net<D, L, M>, b: D, e: nat)
    requires b in s.nodes
  {
    var k := p.recvKey(b, e);
    var at := Before(p, k, e);
    if e < s.nodes[b].posted then
      at < |Requests(s, k)| && Requests(s, k)[at] == Req(b, e)
    else
      |Requests(s, k)| <= at
  }

  /** A process that has completed stage t has the messages of stage t, so its peers sent them. */
  ghost predicate PeersSent<D(!new), L, M>(p: Plan<D, L, M>, s: Net<D, L, M>, c: D, e: nat)
    requires c in s.nodes
  {
    e < 2 * s.nodes[c].stage ==> p.source(c, e) in s.nodes && e < s.nodes[p.source(c, e)].sent
  }

  ghost predicate Inv<D(!new), L, M>(p: Plan<D, L, M>, init: D -> L, s: Net<D, L, M>) {
    && s.nodes.Keys == p.doms
    && (forall c {:trigger NodeOk(p, init, c, s.nodes[c])} :: c in p.doms ==> NodeOk(p, init, c, s.nodes[c]))
    && (forall a, e: nat {:trigger SendOk(p, init, s, a, e)} ::
          a in p.doms && e < 2 * p.stages ==> SendOk(p, init, s, a, e))
    && (forall b, e: nat {:trigger PostOk(p, s, b, e)} :: b in p.doms && e < 2 * p.stages ==> PostOk(p, s, b, e))
    && (forall c, e: nat {:trigger PeersSent(p, s, c, e)} :: c in p.doms ==> PeersSent(p, s, c, e))
  }

  lemma InitInv<D(!new), L, M>(p: Plan<D, L, M>, init: D -> L, s: Net<D, L, M>)
    requires Init(p, init, s)
    ensures Inv(p, init, s)
  {
  }

  /** Moves are counted by receives, sends and waits. */
  lemma WorkTells<D(!new), L, M>(p: Plan<D, L, M>, n: Node<L>, e: nat)
    requires Paced(p, n)
    ensures e < n.posted <==> ReceiveMove(e) < Work(n)
    ensures e < n.sent <==> SendMove(e) < Work(n)
    ensures e < 2 * n.stage <==> 5 * (e / 2) + 5 <= Work(n)
  {
  }

  lemma InvClosed<D(!new), L, M>(p: Plan<D, L, M>, init: D -> L, s: Net<D, L, M>)
    requires Inv(p, init, s)
    ensures Closed(p, WorkOf(s.nodes))
  {
    forall c, e: nat | c in p.doms ensures ClosedAt(p, WorkOf(s.nodes), c, e) {
      assert NodeOk(p, init, c, s.nodes[c]) && PeersSent(p, s, c, e);
      WorkTells(p, s.nodes[c], e);
      if e < 2 * s.nodes[c].stage {
        var b := p.source(c, e);
        assert NodeOk(p, init, b, s.nodes[b]);
        WorkTells(p, s.nodes[b], e);
      }
    }
  }

  /** When c is about to send event e, all earlier messages of its channel have been sent. */
  lemma EarlierSent<D(!new), L, M>(p: Plan<D, L, M>, init: D -> L, s: Net<D, L, M>, c: D, e: nat, a: D, e0: nat)
    requires Symmetric(p) && Ordered(p) && Inv(p, init, s) && c in p.doms && a in p.doms
    requires e0 < e < 2 * p.stages && p.sendKey(a, e0) == p.sendKey(c, e) && SendMove(e) <= Work(s.nodes[c])
    ensures e0 < s.nodes[a].sent
  {
    assert OrderedAt(p, a, e0, c, e);
    InvClosed(p, init, s);
    NeedsMet(p, WorkOf(s.nodes), c, SendMove(e), a);
    assert NodeOk(p, init, a, s.nodes[a]);
    WorkTells(p, s.nodes[a], e0);
  }

  /** When c is about to post receive e, all earlier receives of its channel have been posted. */
  lemma EarlierPosted<D(!new), L, M>(p: Plan<D, L, M>, init: D -> L, s: Net<D, L, M>, c: D, e: nat, b: D, e0: nat)
    requires Symmetric(p) && Ordered(p) && Inv(p, init, s) && c in p.doms && b in p.doms
    requires e0 < e < 2 * p.stages && p.recvKey(b, e0) == p.recvKey(c, e) && ReceiveMove(e) <= Work(s.nodes[c])
    ensures e0 < s.nodes[b].posted
  {
    assert SymmetricAt(p, b, e0) && SymmetricAt(p, c, e);
    assert OrderedAt(p, p.source(b, e0), e0, p.source(c, e), e);
    InvClosed(p, init, s);
    NeedsMet(p, WorkOf(s.nodes), c, ReceiveMove(e), b);
    assert NodeOk(p, init, b, s.nodes[b]);
    WorkTells(p, s.nodes[b], e0);
  }

  /** So its message goes to its position. */
  lemma SendPosition<D(!new), L, M>(p: Plan<D, L, M>, init: D -> L, s: Net<D, L, M>, c: D)
    requires Symmetric(p) && Ordered(p) && Inv(p, init, s) && CanSend(p, s, c)
    ensures var e := s.nodes[c].sent; |Sent(s, p.sendKey(c, e))| == Before(p, p.sendKey(c, e), e)
  {
    var e := s.nodes[c].sent;
    var k := p.sendKey(c, e);
    assert NodeOk(p, init, c, s.nodes[c]);
    WorkTells(p, s.nodes[c], e);
    assert SendOk(p, init, s, c, e);
    if 0 < Before(p, k, e) {
      var e0 := LastUse(p, k, e);
      var a :| a in p.doms && p.sendKey(a, e0) == k;
      NextSendMove(p, s.nodes[c]);
      EarlierSent(p, init, s, c, e, a, e0);
      assert SendOk(p, init, s, a, e0);
    }
  }

  lemma NextSendMove<D(!new), L, M>(p: Plan<D, L, M>, n: Node<L>)
    requires Paced(p, n)
    ensures n.posted < 2 * n.stage + 2 ==> ReceiveMove(n.posted) == Work(n)
    ensures n.posted == 2 * n.stage + 2 && n.sent < 2 * n.stage + 2 ==> SendMove(n.sent) == Work(n)
  {
  }

  lemma PostPosition<D(!new), L, M>(p: Plan<D, L, M>, init: D -> L, s: Net<D, L, M>, c: D)
    requires Symmetric(p) && Ordered(p) && Inv(p, init, s) && CanPost(p, s, c)
    ensures var e := s.nodes[c].posted; |Requests(s, p.recvKey(c, e))| == Before(p, p.recvKey(c, e), e)
  {
    var e := s.nodes[c].posted;
    var k := p.recvKey(c, e);
    assert NodeOk(p, init, c, s.nodes[c]);
    assert PostOk(p, s, c, e);
    if 0 < Before(p, k, e) {
      var e0 := LastUse(p, k, e);
      var a :| a in p.doms && p.sendKey(a, e0) == k;
      var b := p.dest(a, e0);
      assert SymmetricAt(p, a, e0);
      NextSendMove(p, s.nodes[c]);
      EarlierPosted(p, init, s, c, e, b, e0);
      assert PostOk(p, s, b, e0);
    }
  }

  // ----- what a step does to it -----

  /** Channels look the same while nothing is sent, and while nothing is posted. */
  lemma SameOut<D(!new), L, M>(p: Plan<D, L, M>, init: D -> L, s: Net<D, L, M>, s': Net<D, L, M>)
    requires Inv(p, init, s) && s'.nodes.Keys == p.doms && s'.out == s.out
    requires forall a :: a in p.doms ==> s'.nodes[a].sent == s.nodes[a].sent
    ensures forall a, e: nat {:trigger SendOk(p, init, s', a, e)} ::
      a in p.doms && e < 2 * p.stages ==> SendOk(p, init, s', a, e)
  {
    forall a, e: nat | a in p.doms && e < 2 * p.stages ensures SendOk(p, init, s', a, e) {
      assert SendOk(p, init, s, a, e);
    }
  }

  lemma SamePosts<D(!new), L, M>(p: Plan<D, L, M>, init: D -> L, s: Net<D, L, M>, s': Net<D, L, M>)
    requires Inv(p, init, s) && s'.nodes.Keys == p.doms && s'.posts == s.posts
    requires forall a :: a in p.doms ==> s'.nodes[a].posted == s.nodes[a].posted
    ensures forall b, e: nat {:trigger PostOk(p, s', b, e)} ::
      b in p.doms && e < 2 * p.stages ==> PostOk(p, s', b, e)
  {
    forall b, e: nat | b in p.doms && e < 2 * p.stages ensures PostOk(p, s', b, e) {
      assert PostOk(p, s, b, e);
    }
  }

  lemma SamePeers<D(!new), L, M>(p: Plan<D, L, M>, init: D -> L, s: Net<D, L, M>, s': Net<D, L, M>)
    requires Inv(p, init, s) && s'.nodes.Keys == p.doms
    requires forall a :: a in p.doms ==> s'.nodes[a].sent >= s.nodes[a].sent && s'.nodes[a].stage == s.nodes[a].stage
    ensures forall c, e: nat {:trigger PeersSent(p, s', c, e)} :: c in p.doms ==> PeersSent(p, s', c, e)
  {
    forall b, e: nat | b in p.doms ensures PeersSent(p, s', b, e) {
      assert PeersSent(p, s, b, e);
    }
  }

  lemma SameNodes<D(!new), L, M>(p: Plan<D, L, M>, init: D -> L, s: Net<D, L, M>, s': Net<D, L, M>, c: D)
    requires Inv(p, init, s) && s'.nodes.Keys == p.doms && c in p.doms && NodeOk(p, init, c, s'.nodes[c])
    requires forall b :: b in p.doms && b != c ==> s'.nodes[b] == s.nodes[b]
    ensures forall b {:trigger NodeOk(p, init, b, s'.nodes[b])} :: b in p.doms ==> NodeOk(p, init, b, s'.nodes[b])
  {
    forall b | b in p.doms ensures NodeOk(p, init, b, s'.nodes[b]) {
      assert NodeOk(p, init, b, s.nodes[b]);
    }
  }

  lemma PostRecvPosts<D(!new), L, M>(p: Plan<D, L, M>, init: D -> L, s: Net<D, L, M>, c: D, b: D, e1: nat)
    requires Symmetric(p) && Ordered(p) && Inv(p, init, s) && CanPost(p, s, c) && b in p.doms && e1 < 2 * p.stages
    ensures PostOk(p, PostRecv(p, s, c), b, e1)
  {
    var e := s.nodes[c].posted;
    var k := p.recvKey(c, e);
    assert NodeOk(p, init, c, s.nodes[c]) && PostOk(p, s, b, e1);
    PostPosition(p, init, s, c);
    if p.recvKey(b, e1) == k && s.nodes[b].posted <= e1 && (b != c || e1 != e) {
      NextSendMove(p, s.nodes[c]);
      if e1 < e {
        EarlierPosted(p, init, s, c, e, b, e1);
      } else if e1 == e {
        OneReceiver(p, b, c, e);
      } else {
        assert SymmetricAt(p, c, e);
        BeforeStrict(p, k, e, e1);
      }
    }
  }

  lemma OneReceiver<D(!new), L, M>(p: Plan<D, L, M>, b: D, b': D, e: nat)
    requires Symmetric(p) && Ordered(p) && b in p.doms && b' in p.doms && e < 2 * p.stages
    requires p.recvKey(b, e) == p.recvKey(b', e)
    ensures b == b'
  {
    assert SymmetricAt(p, b, e) && SymmetricAt(p, b', e);
    OncePerEvent(p, p.source(b, e), p.source(b', e), e);
  }

  lemma PostRecvNode<D(!new), L, M>(p: Plan<D, L, M>, init: D -> L, s: Net<D, L, M>, c: D)
    requires Symmetric(p) && Ordered(p) && Inv(p, init, s) && CanPost(p, s, c)
    ensures NodeOk(p, init, c, PostRecv(p, s, c).nodes[c])
  {
    assert NodeOk(p, init, c, s.nodes[c]);
    PostPosition(p, init, s, c);
  }

  lemma PostRecvInv<D(!new), L, M>(p: Plan<D, L, M>, init: D -> L, s: Net<D, L, M>, c: D)
    requires Symmetric(p) && Ordered(p) && Inv(p, init, s) && CanPost(p, s, c)
    ensures Inv(p, init, PostRecv(p, s, c))
  {
    var s' := PostRecv(p, s, c);
    PostRecvNode(p, init, s, c);
    SameNodes(p, init, s, s', c);
    SameOut(p, init, s, s');
    SamePeers(p, init, s, s');
    forall b, e: nat | b in p.doms && e < 2 * p.stages ensures PostOk(p, s', b, e) {
      PostRecvPosts(p, init, s, c, b, e);
    }
  }

  lemma PostSendChannel<D(!new), L, M>(p: Plan<D, L, M>, init: D -> L, s: Net<D, L, M>, c: D, a: D, e1: nat)
    requires Symmetric(p) && Ordered(p) && Inv(p, init, s) && CanSend(p, s, c) && a in p.doms && e1 < 2 * p.stages
    ensures SendOk(p, init, PostSend(p, s, c), a, e1)
  {
    var e := s.nodes[c].sent;
    var k := p.sendKey(c, e);
    assert NodeOk(p, init, c, s.nodes[c]) && SendOk(p, init, s, a, e1);
    SendPosition(p, init, s, c);
    if p.sendKey(a, e1) == k && s.nodes[a].sent <= e1 && (a != c || e1 != e) {
      NextSendMove(p, s.nodes[c]);
      if e1 < e {
        EarlierSent(p, init, s, c, e, a, e1);
      } else if e1 == e {
        OncePerEvent(p, a, c, e);
      } else {
        BeforeStrict(p, k, e, e1);
      }
    }
  }

  lemma PostSendNode<D(!new), L, M>(p: Plan<D, L, M>, init: D -> L, s: Net<D, L, M>, c: D)
    requires Symmetric(p) && Ordered(p) && Inv(p, init, s) && CanSend(p, s, c)
    ensures NodeOk(p, init, c, PostSend(p, s, c).nodes[c])
  {
    var n := s.nodes[c];
    assert NodeOk(p, init, c, n);
    SendPosition(p, init, s, c);
    NextSend(p, init, c, n, |Sent(s, p.sendKey(c, n.sent))|, PostSend(p, s, c).nodes[c]);
  }

  lemma NextSend<D(!new), L, M>(p: Plan<D, L, M>, init: D -> L, c: D, n: Node<L>, at: nat, n': Node<L>)
    requires NodeOk(p, init, c, n) && n.stage < p.stages && n.posted == 2 * n.stage + 2 && n.sent < 2 * n.stage + 2
    requires at == Before(p, p.sendKey(c, n.sent), n.sent) && n' == n.(sent := n.sent + 1, sslot := n.sslot + [at])
    ensures NodeOk(p, init, c, n')
  {
  }

  lemma PostSendInv<D(!new), L, M>(p: Plan<D, L, M>, init: D -> L, s: Net<D, L, M>, c: D)
    requires Symmetric(p) && Ordered(p) && Inv(p, init, s) && CanSend(p, s, c)
    ensures Inv(p, init, PostSend(p, s, c))
  {
    var s' := PostSend(p, s, c);
    PostSendNode(p, init, s, c);
    SameNodes(p, init, s, s', c);
    SamePosts(p, init, s, s');
    SamePeers(p, init, s, s');
    forall a, e: nat | a in p.doms && e < 2 * p.stages ensures SendOk(p, init, s', a, e) {
      PostSendChannel(p, init, s, c, a, e);
    }
  }

  /** A receive that has a message has the right one: both are at the position of the event. */
  lemma MatchedIsNeighbours<D(!new), L, M>(p: Plan<D, L, M>, init: D -> L, s: Net<D, L, M>, c: D, j: nat)
    requires Symmetric(p) && Inv(p, init, s) && CanComplete(p, s, c) && j < 2
    ensures var e := 2 * s.nodes[c].stage + j;
            && p.source(c, e) in p.doms && e < s.nodes[p.source(c, e)].sent
            && Matched(p, s, c, j) == Msg(p.source(c, e), e, LockMsg(p, init, s.nodes[c].stage, c, j))
  {
    var n := s.nodes[c];
    var e := 2 * n.stage + j;
    assert SymmetricAt(p, c, e);
    assert NodeOk(p, init, c, n);
    assert SendOk(p, init, s, p.source(c, e), e);
    assert e / 2 == n.stage;
  }

  lemma CompleteNode<D(!new), L, M>(p: Plan<D, L, M>, init: D -> L, s: Net<D, L, M>, c: D)
    requires Symmetric(p) && Inv(p, init, s) && CanComplete(p, s, c)
    ensures NodeOk(p, init, c, Complete(p, s, c).nodes[c])
  {
    assert NodeOk(p, init, c, s.nodes[c]);
    MatchedIsNeighbours(p, init, s, c, 0);
    MatchedIsNeighbours(p, init, s, c, 1);
  }

  lemma CompletePeers<D(!new), L, M>(p: Plan<D, L, M>, init: D -> L, s: Net<D, L, M>, c: D, b: D, e: nat)
    requires Symmetric(p) && Inv(p, init, s) && CanComplete(p, s, c) && b in p.doms
    ensures PeersSent(p, Complete(p, s, c), b, e)
  {
    assert PeersSent(p, s, b, e);
    var n := s.nodes[c].stage;
    if b == c && 2 * n <= e < 2 * n + 2 {
      MatchedIsNeighbours(p, init, s, c, e - 2 * n);
    }
  }

  lemma CompleteInv<D(!new), L, M>(p: Plan<D, L, M>, init: D -> L, s: Net<D, L, M>, c: D)
    requires Symmetric(p) && Inv(p, init, s) && CanComplete(p, s, c)
    ensures Inv(p, init, Complete(p, s, c))
  {
    var s' := Complete(p, s, c);
    CompleteNode(p, init, s, c);
    SameNodes(p, init, s, s', c);
    SameOut(p, init, s, s');
    SamePosts(p, init, s, s');
    forall b, e: nat | b in p.doms ensures PeersSent(p, s', b, e) {
      CompletePeers(p, init, s, c, b, e);
    }
  }

  lemma StepInv<D(!new), L, M>(p: Plan<D, L, M>, init: D -> L, s: Net<D, L, M>, c: D, s': Net<D, L, M>)
    requires Symmetric(p) && Ordered(p) && Inv(p, init, s) && Step(p, s, c, s')
    ensures Inv(p, init, s')
  {
    if CanPost(p, s, c) && s' == PostRecv(p, s, c) {
      PostRecvInv(p, init, s, c);
    } else if CanSend(p, s, c) && s' == PostSend(p, s, c) {
      PostSendInv(p, init, s, c);
    } else {
      CompleteInv(p, init, s, c);
    }
  }

  lemma {:induction false} RunInv<D(!new), L, M>(p: Plan<D, L, M>, init: D -> L, run: seq<Net<D, L, M>>, i: nat)
    requires Symmetric(p) && Ordered(p) && IsRun(p, init, run) && i < |run|
    ensures Inv(p, init, run[i])
  {
    if i == 0 {
      InitInv(p, init, run[0]);
    } else {
      RunInv(p, init, run, i - 1);
      assert MovesAt(p, run, i - 1);
      var c :| Step(p, run[i - 1], c, run[i]);
      StepInv(p, init, run[i - 1], c, run[i]);
    }
  }

  // ----- main results -----

  /** Whatever the interleaving, a wait that returns hands over the buffers which the two
      neighbours packed for this very stage in the lockstep run. */
  lemma ReceivesAreLockstep<D(!new), L, M>(p: Plan<D, L, M>, init: D -> L, run: seq<Net<D, L, M>>, i: nat, c: D, j: nat)
    requires Symmetric(p) && Ordered(p)
    requires IsRun(p, init, run) && i < |run| && CanComplete(p, run[i], c) && j < 2
    ensures var e := 2 * run[i].nodes[c].stage + j;
            Matched(p, run[i], c, j) == Msg(p.source(c, e), e, LockMsg(p, init, run[i].nodes[c].stage, c, j))
  {
    RunInv(p, init, run, i);
    MatchedIsNeighbours(p, init, run[i], c, j);
  }

  /** Asynchrony does not matter: at every moment of every run each store is the lockstep
      store of the stage its process has reached. */
  lemma StoresAreLockstep<D(!new), L, M>(p: Plan<D, L, M>, init: D -> L, run: seq<Net<D, L, M>>, i: nat, c: D)
    requires Symmetric(p) && Ordered(p) && IsRun(p, init, run) && i < |run| && c in p.doms
    ensures c in run[i].nodes && run[i].nodes[c].stage <= p.stages
    ensures run[i].nodes[c].loc == Lock(p, init, run[i].nodes[c].stage, c)
  {
    RunInv(p, init, run, i);
    assert NodeOk(p, init, c, run[i].nodes[c]);
  }

  /** A process is never further ahead of the neighbour it receives from than the last
      stage in which it received from it. */
  lemma DriftBound<D(!new), L, M>(p: Plan<D, L, M>, init: D -> L, run: seq<Net<D, L, M>>, i: nat, c: D, t: nat, j: nat)
    requires Symmetric(p) && Ordered(p) && IsRun(p, init, run) && i < |run| && c in p.doms && j < 2
    requires c in run[i].nodes && t < run[i].nodes[c].stage
    ensures var b := p.source(c, 2 * t + j);
            b in run[i].nodes && t <= run[i].nodes[b].stage
  {
    RunInv(p, init, run, i);
    assert PeersSent(p, run[i], c, 2 * t + j);
    var b := p.source(c, 2 * t + j);
    assert NodeOk(p, init, b, run[i].nodes[b]);
  }

  /** In general: when c has made i moves, b has made those that c needs of it. */
  lemma NobodyLags<D(!new), L, M>(p: Plan<D, L, M>, init: D -> L, run: seq<Net<D, L, M>>, i: nat, c: D, b: D)
    requires Symmetric(p) && Ordered(p) && IsRun(p, init, run) && i < |run| && c in p.doms && b in p.doms
    ensures c in run[i].nodes && b in run[i].nodes
    ensures Needs(p, c, Work(run[i].nodes[c]), b) <= Work(run[i].nodes[b])
  {
    RunInv(p, init, run, i);
    InvClosed(p, init, run[i]);
    NeedsMet(p, WorkOf(run[i].nodes), c, Work(run[i].nodes[c]), b);
  }

  // ----- progress -----

  /** If c has posted its whole stage and every process has posted the same stage or is
      beyond it, the wait of c must return. */
  lemma PostedPeersComplete<D(!new), L, M>(p: Plan<D, L, M>, init: D -> L, s: Net<D, L, M>, c: D)
    requires Symmetric(p) && Inv(p, init, s) && c in p.doms && s.nodes[c].stage < p.stages
    requires forall b :: b in p.doms ==> 2 * s.nodes[c].stage + 2 <= s.nodes[b].sent
    ensures MustComplete(p, s, c)
  {
    var n := s.nodes[c];
    assert NodeOk(p, init, c, n);
    MessageThere(p, init, s, c, 2 * n.stage);
    MessageThere(p, init, s, c, 2 * n.stage + 1);
    assert n.slot[0] == Before(p, p.recvKey(c, 2 * n.stage + 0), 2 * n.stage + 0);
    assert n.sslot[0] == Before(p, p.sendKey(c, 2 * n.stage + 0), 2 * n.stage + 0);
  }

  /** Message and receive of event e are there once both its ends have passed it. */
  lemma MessageThere<D(!new), L, M>(p: Plan<D, L, M>, init: D -> L, s: Net<D, L, M>, c: D, e: nat)
    requires Symmetric(p) && Inv(p, init, s) && c in p.doms && e < 2 * p.stages
    requires forall b :: b in p.doms ==> e < s.nodes[b].sent
    ensures Before(p, p.recvKey(c, e), e) < |Sent(s, p.recvKey(c, e))|
    ensures Before(p, p.sendKey(c, e), e) < Posts(s, p.sendKey(c, e))
  {
    assert SymmetricAt(p, c, e);
    assert SendOk(p, init, s, p.source(c, e), e);
    var b := p.dest(c, e);
    assert PostOk(p, s, b, e) && NodeOk(p, init, b, s.nodes[b]);
  }

  /** An unfinished process that no other has sent less than can move. */
  lemma SlowestMoves<D(!new), L, M>(p: Plan<D, L, M>, init: D -> L, s: Net<D, L, M>, c: D)
    requires Symmetric(p) && Inv(p, init, s) && c in p.doms && s.nodes[c].stage < p.stages
    requires forall b :: b in p.doms && s.nodes[b].stage < p.stages ==> s.nodes[c].sent <= s.nodes[b].sent
    ensures CanMove(p, s, c)
  {
    assert NodeOk(p, init, c, s.nodes[c]);
    if s.nodes[c].sent == 2 * s.nodes[c].stage + 2 {
      forall b | b in p.doms ensures s.nodes[b].sent >= 2 * s.nodes[c].stage + 2 {
        assert NodeOk(p, init, b, s.nodes[b]);
      }
      PostedPeersComplete(p, init, s, c);
    }
  }

  /** No deadlock, even when nothing is buffered: in every reachable unfinished state some
      process has a step it can, or must, take. */
  lemma NoDeadlock<D(!new), L, M>(p: Plan<D, L, M>, init: D -> L, run: seq<Net<D, L, M>>, i: nat)
    requires Symmetric(p) && Ordered(p) && IsRun(p, init, run) && i < |run| && !Finished(p, run[i])
    ensures exists c :: c in p.doms && CanMove(p, run[i], c)
  {
    RunInv(p, init, run, i);
    var s := run[i];
    var open := set c | c in p.doms && s.nodes[c].stage < p.stages;
    var c0 :| c0 in p.doms && s.nodes[c0].stage != p.stages;
    assert NodeOk(p, init, c0, s.nodes[c0]);
    assert c0 in open;
    var sent := (b: D) => if b in s.nodes then s.nodes[b].sent else 0;
    var c := Least(open, sent);
    assert forall b :: b in open ==> sent(b) == s.nodes[b].sent;
    SlowestMoves(p, init, s, c);
  }

  /** However a run has begun, it can be continued to a finished one. */
  lemma {:induction false} RunsComplete<D(!new), L, M>(p: Plan<D, L, M>, init: D -> L, run: seq<Net<D, L, M>>)
      returns (more: seq<Net<D, L, M>>)
    requires Symmetric(p) && Ordered(p) && IsRun(p, init, run)
    ensures run <= more && IsRun(p, init, more) && Finished(p, more[|more| - 1])
    decreases |p.doms| * (5 * p.stages) + 1 - |run|
  {
    RunsTerminate(p, init, run);
    if Finished(p, run[|run| - 1]) {
      more := run;
    } else {
      NoDeadlock(p, init, run, |run| - 1);
      var c :| CanMove(p, run[|run| - 1], c);
      CanMoveSteps(p, run[|run| - 1], c);
      var s :| Step(p, run[|run| - 1], c, s);
      ExtendRun(p, init, run, c, s);
      more := RunsComplete(p, init, run + [s]);
    }
  }
}
