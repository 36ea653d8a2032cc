/** The condition of `OrderedRuns` is exact: a plan that is not ordered has a run in which a
    receive is matched with another's message. */
module Overtaking {
  import opened Counting
  import opened MessagePassing
  import opened OrderedRuns

  // ----- right and wrong matches -----

  /** Request and message number m of channel k, which the library matches, belong together. */
  ghost predicate RightAt<D(!new), L, M>(p: Plan<D, L, M>, s: Net<D, L, M>, k: Key, m: nat) {
    m < |Requests(s, k)| && m < |Sent(s, k)| ==>
      && Sent(s, k)[m].from == p.source(Requests(s, k)[m].owner, Requests(s, k)[m].ev)
      && Sent(s, k)[m].ev == Requests(s, k)[m].ev
  }

  ghost predicate Right<D(!new), L, M>(p: Plan<D, L, M>, s: Net<D, L, M>) {
    forall k, m: nat {:trigger RightAt(p, s, k, m)} :: RightAt(p, s, k, m)
  }

  ghost predicate RightIn<D(!new), L, M>(p: Plan<D, L, M>, run: seq<Net<D, L, M>>, i: nat)
    requires i < |run|
  {
    Right(p, run[i])
  }

  /** No run ever matches a receive with a message that is not its own. */
  ghost predicate AlwaysRight<D(!new), L(!new), M(!new)>(p: Plan<D, L, M>, init: D -> L) {
    forall run: seq<Net<D, L, M>>, i: nat {:trigger RightIn(p, run, i)} ::
      IsRun(p, init, run) && i < |run| ==> RightIn(p, run, i)
  }

  // ----- what channels record, in any plan -----

  ghost predicate RequestOk<D(!new), L, M>(p: Plan<D, L, M>, s: Net<D, L, M>, k: Key, m: nat) {
    m < |Requests(s, k)| ==>
      var r := Requests(s, k)[m];
      && r.owner in p.doms && r.owner in s.nodes && r.ev < s.nodes[r.owner].posted
      && p.recvKey(r.owner, r.ev) == k
      && forall m' :: 0 <= m' < m ==> Requests(s, k)[m'] != r
  }

  ghost predicate MessageOk<D(!new), L, M>(p: Plan<D, L, M>, s: Net<D, L, M>, k: Key, m: nat) {
    m < |Sent(s, k)| ==>
      var r := Sent(s, k)[m];
      && r.from in p.doms && r.from in s.nodes && r.ev < s.nodes[r.from].sent && p.sendKey(r.from, r.ev) == k
      && forall m' :: 0 <= m' < m ==> Sent(s, k)[m'].from != r.from || Sent(s, k)[m'].ev != r.ev
  }

  ghost predicate IsRequest<D, L, M>(s: Net<D, L, M>, k: Key, m: nat, c: D, e: nat) {
    m < |Requests(s, k)| && Requests(s, k)[m] == Req(c, e)
  }

  ghost predicate IsMessage<D, L, M>(s: Net<D, L, M>, k: Key, m: nat, a: D, e: nat) {
    m < |Sent(s, k)| && Sent(s, k)[m].from == a && Sent(s, k)[m].ev == e
  }

  ghost predicate Recorded<D(!new), L, M>(p: Plan<D, L, M>, s: Net<D, L, M>, c: D, e: nat)
    requires c in s.nodes
  {
    && (e < s.nodes[c].posted ==> exists m: nat :: IsRequest(s, p.recvKey(c, e), m, c, e))
    && (e < s.nodes[c].sent ==> exists m: nat :: IsMessage(s, p.sendKey(c, e), m, c, e))
  }

  ghost predicate SlotsOk<D(!new), L, M>(p: Plan<D, L, M>, s: Net<D, L, M>, c: D)
    requires c in s.nodes
  {
    var n := s.nodes[c];
    && Paced(p, n) && |n.slot| == n.posted - 2 * n.stage && |n.sslot| == n.sent - 2 * n.stage
    && (forall j :: 0 <= j < |n.slot| ==>
          IsRequest(s, p.recvKey(c, 2 * n.stage + j), n.slot[j], c, 2 * n.stage + j))
    && forall j :: 0 <= j < |n.sslot| ==> IsMessage(s, p.sendKey(c, 2 * n.stage + j), n.sslot[j], c, 2 * n.stage + j)
  }

  ghost predicate Books<D(!new), L, M>(p: Plan<D, L, M>, s: Net<D, L, M>) {
    && s.nodes.Keys == p.doms
    && (forall k, m: nat {:trigger RequestOk(p, s, k, m)} :: RequestOk(p, s, k, m))
    && (forall k, m: nat {:trigger MessageOk(p, s, k, m)} :: MessageOk(p, s, k, m))
    && (forall c, e: nat {:trigger Recorded(p, s, c, e)} :: c in p.doms ==> Recorded(p, s, c, e))
    && (forall c {:trigger SlotsOk(p, s, c)} :: c in p.doms ==> SlotsOk(p, s, c))
  }

  /** Nothing recorded is lost, and nobody goes back. */
  ghost predicate Grows<D, L, M>(s: Net<D, L, M>, s': Net<D, L, M>) {
    && s'.nodes.Keys == s.nodes.Keys
    && (forall k :: Requests(s, k) <= Requests(s', k) && Sent(s, k) <= Sent(s', k))
    && forall c :: c in s.nodes ==> s.nodes[c].posted <= s'.nodes[c].posted && s.nodes[c].sent <= s'.nodes[c].sent
  }

  lemma PostGrows<D(!new), L, M>(p: Plan<D, L, M>, s: Net<D, L, M>, c: D)
    requires CanPost(p, s, c)
    ensures Grows(s, PostRecv(p, s, c))
  {
  }

  lemma SendGrows<D(!new), L, M>(p: Plan<D, L, M>, s: Net<D, L, M>, c: D)
    requires CanSend(p, s, c)
    ensures Grows(s, PostSend(p, s, c))
  {
  }

  lemma CompleteGrows<D(!new), L, M>(p: Plan<D, L, M>, s: Net<D, L, M>, c: D)
    requires CanComplete(p, s, c)
    ensures Grows(s, Complete(p, s, c))
  {
  }

  lemma StepGrows<D(!new), L, M>(p: Plan<D, L, M>, s: Net<D, L, M>, c: D, s': Net<D, L, M>)
    requires Step(p, s, c, s')
    ensures Grows(s, s')
  {
    if CanPost(p, s, c) && s' == PostRecv(p, s, c) {
      PostGrows(p, s, c);
    } else if CanSend(p, s, c) && s' == PostSend(p, s, c) {
      SendGrows(p, s, c);
    } else {
      CompleteGrows(p, s, c);
    }
  }

  lemma OldRequest<D(!new), L, M>(p: Plan<D, L, M>, s: Net<D, L, M>, s': Net<D, L, M>, k: Key, m: nat)
    requires Grows(s, s') && RequestOk(p, s, k, m) && m < |Requests(s, k)|
    ensures RequestOk(p, s', k, m)
  {
  }

  lemma OldMessage<D(!new), L, M>(p: Plan<D, L, M>, s: Net<D, L, M>, s': Net<D, L, M>, k: Key, m: nat)
    requires Grows(s, s') && MessageOk(p, s, k, m) && m < |Sent(s, k)|
    ensures MessageOk(p, s', k, m)
  {
  }

  lemma OldRecord<D(!new), L, M>(p: Plan<D, L, M>, s: Net<D, L, M>, s': Net<D, L, M>, c: D, e: nat)
    requires Grows(s, s') && c in s.nodes && Recorded(p, s, c, e)
    requires e < s'.nodes[c].posted ==> e < s.nodes[c].posted
    requires e < s'.nodes[c].sent ==> e < s.nodes[c].sent
    ensures Recorded(p, s', c, e)
  {
    if e < s.nodes[c].posted {
      var m: nat :| IsRequest(s, p.recvKey(c, e), m, c, e);
      assert IsRequest(s', p.recvKey(c, e), m, c, e);
    }
    if e < s.nodes[c].sent {
      var m: nat :| IsMessage(s, p.sendKey(c, e), m, c, e);
      assert IsMessage(s', p.sendKey(c, e), m, c, e);
    }
  }

  lemma OldSlot<D(!new), L, M>(p: Plan<D, L, M>, s: Net<D, L, M>, s': Net<D, L, M>, c: D)
    requires Grows(s, s') && c in s.nodes && SlotsOk(p, s, c)
    ensures var n := s.nodes[c]; forall j :: 0 <= j < |n.slot| ==>
      IsRequest(s', p.recvKey(c, 2 * n.stage + j), n.slot[j], c, 2 * n.stage + j)
    ensures var n := s.nodes[c]; forall j :: 0 <= j < |n.sslot| ==>
      IsMessage(s', p.sendKey(c, 2 * n.stage + j), n.sslot[j], c, 2 * n.stage + j)
  {
    var n := s.nodes[c];
    forall j | 0 <= j < |n.slot| ensures IsRequest(s', p.recvKey(c, 2 * n.stage + j), n.slot[j], c, 2 * n.stage + j) {
      assert IsRequest(s, p.recvKey(c, 2 * n.stage + j), n.slot[j], c, 2 * n.stage + j);
    }
    forall j | 0 <= j < |n.sslot| ensures IsMessage(s', p.sendKey(c, 2 * n.stage + j), n.sslot[j], c, 2 * n.stage + j) {
      assert IsMessage(s, p.sendKey(c, 2 * n.stage + j), n.sslot[j], c, 2 * n.stage + j);
    }
  }

  lemma OldSlots<D(!new), L, M>(p: Plan<D, L, M>, s: Net<D, L, M>, s': Net<D, L, M>, c: D)
    requires Grows(s, s') && c in s.nodes && SlotsOk(p, s, c) && s'.nodes[c] == s.nodes[c]
    ensures SlotsOk(p, s', c)
  {
    OldSlot(p, s, s', c);
  }

  // ----- each step keeps the books -----

  lemma PostRequest<D(!new), L, M>(p: Plan<D, L, M>, s: Net<D, L, M>, c: D, k: Key, m: nat)
    requires Books(p, s) && CanPost(p, s, c)
    ensures RequestOk(p, PostRecv(p, s, c), k, m)
  {
    var s' := PostRecv(p, s, c);
    StepGrows(p, s, c, s');
    assert RequestOk(p, s, k, m);
    if m < |Requests(s, k)| {
      OldRequest(p, s, s', k, m);
    } else if m < |Requests(s', k)| {
      forall m': nat | m' < m ensures Requests(s', k)[m'] != Requests(s', k)[m] {
        assert RequestOk(p, s, k, m');
      }
    }
  }

  lemma PostRecord<D(!new), L, M>(p: Plan<D, L, M>, s: Net<D, L, M>, c: D, b: D, e: nat)
    requires Books(p, s) && CanPost(p, s, c) && b in p.doms
    ensures Recorded(p, PostRecv(p, s, c), b, e)
  {
    var s' := PostRecv(p, s, c);
    StepGrows(p, s, c, s');
    assert Recorded(p, s, b, e) && SlotsOk(p, s, b);
    if b == c && e == s.nodes[c].posted {
      var k := p.recvKey(c, e);
      assert IsRequest(s', k, Posts(s, k), c, e);
    } else {
      OldRecord(p, s, s', b, e);
    }
  }

  lemma NewSlot<D(!new), L, M>(p: Plan<D, L, M>, s: Net<D, L, M>, c: D)
    requires CanPost(p, s, c)
    ensures var e := s.nodes[c].posted; IsRequest(PostRecv(p, s, c), p.recvKey(c, e), Posts(s, p.recvKey(c, e)), c, e)
  {
  }

  lemma PostSlots<D(!new), L, M>(p: Plan<D, L, M>, s: Net<D, L, M>, c: D, s': Net<D, L, M>)
    requires CanPost(p, s, c) && SlotsOk(p, s, c) && Grows(s, s') && c in s'.nodes && Paced(p, s'.nodes[c])
    requires var n := s.nodes[c];
             && s'.nodes[c] == n.(posted := n.posted + 1, slot := n.slot + [Posts(s, p.recvKey(c, n.posted))])
             && IsRequest(s', p.recvKey(c, n.posted), Posts(s, p.recvKey(c, n.posted)), c, n.posted)
    ensures SlotsOk(p, s', c)
  {
    OldSlot(p, s, s', c);
  }

  lemma PostBooks<D(!new), L, M>(p: Plan<D, L, M>, s: Net<D, L, M>, c: D)
    requires Books(p, s) && CanPost(p, s, c)
    ensures Books(p, PostRecv(p, s, c))
  {
    var s' := PostRecv(p, s, c);
    StepGrows(p, s, c, s');
    forall k, m: nat ensures RequestOk(p, s', k, m) && MessageOk(p, s', k, m) {
      PostRequest(p, s, c, k, m);
      assert MessageOk(p, s, k, m);
    }
    forall b, e: nat | b in p.doms ensures Recorded(p, s', b, e) {
      PostRecord(p, s, c, b, e);
    }
    forall b | b in p.doms ensures SlotsOk(p, s', b) {
      assert SlotsOk(p, s, b);
      if b == c {
        NewSlot(p, s, c);
        StepPaced(p, s, c, s');
        PostSlots(p, s, c, s');
      } else {
        OldSlots(p, s, s', b);
      }
    }
  }

  lemma SendMessage<D(!new), L, M>(p: Plan<D, L, M>, s: Net<D, L, M>, c: D, k: Key, m: nat)
    requires Books(p, s) && CanSend(p, s, c)
    ensures MessageOk(p, PostSend(p, s, c), k, m)
  {
    var s' := PostSend(p, s, c);
    StepGrows(p, s, c, s');
    assert MessageOk(p, s, k, m);
    if m < |Sent(s, k)| {
      OldMessage(p, s, s', k, m);
    } else if m < |Sent(s', k)| {
      forall m': nat | m' < m
        ensures Sent(s', k)[m'].from != Sent(s', k)[m].from || Sent(s', k)[m'].ev != Sent(s', k)[m].ev
      {
        assert MessageOk(p, s, k, m');
      }
    }
  }

  lemma NewSendSlot<D(!new), L, M>(p: Plan<D, L, M>, s: Net<D, L, M>, c: D)
    requires CanSend(p, s, c)
    ensures var e := s.nodes[c].sent; IsMessage(PostSend(p, s, c), p.sendKey(c, e), |Sent(s, p.sendKey(c, e))|, c, e)
  {
  }

  lemma SendSlots<D(!new), L, M>(p: Plan<D, L, M>, s': Net<D, L, M>, c: D, n: Node<L>, at: nat)
    requires Paced(p, n) && |n.slot| == n.posted - 2 * n.stage && |n.sslot| == n.sent - 2 * n.stage
    requires forall j :: 0 <= j < |n.slot| ==>
      IsRequest(s', p.recvKey(c, 2 * n.stage + j), n.slot[j], c, 2 * n.stage + j)
    requires forall j :: 0 <= j < |n.sslot| ==>
      IsMessage(s', p.sendKey(c, 2 * n.stage + j), n.sslot[j], c, 2 * n.stage + j)
    requires IsMessage(s', p.sendKey(c, n.sent), at, c, n.sent)
    requires c in s'.nodes && s'.nodes[c] == n.(sent := n.sent + 1, sslot := n.sslot + [at]) && Paced(p, s'.nodes[c])
    ensures SlotsOk(p, s', c)
  {
    forall j | 0 <= j < |n.sslot| + 1
      ensures IsMessage(s', p.sendKey(c, 2 * n.stage + j), (n.sslot + [at])[j], c, 2 * n.stage + j)
    {
      if j == |n.sslot| {
        assert 2 * n.stage + j == n.sent;
      }
    }
  }

  lemma SendRecord<D(!new), L, M>(p: Plan<D, L, M>, s: Net<D, L, M>, c: D, b: D, e: nat)
    requires Books(p, s) && CanSend(p, s, c) && b in p.doms
    ensures Recorded(p, PostSend(p, s, c), b, e)
  {
    var s' := PostSend(p, s, c);
    StepGrows(p, s, c, s');
    assert Recorded(p, s, b, e) && SlotsOk(p, s, b);
    if b == c && e == s.nodes[c].sent {
      var k := p.sendKey(c, e);
      assert IsMessage(s', k, |Sent(s, k)|, c, e);
      var m: nat :| IsRequest(s, p.recvKey(c, e), m, c, e);
      assert IsRequest(s', p.recvKey(c, e), m, c, e);
    } else {
      OldRecord(p, s, s', b, e);
    }
  }

  lemma SendBooks<D(!new), L, M>(p: Plan<D, L, M>, s: Net<D, L, M>, c: D)
    requires Books(p, s) && CanSend(p, s, c)
    ensures Books(p, PostSend(p, s, c))
  {
    var s' := PostSend(p, s, c);
    StepGrows(p, s, c, s');
    forall k, m: nat ensures RequestOk(p, s', k, m) && MessageOk(p, s', k, m) {
      assert RequestOk(p, s, k, m);
      SendMessage(p, s, c, k, m);
    }
    forall b, e: nat | b in p.doms ensures Recorded(p, s', b, e) {
      SendRecord(p, s, c, b, e);
    }
    forall b | b in p.doms ensures SlotsOk(p, s', b) {
      assert SlotsOk(p, s, b);
      if b == c {
        NewSendSlot(p, s, c);
        StepPaced(p, s, c, s');
        OldSlot(p, s, s', c);
        SendSlots(p, s', c, s.nodes[c], |Sent(s, p.sendKey(c, s.nodes[c].sent))|);
      } else {
        OldSlots(p, s, s', b);
      }
    }
  }

  lemma CompleteBooks<D(!new), L, M>(p: Plan<D, L, M>, s: Net<D, L, M>, c: D)
    requires Books(p, s) && CanComplete(p, s, c)
    ensures Books(p, Complete(p, s, c))
  {
    var s' := Complete(p, s, c);
    StepGrows(p, s, c, s');
    forall k, m: nat ensures RequestOk(p, s', k, m) && MessageOk(p, s', k, m) {
      assert RequestOk(p, s, k, m) && MessageOk(p, s, k, m);
    }
    forall b, e: nat | b in p.doms ensures Recorded(p, s', b, e) {
      assert Recorded(p, s, b, e);
      OldRecord(p, s, s', b, e);
    }
    forall b | b in p.doms ensures SlotsOk(p, s', b) {
      assert SlotsOk(p, s, b);
      if b != c {
        OldSlots(p, s, s', b);
      }
    }
  }

  lemma {:induction false} RunBooks<D(!new), L, M>(p: Plan<D, L, M>, init: D -> L, run: seq<Net<D, L, M>>, i: nat)
    requires IsRun(p, init, run) && i < |run|
    ensures Books(p, run[i])
  {
    if i > 0 {
      RunBooks(p, init, run, i - 1);
      assert MovesAt(p, run, i - 1);
      var c :| Step(p, run[i - 1], c, run[i]);
      if CanPost(p, run[i - 1], c) && run[i] == PostRecv(p, run[i - 1], c) {
        PostBooks(p, run[i - 1], c);
      } else if CanSend(p, run[i - 1], c) && run[i] == PostSend(p, run[i - 1], c) {
        SendBooks(p, run[i - 1], c);
      } else {
        CompleteBooks(p, run[i - 1], c);
      }
    }
  }

  lemma {:induction false} RunGrows<D(!new), L,
      M>(p: Plan<D, L, M>, init: D -> L, run: seq<Net<D, L, M>>, i: nat, j: nat)
    requires IsRun(p, init, run) && i <= j < |run|
    ensures Grows(run[i], run[j])
    decreases j - i
  {
    if i < j {
      RunGrows(p, init, run, i, j - 1);
      assert MovesAt(p, run, j - 1);
      var c :| Step(p, run[j - 1], c, run[j]);
      StepGrows(p, run[j - 1], c, run[j]);
      GrowsOn(run[i], run[j - 1], run[j]);
    }
  }

  lemma GrowsOn<D, L, M>(s: Net<D, L, M>, s1: Net<D, L, M>, s2: Net<D, L, M>)
    requires Grows(s, s1) && Grows(s1, s2)
    ensures Grows(s, s2)
  {
    forall k ensures Requests(s, k) <= Requests(s2, k) && Sent(s, k) <= Sent(s2, k) {
      assert Requests(s, k) <= Requests(s1, k) <= Requests(s2, k);
      assert Sent(s, k) <= Sent(s1, k) <= Sent(s2, k);
    }
  }

  // ----- ordered plans match rightly -----

  lemma InvIsRight<D(!new), L, M>(p: Plan<D, L, M>, init: D -> L, s: Net<D, L, M>, k: Key, m: nat)
    requires Symmetric(p) && Inv(p, init, s) && Books(p, s)
    ensures RightAt(p, s, k, m)
  {
    if m < |Requests(s, k)| && m < |Sent(s, k)| {
      var r := Requests(s, k)[m];
      assert RequestOk(p, s, k, m);
      assert SlotsOk(p, s, r.owner);
      assert PostOk(p, s, r.owner, r.ev);
      var at := Before(p, k, r.ev);
      assert RequestOk(p, s, k, at);
      assert at == m;
      assert SymmetricAt(p, r.owner, r.ev);
      assert SendOk(p, init, s, p.source(r.owner, r.ev), r.ev);
    }
  }

  lemma OrderedIsRight<D(!new), L(!new), M(!new)>(p: Plan<D, L, M>, init: D -> L)
    requires Symmetric(p) && Ordered(p)
    ensures AlwaysRight(p, init)
  {
    forall run: seq<Net<D, L, M>>, i: nat | IsRun(p, init, run) && i < |run| ensures RightIn(p, run, i) {
      RunInv(p, init, run, i);
      RunBooks(p, init, run, i);
      forall k, m: nat ensures RightAt(p, run[i], k, m) {
        InvIsRight(p, init, run[i], k, m);
      }
    }
  }

  // ----- reaching a cut -----

  /** What c needs when it has made i moves is a closed cut. */
  lemma {:induction false} NeedsClosedAt<D(!new), L, M>(p: Plan<D, L, M>, c: D, i: nat, b: D, e: nat)
    requires 5 * (e / 2) + 5 <= Needs(p, c, i, b)
    ensures SendMove(e) < Needs(p, c, i, p.source(b, e))
    decreases i
  {
    var x := p.source(b, e);
    if b == c {
      if x == c {
        NeedsOwn(p, c, i);
      } else {
        NeedsMonotone(p, c, 5 * (e / 2) + 5, i, x);
        NeedsSource(p, c, e, x);
        NeedsOwn(p, x, SendMove(e) + 1);
      }
    } else if Needs(p, c, i, b) == Needs(p, c, i - 1, b) {
      NeedsClosedAt(p, c, i - 1, b, e);
      NeedsNext(p, c, i - 1, x);
    } else {
      NeedsClosedLater(p, c, i, b, e);
    }
  }

  lemma {:induction false} NeedsClosedLater<D(!new), L, M>(p: Plan<D, L, M>, c: D, i: nat, b: D, e: nat)
    requires 0 < i && i % 5 == 0 && b != c && Needs(p, c, i, b) != Needs(p, c, i - 1, b)
    requires 5 * (e / 2) + 5 <= Needs(p, c, i, b)
    ensures SendMove(e) < Needs(p, c, i, p.source(b, e))
    decreases i, 0
  {
    var x := p.source(b, e);
    var a0, a1 := p.source(c, 2 * (i / 5) - 2), p.source(c, 2 * (i / 5) - 1);
    if x == c {
      NeedsLess(p, c, i, b);
      NeedsOwn(p, c, i);
    } else {
      NeedsIsMax(p, c, i, x, a0, a1);
      NeedsIsMax(p, c, i, b, a0, a1);
      if Needs(p, c, i, b) == Needs(p, a0, i - 2, b) {
        NeedsClosedAt(p, a0, i - 2, b, e);
      } else {
        NeedsClosedAt(p, a1, i - 1, b, e);
      }
    }
  }

  lemma NeedsIsMax<D(!new), L, M>(p: Plan<D, L, M>, c: D, i: nat, b: D, a0: D, a1: D)
    requires 0 < i && i % 5 == 0 && b != c && a0 == p.source(c, 2 * (i / 5) - 2) && a1 == p.source(c, 2 * (i / 5) - 1)
    ensures Needs(p, c, i, b) == Max(Needs(p, c, i - 1, b), Max(Needs(p, a0, i - 2, b), Needs(p, a1, i - 1, b)))
  {
  }

  /** Two cuts together. */
  ghost function Cut<D(!new), L, M>(p: Plan<D, L, M>, c: D, i: nat): D -> nat { (b: D) => Needs(p, c, i, b) }

  ghost function Both<D(!new)>(y: D -> nat, y': D -> nat): D -> nat { (b: D) => Max(y(b), y'(b)) }

  lemma CutClosed<D(!new), L, M>(p: Plan<D, L, M>, c: D, i: nat)
    ensures Closed(p, Cut(p, c, i))
  {
    forall b, e: nat | b in p.doms ensures ClosedAt(p, Cut(p, c, i), b, e) {
      if 5 * (e / 2) + 5 <= Needs(p, c, i, b) {
        NeedsClosedAt(p, c, i, b, e);
      }
    }
  }

  lemma BothClosed<D(!new), L, M>(p: Plan<D, L, M>, y: D -> nat, y': D -> nat)
    requires Closed(p, y) && Closed(p, y')
    ensures Closed(p, Both(y, y'))
  {
    forall b, e: nat | b in p.doms ensures ClosedAt(p, Both(y, y'), b, e) {
      assert ClosedAt(p, y, b, e) && ClosedAt(p, y', b, e);
    }
  }

  /** The receive that a message is rightly matched with. */
  lemma RequestOf<D(!new), L, M>(p: Plan<D, L, M>, s: Net<D, L, M>, k: Key, m: nat, a: D, e: nat)
    requires Symmetric(p) && RightAt(p, s, k, m) && RequestOk(p, s, k, m) && IsMessage(s, k, m, a, e)
    requires m < |Requests(s, k)|
    ensures Requests(s, k)[m] == Req(p.dest(a, e), e)
  {
    assert SymmetricAt(p, Requests(s, k)[m].owner, e);
  }

  /** In a state that matches rightly, a receive whose message was sent has it. */
  lemma HasMessage<D(!new), L, M>(p: Plan<D, L, M>, s: Net<D, L, M>, c: D, e: nat, q: nat)
    requires Symmetric(p) && Books(p, s) && Right(p, s) && c in p.doms
    requires IsRequest(s, p.recvKey(c, e), q, c, e) && p.source(c, e) in s.nodes && e < s.nodes[p.source(c, e)].sent
    ensures q < |Sent(s, p.recvKey(c, e))|
  {
    var k := p.recvKey(c, e);
    var source := p.source(c, e);
    assert SymmetricAt(p, c, e);
    assert Recorded(p, s, source, e);
    var r: nat :| IsMessage(s, k, r, source, e);
    if |Sent(s, k)| <= q {
      assert RightAt(p, s, k, r) && RequestOk(p, s, k, r) && RequestOk(p, s, k, q);
      RequestOf(p, s, k, r, source, e);
      assert false;
    }
  }

  lemma MessageOf<D(!new), L, M>(p: Plan<D, L, M>, s: Net<D, L, M>, k: Key, m: nat, c: D, e: nat)
    requires Right(p, s) && IsRequest(s, k, m, c, e) && m < |Sent(s, k)|
    ensures IsMessage(s, k, m, p.source(c, e), e)
  {
    assert RightAt(p, s, k, m);
  }

  /** And a message whose receive was posted has it. */
  lemma HasReceive<D(!new), L, M>(p: Plan<D, L, M>, s: Net<D, L, M>, c: D, e: nat, q: nat)
    requires Symmetric(p) && Books(p, s) && Right(p, s) && c in p.doms
    requires IsMessage(s, p.sendKey(c, e), q, c, e) && p.dest(c, e) in s.nodes && e < s.nodes[p.dest(c, e)].posted
    ensures q < Posts(s, p.sendKey(c, e))
  {
    var k := p.sendKey(c, e);
    assert SymmetricAt(p, c, e);
    assert Recorded(p, s, p.dest(c, e), e);
    var r: nat :| IsRequest(s, k, r, p.dest(c, e), e);
    if Posts(s, k) <= q {
      assert MessageOk(p, s, k, q) && RequestOk(p, s, k, r);
      MessageOf(p, s, k, r, p.dest(c, e), e);
      assert false;
    }
  }

  /** A process that has posted all of its stage can complete it once all have sent theirs. */
  lemma AllSentMustComplete<D(!new), L, M>(p: Plan<D, L, M>, s: Net<D, L, M>, c: D)
    requires Symmetric(p) && Books(p, s) && Right(p, s) && c in p.doms && s.nodes[c].stage < p.stages
    requires forall b :: b in p.doms ==> 2 * s.nodes[c].stage + 2 <= s.nodes[b].sent
    ensures MustComplete(p, s, c)
  {
    var n := s.nodes[c];
    assert SlotsOk(p, s, c);
    EndsMatched(p, s, c, 0);
    EndsMatched(p, s, c, 1);
  }

  lemma EndsMatched<D(!new), L, M>(p: Plan<D, L, M>, s: Net<D, L, M>, c: D, j: nat)
    requires Symmetric(p) && Books(p, s) && Right(p, s) && c in p.doms && j < 2
    requires |s.nodes[c].slot| == |s.nodes[c].sslot| == 2
    requires forall b :: b in p.doms ==> 2 * s.nodes[c].stage + 2 <= s.nodes[b].sent
    ensures s.nodes[c].slot[j] < |Sent(s, p.recvKey(c, 2 * s.nodes[c].stage + j))|
    ensures s.nodes[c].sslot[j] < Posts(s, p.sendKey(c, 2 * s.nodes[c].stage + j))
  {
    var n := s.nodes[c];
    var e := 2 * n.stage + j;
    assert SlotsOk(p, s, c) && SymmetricAt(p, c, e) && SlotsOk(p, s, p.dest(c, e));
    HasMessage(p, s, c, e, n.slot[j]);
    HasReceive(p, s, c, e, n.sslot[j]);
  }

  /** Only a wrong match can block a run, of any plan: while all are right and some process is
      unfinished, some process can or must take a step, even if no send is buffered. */
  lemma OnlyWrongBlocks<D(!new), L, M>(p: Plan<D, L, M>, init: D -> L, run: seq<Net<D, L, M>>, i: nat)
    requires Symmetric(p) && IsRun(p, init, run) && i < |run| && Right(p, run[i]) && !Finished(p, run[i])
    ensures exists c :: c in p.doms && CanMove(p, run[i], c)
  {
    var s := run[i];
    RunBooks(p, init, run, i);
    var c := Hindmost(p, s);
    assert SlotsOk(p, s, c);
    if s.nodes[c].sent == 2 * s.nodes[c].stage + 2 {
      forall b | b in p.doms ensures 2 * s.nodes[c].stage + 2 <= s.nodes[b].sent {
        assert SlotsOk(p, s, b);
      }
      AllSentMustComplete(p, s, c);
    }
    assert CanMove(p, s, c);
  }

  /** An unfinished process that has sent least. */
  lemma Hindmost<D(!new), L, M>(p: Plan<D, L, M>, s: Net<D, L, M>) returns (c: D)
    requires Books(p, s) && !Finished(p, s)
    ensures c in p.doms && s.nodes[c].stage < p.stages
    ensures forall b :: b in p.doms && s.nodes[b].stage < p.stages ==> s.nodes[c].sent <= s.nodes[b].sent
  {
    var open := set c | c in p.doms && s.nodes[c].stage < p.stages;
    var c0 :| c0 in p.doms && s.nodes[c0].stage != p.stages;
    assert SlotsOk(p, s, c0);
    assert c0 in open;
    var sent := (b: D) => if b in s.nodes then s.nodes[b].sent else 0;
    c := Least(open, sent);
    assert forall b :: b in open ==> sent(b) == s.nodes[b].sent;
  }

  /** Of the processes that lag behind a closed cut, the one that lags most can take its next move. */
  lemma LastAdvances<D(!new), L, M>(p: Plan<D, L, M>, s: Net<D, L, M>, y: D -> nat, c: D)
    requires Symmetric(p) && Books(p, s) && Right(p, s) && Closed(p, y) && c in p.doms
    requires Work(s.nodes[c]) < y(c) <= 5 * p.stages
    requires forall b :: b in p.doms && Work(s.nodes[b]) < y(b) ==> Work(s.nodes[c]) <= Work(s.nodes[b])
    ensures CanPost(p, s, c) || CanSend(p, s, c) || CanComplete(p, s, c)
  {
    var n := s.nodes[c];
    assert SlotsOk(p, s, c);
    if n.stage < p.stages && n.sent == 2 * n.stage + 2 {
      SourceSent(p, s, y, c, 2 * n.stage);
      SourceSent(p, s, y, c, 2 * n.stage + 1);
      assert IsRequest(s, p.recvKey(c, 2 * n.stage + 0), n.slot[0], c, 2 * n.stage + 0);
      HasMessage(p, s, c, 2 * n.stage, n.slot[0]);
      HasMessage(p, s, c, 2 * n.stage + 1, n.slot[1]);
    }
  }

  lemma SourceSent<D(!new), L, M>(p: Plan<D, L, M>, s: Net<D, L, M>, y: D -> nat, c: D, e: nat)
    requires Symmetric(p) && Books(p, s) && Closed(p, y) && c in p.doms
    requires Work(s.nodes[c]) == 5 * (e / 2) + 4 < y(c)
    requires forall b :: b in p.doms && Work(s.nodes[b]) < y(b) ==> Work(s.nodes[c]) <= Work(s.nodes[b])
    ensures p.source(c, e) in s.nodes && e < s.nodes[p.source(c, e)].sent
  {
    var b := p.source(c, e);
    assert SymmetricAt(p, c, e) && ClosedAt(p, y, c, e) && SlotsOk(p, s, b);
    WorkTells(p, s.nodes[b], e);
  }

  ghost predicate AtCut<D(!new), L, M>(p: Plan<D, L, M>, s: Net<D, L, M>, y: D -> nat) {
    forall c :: c in p.doms ==> c in s.nodes && Work(s.nodes[c]) == y(c)
  }

  lemma Advance<D(!new), L, M>(p: Plan<D, L, M>, s: Net<D, L, M>, c: D) returns (s': Net<D, L, M>)
    requires CanPost(p, s, c) || CanSend(p, s, c) || CanComplete(p, s, c)
    ensures Step(p, s, c, s')
  {
    s' := if CanPost(p, s, c) then PostRecv(p, s, c)
          else if CanSend(p, s, c) then PostSend(p, s, c) else Complete(p, s, c);
  }

  ghost predicate Behind<D(!new), L, M>(p: Plan<D, L, M>, s: Net<D, L, M>, y: D -> nat) {
    forall c :: c in p.doms ==> c in s.nodes && Work(s.nodes[c]) <= y(c) <= 5 * p.stages
  }

  lemma Laggard<D(!new), L, M>(p: Plan<D, L, M>, s: Net<D, L, M>, y: D -> nat) returns (c: D)
    requires p.doms <= s.nodes.Keys && exists b :: b in p.doms && Work(s.nodes[b]) < y(b)
    ensures c in p.doms && Work(s.nodes[c]) < y(c)
    ensures forall b :: b in p.doms && Work(s.nodes[b]) < y(b) ==> Work(s.nodes[c]) <= Work(s.nodes[b])
  {
    var lagging := set c | c in p.doms && Work(s.nodes[c]) < y(c);
    var b0 :| b0 in p.doms && Work(s.nodes[b0]) < y(b0);
    assert b0 in lagging;
    c := Least(lagging, WorkOf(s.nodes));
    assert forall b :: b in lagging ==> WorkOf(s.nodes)(b) == Work(s.nodes[b]);
  }

  lemma NextToward<D(!new), L(!new), M(!new)>(p: Plan<D, L, M>, init: D -> L, run: seq<Net<D, L, M>>, y: D -> nat)
      returns (s': Net<D, L, M>)
    requires Symmetric(p) && AlwaysRight(p, init) && IsRun(p, init, run) && Closed(p, y)
    requires Behind(p, run[|run| - 1], y)
    requires exists b :: b in p.doms && Work(run[|run| - 1].nodes[b]) < y(b)
    ensures IsRun(p, init, run + [s']) && Behind(p, s', y)
  {
    var s := run[|run| - 1];
    var c := Laggard(p, s, y);
    RunBooks(p, init, run, |run| - 1);
    assert RightIn(p, run, |run| - 1);
    LastAdvances(p, s, y, c);
    s' := Advance(p, s, c);
    StepWork(p, s, c, s');
    ExtendRun(p, init, run, c, s');
  }

  /** Where all matches are right, a run can be continued to any closed cut ahead of it. */
  lemma {:induction false} Reach<D(!new), L(!new), M(!new)>(p: Plan<D, L, M>, init: D -> L, run: seq<Net<D, L, M>>,
      y: D -> nat)
      returns (more: seq<Net<D, L, M>>)
    requires Symmetric(p) && AlwaysRight(p, init) && IsRun(p, init, run) && Closed(p, y)
    requires Behind(p, run[|run| - 1], y)
    ensures run <= more && IsRun(p, init, more) && AtCut(p, more[|more| - 1], y)
    decreases |p.doms| * (5 * p.stages) + 1 - |run|
  {
    var s := run[|run| - 1];
    if forall c :: c in p.doms ==> Work(s.nodes[c]) == y(c) {
      more := run;
    } else {
      var s' := NextToward(p, init, run, y);
      RunsTerminate(p, init, run + [s']);
      more := Reach(p, init, run + [s'], y);
    }
  }

  // ----- plans that are not ordered -----

  /** If the receive of a's event e was posted before that of another event of its channel, and
      now the other was sent but not a's, a match is wrong. */
  lemma WrongOrder<D(!new), L, M>(p: Plan<D, L, M>, s1: Net<D, L, M>, s: Net<D, L, M>, a: D, e: nat, a': D, e': nat)
    requires Symmetric(p) && Books(p, s1) && Books(p, s) && Grows(s1, s) && a in p.doms && a' in p.doms
    requires p.sendKey(a, e) == p.sendKey(a', e') && p.dest(a, e) in s1.nodes && p.dest(a', e') in s1.nodes
    requires e < s1.nodes[p.dest(a, e)].posted && s1.nodes[p.dest(a', e')].posted <= e'
    requires e' < s.nodes[a'].sent && s.nodes[a].sent <= e
    ensures !Right(p, s)
  {
    var k := p.sendKey(a, e);
    var b := p.dest(a, e);
    assert SymmetricAt(p, a, e) && SymmetricAt(p, a', e');
    assert Recorded(p, s1, b, e) && Recorded(p, s, a', e');
    var q: nat :| IsRequest(s1, k, q, b, e);
    var r: nat :| IsMessage(s, k, r, a', e');
    if Right(p, s) {
      assert RightAt(p, s, k, q) && RightAt(p, s, k, r);
      assert IsRequest(s, k, q, b, e);
      assert MessageOk(p, s, k, q);
      assert RequestOk(p, s1, k, r) && RequestOk(p, s, k, r);
      RequestOf(p, s, k, r, a', e');
      assert false;
    }
  }

  lemma CutAhead<D(!new), L, M>(p: Plan<D, L, M>, c: D, i: nat)
    requires i <= 5 * p.stages
    ensures forall b :: Cut(p, c, i)(b) <= 5 * p.stages
  {
    forall b ensures Cut(p, c, i)(b) <= 5 * p.stages {
      NeedsLess(p, c, i, b);
    }
  }

  /** A run to the cut of c after i moves, and on to that together with the cut of c' after i'. */
  lemma TwoCuts<D(!new), L(!new), M(!new)>(p: Plan<D, L, M>, init: D -> L, c: D, i: nat, c': D, i': nat)
      returns (s1: Net<D, L, M>, s: Net<D, L, M>)
    requires Symmetric(p) && AlwaysRight(p, init) && i <= 5 * p.stages && i' <= 5 * p.stages
    ensures Books(p, s1) && Books(p, s) && Grows(s1, s) && Right(p, s)
    ensures AtCut(p, s1, Cut(p, c, i)) && AtCut(p, s, Both(Cut(p, c, i), Cut(p, c', i')))
  {
    var run := Start(p, init);
    CutClosed(p, c, i);
    CutClosed(p, c', i');
    CutAhead(p, c, i);
    CutAhead(p, c', i');
    BothClosed(p, Cut(p, c, i), Cut(p, c', i'));
    var run1 := Reach(p, init, run, Cut(p, c, i));
    var run2 := Reach(p, init, run1, Both(Cut(p, c, i), Cut(p, c', i')));
    s1, s := run1[|run1| - 1], run2[|run2| - 1];
    RunBooks(p, init, run1, |run1| - 1);
    RunBooks(p, init, run2, |run2| - 1);
    assert run2[|run1| - 1] == s1;
    RunGrows(p, init, run2, |run1| - 1, |run2| - 1);
    assert RightIn(p, run2, |run2| - 1);
  }

  lemma Start<D(!new), L, M>(p: Plan<D, L, M>, init: D -> L) returns (run: seq<Net<D, L, M>>)
    ensures IsRun(p, init, run) && |run| == 1
    ensures forall c :: c in p.doms ==> c in run[0].nodes && Work(run[0].nodes[c]) == 0
  {
    run := [Net(map c | c in p.doms :: Node(0, 0, 0, [], [], init(c)), map[], map[])];
  }

  lemma AtCutTells<D(!new), L, M>(p: Plan<D, L, M>, s: Net<D, L, M>, y: D -> nat, c: D, e: nat)
    requires Books(p, s) && AtCut(p, s, y) && c in p.doms
    ensures e < s.nodes[c].posted <==> ReceiveMove(e) < y(c)
    ensures e < s.nodes[c].sent <==> SendMove(e) < y(c)
  {
    assert SlotsOk(p, s, c);
    WorkTells(p, s.nodes[c], e);
  }

  /** Between receives and sends of a stage, more moves of one's own ask no more of others. */
  lemma NeedsSame<D(!new), L, M>(p: Plan<D, L, M>, c: D, e: nat, b: D)
    requires b != c
    ensures Needs(p, c, SendMove(e) + 1, b) == Needs(p, c, SendMove(e), b)
    ensures Needs(p, c, ReceiveMove(e) + 1, b) == Needs(p, c, ReceiveMove(e), b)
  {
  }

  ghost predicate OneChannel<D(!new), L, M>(p: Plan<D, L, M>, a: D, e: nat, a': D, e': nat) {
    && a in p.doms && a' in p.doms && e <= e' < 2 * p.stages && (a != a' || e != e')
    && p.sendKey(a, e) == p.sendKey(a', e')
  }

  lemma MovesNotBelow(e: nat, e': nat)
    requires e <= e'
    ensures SendMove(e) <= SendMove(e') && ReceiveMove(e) <= ReceiveMove(e') && ReceiveMove(e) < SendMove(e)
    ensures e < e' ==> SendMove(e) < SendMove(e') && ReceiveMove(e) < ReceiveMove(e')
  {
  }

  /** The cut at which b has just posted the receive of a's event e, and on to that at which a'
      has just sent e'. */
  lemma SentFirstCuts<D(!new), L, M>(p: Plan<D, L, M>, a: D, e: nat, a': D, e': nat, b: D, b': D)
    requires Symmetric(p) && OneChannel(p, a, e, a', e') && b == p.dest(a, e) && b' == p.dest(a', e')
    requires Needs(p, a', SendMove(e'), a) <= SendMove(e)
    ensures Needs(p, b, ReceiveMove(e) + 1, b) > ReceiveMove(e)
    ensures Needs(p, b, ReceiveMove(e) + 1, b') <= ReceiveMove(e')
    ensures Needs(p, a', SendMove(e') + 1, a') > SendMove(e')
    ensures Needs(p, b, ReceiveMove(e) + 1, a) <= SendMove(e) && Needs(p, a', SendMove(e') + 1, a) <= SendMove(e)
  {
    assert SymmetricAt(p, a, e) && SymmetricAt(p, a', e');
    MovesNotBelow(e, e');
    NeedsOwn(p, b, ReceiveMove(e) + 1);
    NeedsOwn(p, a', SendMove(e'));
    NeedsOwn(p, a', SendMove(e') + 1);
    NeedsLess(p, b, ReceiveMove(e) + 1, b');
    NeedsLess(p, b, ReceiveMove(e) + 1, a);
    if a != a' {
      NeedsSame(p, a', e', a);
    }
  }

  /** The cut at which b' has just posted the receive of e', and on to that at which a has just
      sent e. */
  lemma PostedFirstCuts<D(!new), L, M>(p: Plan<D, L, M>, a: D, e: nat, a': D, e': nat, b: D, b': D)
    requires Symmetric(p) && OneChannel(p, a, e, a', e') && b == p.dest(a, e) && b' == p.dest(a', e')
    requires Needs(p, b', ReceiveMove(e'), b) <= ReceiveMove(e)
    ensures Needs(p, b', ReceiveMove(e') + 1, b') > ReceiveMove(e')
    ensures Needs(p, b', ReceiveMove(e') + 1, b) <= ReceiveMove(e)
    ensures Needs(p, a, SendMove(e) + 1, a) > SendMove(e)
    ensures Needs(p, b', ReceiveMove(e') + 1, a') <= SendMove(e') && Needs(p, a, SendMove(e) + 1, a') <= SendMove(e')
  {
    assert SymmetricAt(p, a, e) && SymmetricAt(p, a', e');
    MovesNotBelow(e, e');
    MovesNotBelow(e', e');
    NeedsOwn(p, b', ReceiveMove(e'));
    NeedsOwn(p, b', ReceiveMove(e') + 1);
    NeedsOwn(p, a, SendMove(e) + 1);
    NeedsLess(p, b', ReceiveMove(e') + 1, a');
    NeedsLess(p, a, SendMove(e) + 1, a');
    if b != b' {
      NeedsSame(p, b', e', b);
    }
  }

  /** If there is a cut at which the receive of a's event e is posted but not that of a' and e',
      and a later one at which a' has sent e' but a not e, some match is wrong. */
  lemma CutsMismatch<D(!new), L(!new), M(!new)>(p: Plan<D, L, M>, init: D -> L, a: D, e: nat, a': D, e': nat,
      x: D, i: nat, x': D, i': nat)
    requires Symmetric(p) && a in p.doms && a' in p.doms && p.sendKey(a, e) == p.sendKey(a', e')
    requires i <= 5 * p.stages && i' <= 5 * p.stages
    requires ReceiveMove(e) < Needs(p, x, i, p.dest(a, e)) && Needs(p, x, i, p.dest(a', e')) <= ReceiveMove(e')
    requires Needs(p, x, i, a) <= SendMove(e) && Needs(p, x', i', a) <= SendMove(e)
    requires SendMove(e') < Max(Needs(p, x, i, a'), Needs(p, x', i', a'))
    ensures !AlwaysRight(p, init)
  {
    if AlwaysRight(p, init) {
      assert SymmetricAt(p, a, e) && SymmetricAt(p, a', e');
      var y, y' := Cut(p, x, i), Cut(p, x', i');
      var s1, s := TwoCuts(p, init, x, i, x', i');
      AtCutTells(p, s1, y, p.dest(a, e), e);
      AtCutTells(p, s1, y, p.dest(a', e'), e');
      AtCutTells(p, s, Both(y, y'), a, e);
      AtCutTells(p, s, Both(y, y'), a', e');
      WrongOrder(p, s1, s, a, e, a', e');
    }
  }

  /** A later event that can be sent first is matched with the receive of the earlier one. */
  lemma SentFirst<D(!new), L(!new), M(!new)>(p: Plan<D, L, M>, init: D -> L, a: D, e: nat, a': D, e': nat)
    requires Symmetric(p) && OneChannel(p, a, e, a', e') && Needs(p, a', SendMove(e'), a) <= SendMove(e)
    ensures !AlwaysRight(p, init)
  {
    var b, b' := p.dest(a, e), p.dest(a', e');
    SentFirstCuts(p, a, e, a', e', b, b');
    CutsMismatch(p, init, a, e, a', e', b, ReceiveMove(e) + 1, a', SendMove(e') + 1);
  }

  /** A later event whose receive can be posted first is matched with the message of the earlier. */
  lemma PostedFirst<D(!new), L(!new), M(!new)>(p: Plan<D, L, M>, init: D -> L, a: D, e: nat, a': D, e': nat)
    requires Symmetric(p) && OneChannel(p, a, e, a', e')
    requires Needs(p, p.dest(a', e'), ReceiveMove(e'), p.dest(a, e)) <= ReceiveMove(e)
    ensures !AlwaysRight(p, init)
  {
    var b, b' := p.dest(a, e), p.dest(a', e');
    PostedFirstCuts(p, a, e, a', e', b, b');
    CutsMismatch(p, init, a', e', a, e, b', ReceiveMove(e') + 1, a, SendMove(e) + 1);
  }

  /** The condition is exact: all matches of all runs are right if and only if the plan is
      ordered, whatever the processes compute and start from. */
  lemma OrderedIff<D(!new), L(!new), M(!new)>(p: Plan<D, L, M>, init: D -> L)
    requires Symmetric(p)
    ensures AlwaysRight(p, init) <==> Ordered(p)
  {
    if Ordered(p) {
      OrderedIsRight(p, init);
    }
    forall a, e: nat, a', e': nat | a in p.doms && a' in p.doms && e' < 2 * p.stages && AlwaysRight(p, init)
      ensures OrderedAt(p, a, e, a', e')
    {
      if OneChannel(p, a, e, a', e') && Needs(p, a', SendMove(e'), a) <= SendMove(e) {
        SentFirst(p, init, a, e, a', e');
      } else if OneChannel(p, a, e, a', e')
          && Needs(p, p.dest(a', e'), ReceiveMove(e'), p.dest(a, e)) <= ReceiveMove(e) {
        PostedFirst(p, init, a, e, a', e');
      }
    }
  }
}
