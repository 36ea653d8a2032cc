/** What ends a call of `repeat_for`: the elapsed times that its threads receive. */
module LoopTimes {
  import opened Grid
  import opened SyncLoop

  /** How many iterations of d executions it takes, one at least, to reach x executions. */
  function Rounds(x: nat, d: nat): (k: nat)
    requires d > 0
    ensures k >= 1 && k * d >= x && (k == 1 || (k - 1) * d < x)
  {
    if x <= d then 1 else
      RoundUp(x, d);
      (x + d - 1) / d
  }

  lemma RoundUp(x: nat, d: nat)
    requires d > 0 && x > d
    ensures var k := (x + d - 1) / d; k >= 1 && k * d >= x && (k - 1) * d < x
  {
    var k := (x + d - 1) / d;
    assert x + d - 1 == d * k + (x + d - 1) % d;
    assert k * d == d * k && (k - 1) * d == k * d - d;
    if k <= 0 {
      ProductMonotone(d, k, 0);
    }
  }

  /** A call that receives these elapsed times returns v.  Iterations below the minimum receive
      none.  Every time but the last is below the limit; the last is not, unless the maximum
      was reached before the time was up. */
  ghost predicate Ends(a: Args, times: seq<real>, v: nat) {
    var d := if a.step < 1 then 1 else a.step;
    var first, most := Rounds(a.least, d), Rounds(a.most, d);
    && (forall q :: 0 <= q < |times| - 1 ==> times[q] < a.seconds)
    && if v < a.most then
         times != [] && times[|times| - 1] >= a.seconds && v == (first + |times| - 1) * d
       else
         (times != [] ==> times[|times| - 1] < a.seconds)
         && v == most * d && |times| == if most <= first then 0 else most - first
  }

  function Joined(parts: seq<seq<real>>): seq<real> {
    if parts == [] then [] else Joined(parts[..|parts| - 1]) + parts[|parts| - 1]
  }

  /** The first |rets| calls have received these parts and returned these numbers. */
  ghost predicate Ended(jobs: seq<Args>, parts: seq<seq<real>>, rets: seq<nat>) {
    |parts| == |rets| <= |jobs| && forall c :: 0 <= c < |parts| ==> Ends(jobs[c], parts[c], rets[c])
  }

  /** Where the times lead: earlier calls have ended, and the current one has received `now`,
      all below its limit, and asks again. */
  ghost predicate Leads(jobs: seq<Args>, dts: seq<real>, parts: seq<seq<real>>, now: seq<real>, p: Place) {
    match p
    case Over(rets) => |rets| == |jobs| && Ended(jobs, parts, rets) && now == [] && dts == Joined(parts)
    case Asking(c, i, rets) =>
      && c == |rets| < |jobs| && Ended(jobs, parts, rets) && dts == Joined(parts) + now
      && (forall q :: 0 <= q < |now| ==> now[q] < jobs[c].seconds)
      && var k := Rounds(jobs[c].least, Inc(jobs[c])) + |now|;
         i == k * Inc(jobs[c]) && i < jobs[c].most
  }

  lemma OneMore(q: nat, d: nat)
    ensures (q + 1) * d == q * d + d
  {
  }

  lemma Below(q: nat, k: nat, d: nat, x: nat)
    requires d > 0 && k == Rounds(x, d)
    ensures 1 <= q < k ==> q * d < x
    ensures k <= q ==> q * d >= x
  {
    if 1 <= q < k {
      ProductMonotone(d, q, k - 1);
      assert d * q == q * d && d * (k - 1) == (k - 1) * d;
    } else if k <= q {
      ProductMonotone(d, k, q);
      assert d * q == q * d && d * k == k * d;
    }
  }

  /** After q iterations of call c the next question comes after iteration `ask`, if the maximum
      is not reached by then. */
  lemma {:induction false} BeginAsks(jobs: seq<Args>, c: nat, q: nat, i: nat, rets: seq<nat>, ask: nat, d: nat,
      most: nat)
    requires c < |jobs| && d == Inc(jobs[c]) && i == q * d && most == Rounds(jobs[c].most, d) && q < most
    requires var first := Rounds(jobs[c].least, d); ask == if q + 1 < first then first else q + 1
    ensures ask < most ==> Begin(jobs, c, i, rets) == Asking(c, ask * d, rets) && ask * d < jobs[c].most
    ensures most <= ask ==> Begin(jobs, c, i, rets) == Begin(jobs, c + 1, 0, rets + [most * d])
    decreases most - q
  {
    var first := Rounds(jobs[c].least, d);
    OneMore(q, d);
    Below(q + 1, most, d, jobs[c].most);
    Below(q + 1, first, d, jobs[c].least);
    BeginUnfolds(jobs, c, i, rets, i + d, Begin(jobs, c, i, rets));
    if q + 1 < most && q + 1 < first {
      BeginAsks(jobs, c, q + 1, i + d, rets, ask, d, most);
    }
  }

  lemma JoinedMore(parts: seq<seq<real>>, last: seq<real>)
    ensures Joined(parts + [last]) == Joined(parts) + last
  {
    assert (parts + [last])[..|parts|] == parts;
  }

  /** A call begins; calls whose maximum is reached below their minimum end without a question. */
  lemma {:induction false} CallBegins(jobs: seq<Args>, c: nat, dts: seq<real>, parts: seq<seq<real>>, rets: seq<nat>)
      returns (parts': seq<seq<real>>)
    requires c == |rets| <= |jobs| && Ended(jobs, parts, rets) && dts == Joined(parts)
    ensures Leads(jobs, dts, parts', [], Begin(jobs, c, 0, rets))
    decreases |jobs| - c
  {
    parts' := parts;
    if c < |jobs| {
      var d := Inc(jobs[c]);
      var first, most := Rounds(jobs[c].least, d), Rounds(jobs[c].most, d);
      BeginAsks(jobs, c, 0, 0, rets, first, d, most);
      if most <= first {
        EndsByMost(jobs[c], [], most * d);
        OneMoreEnded(jobs, parts, rets, [], most * d);
        parts' := CallBegins(jobs, c + 1, dts, parts + [[]], rets + [most * d]);
      }
    }
  }

  /** A call that ends with a time that is up. */
  lemma EndsByTime(a: Args, now: seq<real>, dt: real, v: nat)
    requires (forall q :: 0 <= q < |now| ==> now[q] < a.seconds) && dt >= a.seconds && v < a.most
    requires v == (Rounds(a.least, Inc(a)) + |now|) * Inc(a)
    ensures Ends(a, now + [dt], v)
  {
    var times := now + [dt];
    assert |times| - 1 == |now| && times[|times| - 1] == dt;
  }

  /** A call that ends because the maximum is reached. */
  lemma EndsByMost(a: Args, times: seq<real>, v: nat)
    requires forall q :: 0 <= q < |times| ==> times[q] < a.seconds
    requires v == Rounds(a.most, Inc(a)) * Inc(a)
    requires var first, most := Rounds(a.least, Inc(a)), Rounds(a.most, Inc(a));
             |times| == if most <= first then 0 else most - first
    ensures Ends(a, times, v)
  {
  }

  lemma OneMoreEnded(jobs: seq<Args>, parts: seq<seq<real>>, rets: seq<nat>, part: seq<real>, v: nat)
    requires Ended(jobs, parts, rets) && |rets| < |jobs| && Ends(jobs[|rets|], part, v)
    ensures Ended(jobs, parts + [part], rets + [v]) && Joined(parts + [part]) == Joined(parts) + part
  {
    JoinedMore(parts, part);
  }

  /** The time is up: the call ends. */
  lemma TimeIsUp(jobs: seq<Args>, dts: seq<real>, parts: seq<seq<real>>, now: seq<real>, p: Place, dt: real)
      returns (parts': seq<seq<real>>)
    requires p.Asking? && Leads(jobs, dts, parts, now, p) && dt >= jobs[p.c].seconds
    ensures Leads(jobs, dts + [dt], parts', [], Begin(jobs, p.c + 1, 0, p.rets + [p.i]))
  {
    EndsByTime(jobs[p.c], now, dt, p.i);
    OneMoreEnded(jobs, parts, p.rets, now + [dt], p.i);
    assert dts + [dt] == Joined(parts) + (now + [dt]);
    parts' := CallBegins(jobs, p.c + 1, dts + [dt], parts + [now + [dt]], p.rets + [p.i]);
  }

  /** The maximum is reached before the next question. */
  lemma MostReached(jobs: seq<Args>, dts: seq<real>, parts: seq<seq<real>>, now: seq<real>, c: nat, rets: seq<nat>)
      returns (parts': seq<seq<real>>)
    requires c == |rets| < |jobs| && Ended(jobs, parts, rets) && dts == Joined(parts) + now
    requires forall q :: 0 <= q < |now| ==> now[q] < jobs[c].seconds
    requires Rounds(jobs[c].least, Inc(jobs[c])) + |now| == Rounds(jobs[c].most, Inc(jobs[c]))
    ensures Leads(jobs, dts, parts', [],
                  Begin(jobs, c + 1, 0, rets + [Rounds(jobs[c].most, Inc(jobs[c])) * Inc(jobs[c])]))
  {
    var v := Rounds(jobs[c].most, Inc(jobs[c])) * Inc(jobs[c]);
    EndsByMost(jobs[c], now, v);
    OneMoreEnded(jobs, parts, rets, now, v);
    parts' := CallBegins(jobs, c + 1, dts, parts + [now], rets + [v]);
  }

  /** The time is not up: the call goes on. */
  lemma TimeIsLeft(jobs: seq<Args>, dts: seq<real>, parts: seq<seq<real>>, now: seq<real>, p: Place, dt: real)
      returns (parts': seq<seq<real>>, now': seq<real>)
    requires p.Asking? && Leads(jobs, dts, parts, now, p) && dt < jobs[p.c].seconds
    ensures Leads(jobs, dts + [dt], parts', now', Begin(jobs, p.c, p.i, p.rets))
  {
    var d := Inc(jobs[p.c]);
    var first, most := Rounds(jobs[p.c].least, d), Rounds(jobs[p.c].most, d);
    var k := first + |now|;
    assert dts + [dt] == Joined(parts) + (now + [dt]);
    Below(k, most, d, jobs[p.c].most);
    BeginAsks(jobs, p.c, k, p.i, p.rets, k + 1, d, most);
    if most <= k + 1 {
      parts' := MostReached(jobs, dts + [dt], parts, now + [dt], p.c, p.rets);
      now' := [];
    } else {
      parts', now' := parts, now + [dt];
    }
  }

  /** One more elapsed time. */
  lemma TimeReceived(jobs: seq<Args>, dts: seq<real>, parts: seq<seq<real>>, now: seq<real>, p: Place, dt: real)
      returns (parts': seq<seq<real>>, now': seq<real>)
    requires p.Asking? && Leads(jobs, dts, parts, now, p)
    ensures Leads(jobs, dts + [dt], parts', now', Answer(jobs, p, dt))
  {
    if dt < jobs[p.c].seconds {
      parts', now' := TimeIsLeft(jobs, dts, parts, now, p, dt);
    } else {
      parts' := TimeIsUp(jobs, dts, parts, now, p, dt);
      now' := [];
    }
  }

  /** Every time that a thread has received answered a question. */
  ghost predicate Answered(jobs: seq<Args>, dts: seq<real>) {
    dts != [] ==> Replay(jobs, Before(dts)).Asking?
  }

  lemma {:induction false} ReplayLeads(jobs: seq<Args>, dts: seq<real>)
      returns (parts: seq<seq<real>>, now: seq<real>)
    requires Answered(jobs, dts)
    ensures Leads(jobs, dts, parts, now, Replay(jobs, dts))
  {
    if dts == [] {
      now := [];
      parts := CallBegins(jobs, 0, [], [], []);
    } else {
      var before := Before(dts);
      if before != [] {
        assert Replay(jobs, before) == Answer(jobs, Replay(jobs, Before(before)), before[|before| - 1]);
      }
      parts, now := ReplayLeads(jobs, before);
      assert dts == before + [dts[|dts| - 1]];
      parts, now := TimeReceived(jobs, before, parts, now, Replay(jobs, before), dts[|dts| - 1]);
    }
  }

  // ----- runs -----

  lemma AdvanceAnswered(jobs: seq<Args>, n: nat, s: State, k: nat, x: real, s': State)
    requires Advance(jobs, n, s, k, x, s') && OnTrack(jobs, s.ts[k]) && Answered(jobs, s.ts[k].seen)
    ensures Answered(jobs, s'.ts[k].seen)
  {
    if s.ts[k].pc.Read? {
      assert Before(s.ts[k].seen + [s.dt]) == s.ts[k].seen;
    }
  }

  lemma StepAnswered(jobs: seq<Args>, n: nat, s: State, s': State, k: nat)
    requires Step(jobs, n, s, s') && k < |s.ts| && OnTrack(jobs, s.ts[k]) && Answered(jobs, s.ts[k].seen)
    ensures |s'.ts| == |s.ts| && Answered(jobs, s'.ts[k].seen)
  {
    if j: nat, x: real :| Advance(jobs, n, s, j, x, s') {
      if j == k {
        AdvanceAnswered(jobs, n, s, k, x, s');
      } else {
        assert s'.ts[k] == s.ts[k];
      }
    } else {
      var j: nat :| Spin(n, s, j, s');
      assert s'.ts[k].seen == s.ts[k].seen;
    }
  }

  lemma {:induction false} RunAnswered(jobs: seq<Args>, n: nat, run: seq<State>, m: nat, k: nat)
    requires IsRun(jobs, n, run) && m < |run| && k < n
    ensures |run[m].ts| == n && Answered(jobs, run[m].ts[k].seen)
  {
    if m > 0 {
      RunAnswered(jobs, n, run, m - 1, k);
      var r := RunInv(jobs, n, run, m - 1);
      assert Step(jobs, n, run[m - 1], run[m - 1 + 1]);
      StepAnswered(jobs, n, run[m - 1], run[m], k);
    }
  }

  lemma DoneParts(jobs: seq<Args>, t: Thread) returns (parts: seq<seq<real>>)
    requires t.pc.Done? && OnTrack(jobs, t) && Answered(jobs, t.seen)
    ensures |parts| == |t.rets| == |jobs| && Joined(parts) == t.seen
    ensures forall c :: 0 <= c < |jobs| ==> Ends(jobs[c], parts[c], t.rets[c])
  {
    assert Replay(jobs, t.seen) == Over(t.rets);
    var now: seq<real>;
    parts, now := ReplayLeads(jobs, t.seen);
    PartsOfOver(jobs, t.seen, parts, now, t.rets);
  }

  lemma PartsOfOver(jobs: seq<Args>, dts: seq<real>, parts: seq<seq<real>>, now: seq<real>, rets: seq<nat>)
    requires Leads(jobs, dts, parts, now, Over(rets))
    ensures |parts| == |rets| == |jobs| && Joined(parts) == dts
    ensures forall c :: 0 <= c < |jobs| ==> Ends(jobs[c], parts[c], rets[c])
  {
  }

  /** What a finished thread has received splits into one part for each call, and each part
      ends its call: a call goes on while the elapsed time is below its limit and the maximum
      is not reached, ends with the first time that is not, and its result is given by the
      number of its times, the minimum, the increment and the maximum. */
  lemma TimesEndCalls(jobs: seq<Args>, n: nat, run: seq<State>, m: nat, k: nat) returns (parts: seq<seq<real>>)
    requires IsRun(jobs, n, run) && m < |run| && k < n && |run[m].ts| == n && run[m].ts[k].pc.Done?
    ensures |parts| == |run[m].ts[k].rets| == |jobs| && Joined(parts) == run[m].ts[k].seen
    ensures forall c :: 0 <= c < |jobs| ==> Ends(jobs[c], parts[c], run[m].ts[k].rets[c])
  {
    var r := RunInv(jobs, n, run, m);
    RunAnswered(jobs, n, run, m, k);
    parts := DoneParts(jobs, run[m].ts[k]);
  }
}
