/** Streaming statistics over reals: the running mean and sum of squared deviations of an
    accumulator equal their batch definitions. */
module Statistics {

  // ----- batch definitions -----

  function SumOf(s: seq<real>): real {
    if s == [] then 0.0 else SumOf(s[..|s| - 1]) + s[|s| - 1]
  }

  function Mean(s: seq<real>): real {
    if s == [] then 0.0 else SumOf(s) / (|s| as real)
  }

  /** The sum of squared deviations from c. */
  function DeviationsFrom(s: seq<real>, c: real): real {
    if s == [] then 0.0 else DeviationsFrom(s[..|s| - 1], c) + (s[|s| - 1] - c) * (s[|s| - 1] - c)
  }

  function Deviations(s: seq<real>): real { DeviationsFrom(s, Mean(s)) }

  /** The least of the samples and `top`. */
  function LeastOf(top: real, s: seq<real>): real {
    if s == [] then top else
      var m := LeastOf(top, s[..|s| - 1]);
      if s[|s| - 1] < m then s[|s| - 1] else m
  }

  /** The greatest of the samples and `bottom`. */
  function GreatestOf(bottom: real, s: seq<real>): real {
    if s == [] then bottom else
      var m := GreatestOf(bottom, s[..|s| - 1]);
      if m < s[|s| - 1] then s[|s| - 1] else m
  }

  function SquaresOf(s: seq<real>): real { DeviationsFrom(s, 0.0) }

  lemma {:induction false} Expand(s: seq<real>, c: real)
    ensures DeviationsFrom(s, c) == SquaresOf(s) - 2.0 * c * SumOf(s) + (|s| as real) * c * c
  {
    if s != [] {
      var n := |s| - 1;
      var x := s[n];
      Expand(s[..n], c);
      assert (x - c) * (x - c) == x * x - 2.0 * c * x + c * c;
      assert 2.0 * c * SumOf(s) == 2.0 * c * SumOf(s[..n]) + 2.0 * c * x;
      assert (|s| as real) * c * c == (n as real) * c * c + c * c;
    }
  }

  lemma MeanTimes(s: seq<real>, n: real, m: real)
    requires n == |s| as real && m == Mean(s)
    ensures n * m == SumOf(s)
  {
  }

  lemma DeviationsAre(s: seq<real>, n: real, m: real)
    requires n == |s| as real && m == Mean(s)
    ensures Deviations(s) == SquaresOf(s) - n * m * m
  {
    Expand(s, m);
    MeanTimes(s, n, m);
    assert 2.0 * m * SumOf(s) == 2.0 * n * m * m;
  }

  lemma ExpandTo(s: seq<real>, c: real, n: real, sum: real, q: real, dc: real)
    requires n == |s| as real && sum == SumOf(s) && q == SquaresOf(s) && dc == DeviationsFrom(s, c)
    ensures dc == q - 2.0 * c * sum + n * c * c
  {
    Expand(s, c);
  }

  lemma DeviationsTo(s: seq<real>, n: real, m: real, q: real, d: real)
    requires n == |s| as real && m == Mean(s) && q == SquaresOf(s) && d == Deviations(s)
    ensures d == q - n * m * m
  {
    DeviationsAre(s, n, m);
  }

  /** The moments of a batch, and what they make of the deviations, as plain numbers. */
  lemma Moments(s: seq<real>, c: real) returns (n: real, m: real, sum: real, q: real, d: real, dc: real)
    ensures n >= 0.0 && n * m == sum
    ensures d == Deviations(s) && d == q - n * m * m
    ensures dc == DeviationsFrom(s, c) && dc == q - 2.0 * c * sum + n * c * c
  {
    n, m, sum, q := |s| as real, Mean(s), SumOf(s), SquaresOf(s);
    d, dc := Deviations(s), DeviationsFrom(s, c);
    MeanTimes(s, n, m);
    DeviationsTo(s, n, m, q, d);
    ExpandTo(s, c, n, sum, q, dc);
  }

  /** No number is closer to the samples than their mean. */
  lemma MeanIsClosest(s: seq<real>, c: real)
    ensures Deviations(s) <= DeviationsFrom(s, c)
  {
    var n, m, sum, q, d, dc := Moments(s, c);
    ClosestAlgebra(n, m, c, sum, q, d, dc);
  }

  lemma ClosestAlgebra(n: real, m: real, c: real, sum: real, q: real, d: real, dc: real)
    requires n >= 0.0 && n * m == sum && d == q - n * m * m && dc == q - 2.0 * c * sum + n * c * c
    ensures d <= dc
  {
    var w := (c - m) * (c - m);
    assert w >= 0.0 && n * w >= 0.0;
    assert w == c * c - 2.0 * (c * m) + m * m;
    assert n * w == n * (c * c) - 2.0 * (n * (c * m)) + n * (m * m);
    assert c * sum == n * (c * m);
  }

  // ----- one more sample -----

  lemma AppendSums(s: seq<real>, x: real)
    ensures SumOf(s + [x]) == SumOf(s) + x && SquaresOf(s + [x]) == SquaresOf(s) + x * x
  {
    assert (s + [x])[..|s|] == s;
  }

  lemma StepAlgebra(n: real, m: real, x: real, m': real, delta: real)
    requires n * m' == (n - 1.0) * m + x && delta == x - m
    ensures x * x - n * m' * m' == delta * (x - m') - (n - 1.0) * m * m
  {
    assert n * m' * m' == ((n - 1.0) * m + x) * m' == (n - 1.0) * (m * m') + x * m';
    assert delta * (x - m') == x * x - x * m' - m * x + m * m';
    assert m * (n * m') == (n - 1.0) * (m * m) + m * x;
    assert m * (n * m') == (n - 1.0) * (m * m') + m * m';
  }

  /** The update of mean and deviations by one sample. */
  lemma AppendUpdates(s: seq<real>, x: real, n: real, m: real, delta: real, m': real)
    requires n == (|s| + 1) as real && m == Mean(s) && delta == x - m && m' == m + delta / n
    ensures Mean(s + [x]) == m'
    ensures Deviations(s + [x]) == Deviations(s) + delta * (x - m')
  {
    AppendSums(s, x);
    MeanTimes(s, n - 1.0, m);
    MeanTimes(s + [x], n, Mean(s + [x]));
    assert n * m' == (n - 1.0) * m + x by {
      assert n * (delta / n) == delta;
      assert n * m' == n * m + delta;
    }
    Cancel(n, m', Mean(s + [x]));
    DeviationsAre(s, n - 1.0, m);
    DeviationsAre(s + [x], n, m');
    StepAlgebra(n, m, x, m', delta);
  }

  lemma Cancel(n: real, a: real, b: real)
    requires n > 0.0 && n * a == n * b
    ensures a == b
  {
    assert n * (a - b) == 0.0;
  }

  // ----- two batches -----

  lemma {:induction false} ConcatSums(s: seq<real>, t: seq<real>)
    ensures SumOf(s + t) == SumOf(s) + SumOf(t) && SquaresOf(s + t) == SquaresOf(s) + SquaresOf(t)
  {
    if t == [] {
      assert s + t == s;
    } else {
      var k := |t| - 1;
      assert s + t == (s + t[..k]) + [t[k]] && t == t[..k] + [t[k]];
      ConcatSums(s, t[..k]);
      AppendSums(s + t[..k], t[k]);
      AppendSums(t[..k], t[k]);
    }
  }

  lemma MergeAlgebra(n1: real, m1: real, n2: real, m2: real, n: real, m: real, delta: real)
    requires n == n1 + n2 && n * m == n1 * m1 + n2 * m2 && delta == m2 - m1
    ensures n * (n1 * (m1 * m1) + n2 * (m2 * m2) - n * (m * m)) == delta * delta * n1 * n2
  {
    var p1, p2 := n1 * m1, n2 * m2;
    assert n * (n * (m * m)) == (n * m) * (n * m);
    assert (n * m) * (n * m) == p1 * p1 + 2.0 * p1 * p2 + p2 * p2;
    assert n * (n1 * (m1 * m1) + n2 * (m2 * m2)) == p1 * p1 + n1 * n2 * (m2 * m2) + n2 * n1 * (m1 * m1) + p2 * p2;
    assert delta * delta == m2 * m2 - 2.0 * m1 * m2 + m1 * m1;
    assert delta * delta * n1 * n2 == n1 * n2 * (m2 * m2) - 2.0 * p1 * p2 + n2 * n1 * (m1 * m1);
  }

  /** The merge of the means and deviations of two batches. */
  lemma MergeUpdates(s: seq<real>, t: seq<real>, n1: real, m1: real, d1: real, n2: real, m2: real, d2: real, n: real,
      delta: real)
    requires s != [] && t != []
    requires n1 == |s| as real && m1 == Mean(s) && d1 == Deviations(s)
    requires n2 == |t| as real && m2 == Mean(t) && d2 == Deviations(t)
    requires n == |s + t| as real && delta == m2 - m1
    ensures Mean(s + t) == m1 + delta * n2 / n
    ensures Deviations(s + t) == d1 + (d2 + delta * delta * n1 * n2 / n)
  {
    var m := Mean(s + t);
    ConcatSums(s, t);
    MeanTimes(s, n1, m1);
    MeanTimes(t, n2, m2);
    MeanTimes(s + t, n, m);
    MergeMean(n1, m1, n2, m2, n, m, delta);
    DeviationsAre(s, n1, m1);
    DeviationsAre(t, n2, m2);
    DeviationsAre(s + t, n, m);
    MergeDeviations(n1, m1, SquaresOf(s), d1, n2, m2, SquaresOf(t), d2, n, m, Deviations(s + t), delta);
  }

  lemma MergeDeviations(n1: real, m1: real, q1: real, d1: real, n2: real, m2: real, q2: real, d2: real, n: real,
      m: real, d: real, delta: real)
    requires n == n1 + n2 && n > 0.0 && n * m == n1 * m1 + n2 * m2 && delta == m2 - m1
    requires d1 == q1 - n1 * m1 * m1 && d2 == q2 - n2 * m2 * m2 && d == q1 + q2 - n * m * m
    ensures d == d1 + (d2 + delta * delta * n1 * n2 / n)
  {
    MergeAlgebra(n1, m1, n2, m2, n, m, delta);
    Quotient(n, n1 * (m1 * m1) + n2 * (m2 * m2) - n * (m * m), delta * delta * n1 * n2);
  }

  lemma MergeMean(n1: real, m1: real, n2: real, m2: real, n: real, m: real, delta: real)
    requires n == n1 + n2 && n > 0.0 && n * m == n1 * m1 + n2 * m2 && delta == m2 - m1
    ensures m == m1 + delta * n2 / n
  {
    var d := delta * n2 / n;
    assert n * d == delta * n2 == m2 * n2 - m1 * n2;
    assert n * (m1 + d) == n * m1 + delta * n2;
    assert n * m1 == n1 * m1 + n2 * m1;
    Cancel(n, m, m1 + d);
  }

  lemma Quotient(n: real, a: real, b: real)
    requires n > 0.0 && n * a == b
    ensures a == b / n
  {
  }

  lemma {:induction false} ConcatExtremes(bottom: real, top: real, s: seq<real>, t: seq<real>)
    ensures LeastOf(top, s + t) == (if LeastOf(top, t) < LeastOf(top, s) then LeastOf(top, t) else LeastOf(top, s))
    ensures GreatestOf(bottom, s + t) ==
        (if GreatestOf(bottom, s) < GreatestOf(bottom, t) then GreatestOf(bottom, t) else GreatestOf(bottom, s))
  {
    if t == [] {
      assert s + t == s;
      ExtremesBound(bottom, top, s);
    } else {
      var k := |t| - 1;
      assert (s + t)[..|s + t| - 1] == s + t[..k];
      ConcatExtremes(bottom, top, s, t[..k]);
    }
  }

  lemma AppendExtremes(bottom: real, top: real, s: seq<real>, x: real)
    ensures LeastOf(top, s + [x]) == if x < LeastOf(top, s) then x else LeastOf(top, s)
    ensures GreatestOf(bottom, s + [x]) == if GreatestOf(bottom, s) < x then x else GreatestOf(bottom, s)
  {
    assert (s + [x])[..|s|] == s;
  }

  lemma {:induction false} ExtremesBound(bottom: real, top: real, s: seq<real>)
    ensures LeastOf(top, s) <= top && bottom <= GreatestOf(bottom, s)
  {
    if s != [] {
      ExtremesBound(bottom, top, s[..|s| - 1]);
    }
  }

  /** What the minimum and maximum mean: bounds that are reached, by a sample or by the
      initial value. */
  lemma {:induction false} ExtremesMean(bottom: real, top: real, s: seq<real>)
    ensures forall i :: 0 <= i < |s| ==> LeastOf(top, s) <= s[i] <= GreatestOf(bottom, s)
    ensures LeastOf(top, s) == top || LeastOf(top, s) in s
    ensures GreatestOf(bottom, s) == bottom || GreatestOf(bottom, s) in s
  {
    if s != [] {
      var n := |s| - 1;
      ExtremesMean(bottom, top, s[..n]);
      assert forall i :: 0 <= i < n ==> s[..n][i] == s[i];
      assert s[n] in s;
    }
  }

  /** The maximum, which starts at a positive number, is right exactly when some sample is at
      least that number. */
  lemma MaximumRightIff(bottom: real, top: real, s: seq<real>)
    requires s != []
    ensures (GreatestOf(bottom, s) in s && forall x :: x in s ==> x <= GreatestOf(bottom, s))
      <==> exists x :: x in s && x >= bottom
  {
    ExtremesMean(bottom, top, s);
    ExtremesBound(bottom, top, s);
    if x :| x in s && x >= bottom {
      if GreatestOf(bottom, s) == bottom {
        assert x == bottom;
      }
    }
  }

  // ----- the accumulator -----

  /** The five values of an accumulator are those of a batch. */
  ghost predicate Summarises(bottom: real, top: real, num: nat, min: real, max: real, mean: real, variance: real,
      s: seq<real>) {
    && num == |s| && min == LeastOf(top, s) && max == GreatestOf(bottom, s)
    && mean == Mean(s) && variance == Deviations(s)
  }

  lemma AddSummarises(bottom: real, top: real, num: nat, min: real, max: real, mean: real, variance: real, s: seq<real>,
                      x: real, delta: real, n: real, mean': real, variance': real)
    requires Summarises(bottom, top, num, min, max, mean, variance, s)
    requires delta == x - mean && n == (num + 1) as real && mean' == mean + delta / n
        && variance' == variance + delta * (x - mean')
    ensures var min', max' := if x < min then x else min, if max < x then x else max;
            Summarises(bottom, top, num + 1, min', max', mean', variance', s + [x])
  {
    AppendExtremes(bottom, top, s, x);
    AppendUpdates(s, x, n, mean, delta, mean');
  }

  class Accumulator {
    const least: real     // the smallest positive number
    const largest: real   // the largest number
    var num: nat
    var min: real
    var max: real
    var mean: real
    var variance: real    // the sum of squared deviations, not divided
    ghost var samples: seq<real>

    ghost predicate Valid()
      reads this
    {
      Summarises(least, largest, num, min, max, mean, variance, samples)
    }

    constructor (least: real, largest: real)
      ensures Valid() && samples == [] && this.least == least && this.largest == largest
    {
      this.least, this.largest := least, largest;
      num, min, max, mean, variance := 0, largest, least, 0.0, 0.0;
      samples := [];
    }

    method Add(sample: real)
      requires Valid()
      modifies this
      ensures Valid() && samples == old(samples) + [sample]
    {
      ghost var oldMin, oldMax, oldMean, oldVariance := min, max, mean, variance;
      min := if sample < min then sample else min;
      max := if max < sample then sample else max;
      var delta := sample - mean;
      num := num + 1;
      var n := num as real;
      mean := mean + delta / n;
      variance := variance + delta * (sample - mean);
      AddSummarises(least, largest, num - 1, oldMin, oldMax, oldMean, oldVariance, samples, sample, delta, n, mean,
          variance);
      samples := samples + [sample];
    }

    method AddAll(batch: seq<real>)
      requires Valid()
      modifies this
      ensures Valid() && samples == old(samples) + batch
    {
      var i := 0;
      while i < |batch|
        invariant i <= |batch| && Valid() && samples == old(samples) + batch[..i]
      {
        Add(batch[i]);
        i := i + 1;
      }
    }

    /** Merging equals having seen the other's samples as well; also with itself. */
    method Merge(other: Accumulator)
      requires Valid() && other.Valid() && other.least == least && other.largest == largest
      modifies this
      ensures Valid() && samples == old(samples) + old(other.samples)
    {
      if other.num == 0 {
        assert samples + other.samples == samples;
        return;
      }
      if num == 0 {
        assert samples + other.samples == other.samples;
        num := other.num;
        min := other.min;
        max := other.max;
        mean := other.mean;
        variance := other.variance;
        samples := other.samples;
        return;
      }
      ghost var all := samples + other.samples;
      var total := num + other.num;
      var n1, n2, n := num as real, other.num as real, total as real;
      var delta := other.mean - mean;
      MergeUpdates(samples, other.samples, n1, mean, variance, n2, other.mean, other.variance, n, delta);
      ConcatExtremes(least, largest, samples, other.samples);
      min := if other.min < min then other.min else min;
      max := if max < other.max then other.max else max;
      mean := mean + delta * n2 / n;
      variance := variance + (other.variance + delta * delta * n1 * n2 / n);
      num := total;
      samples := all;
    }

    method Clear()
      modifies this
      ensures Valid() && samples == []
    {
      num, min, max, mean, variance := 0, largest, least, 0.0, 0.0;
      samples := [];
    }

    /** The sample variance. */
    function Variance(): (v: real)
      requires Valid()
      reads this
      ensures |samples| > 1 ==> v * ((|samples| - 1) as real) == Deviations(samples)
      ensures |samples| <= 1 ==> v == 0.0
    {
      if num > 1 then variance / ((num - 1) as real) else 0.0
    }

    function Sum(): (v: real)
      requires Valid()
      reads this
      ensures v == SumOf(samples)
    {
      MeanTimes(samples, num as real, mean);
      (num as real) * mean
    }
  }
}
