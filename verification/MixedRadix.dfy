/** Numbers written with a different radix at every place, lowest place first. */
module MixedRadix {
  import opened Grid

  /** What place k counts: the product of the radices below it. */
  function Weight(r: seq<int>, k: nat): int
    requires k <= |r|
  {
    if k == 0 then 1 else Weight(r, k - 1) * r[k - 1]
  }

  /** The value of the lowest k digits. */
  function Number(r: seq<int>, c: seq<int>, k: nat): int
    requires k <= |r| && k <= |c|
  {
    if k == 0 then 0 else Number(r, c, k - 1) + Weight(r, k - 1) * c[k - 1]
  }

  ghost predicate Radices(r: seq<int>) { forall k :: 0 <= k < |r| ==> 0 < r[k] }

  ghost predicate Digits(r: seq<int>, c: seq<int>) {
    |c| == |r| && forall k :: 0 <= k < |r| ==> 0 <= c[k] < r[k]
  }

  /** Extents of which some may be 0: then there are no numbers at all. */
  ghost predicate Extents(r: seq<int>) { forall k :: 0 <= k < |r| ==> 0 <= r[k] }

  lemma {:induction false} WeightIsZero(r: seq<int>, k: nat)
    requires Extents(r) && k <= |r|
    ensures 0 <= Weight(r, k)
    ensures Weight(r, k) == 0 <==> exists j :: 0 <= j < k && r[j] == 0
  {
    if k > 0 {
      WeightIsZero(r, k - 1);
      ProductNonNegative(Weight(r, k - 1), r[k - 1]);
      if 0 < Weight(r, k - 1) && 0 < r[k - 1] {
        ProductMonotone(Weight(r, k - 1), 1, r[k - 1]);
      }
    }
  }

  lemma {:induction false} WeightPositive(r: seq<int>, k: nat)
    requires Radices(r) && k <= |r|
    ensures 0 < Weight(r, k)
  {
    if k > 0 {
      WeightPositive(r, k - 1);
      ProductMonotone(Weight(r, k - 1), 1, r[k - 1]);
    }
  }

  /** The lowest k digits are below the weight of the next place. */
  lemma {:induction false} NumberBound(r: seq<int>, c: seq<int>, k: nat)
    requires Digits(r, c) && k <= |r|
    ensures 0 <= Number(r, c, k) < Weight(r, k)
  {
    if k > 0 {
      NumberBound(r, c, k - 1);
      DigitsBound(Number(r, c, k - 1), Weight(r, k - 1), c[k - 1], r[k - 1]);
    }
  }

  /** Different digits, different numbers. */
  lemma {:induction false} NumberInjective(r: seq<int>, c: seq<int>, c': seq<int>, k: nat)
    requires Digits(r, c) && Digits(r, c') && k <= |r| && Number(r, c, k) == Number(r, c', k)
    ensures c[..k] == c'[..k]
  {
    if k > 0 {
      NumberBound(r, c, k - 1);
      NumberBound(r, c', k - 1);
      DivModOf(Number(r, c, k - 1), Weight(r, k - 1), c[k - 1]);
      DivModOf(Number(r, c', k - 1), Weight(r, k - 1), c'[k - 1]);
      NumberInjective(r, c, c', k - 1);
      assert c[..k] == c[..k - 1] + [c[k - 1]] && c'[..k] == c'[..k - 1] + [c'[k - 1]];
    }
  }

  /** Every number below the weight has digits. */
  lemma {:induction false} NumberOnto(r: seq<int>, i: int) returns (c: seq<int>)
    requires Radices(r) && 0 <= i < Weight(r, |r|)
    ensures Digits(r, c) && Number(r, c, |r|) == i
  {
    if r == [] {
      c := [];
    } else {
      var n := |r| - 1;
      var w := Weight(r, n);
      WeightPositive(r, n);
      WeightPrefix(r, n, n);
      QuotientBound(i, w, r[n]);
      c := NumberOnto(r[..n], i % w);
      NumberPrefix(r, c, n, i / w);
      c := c + [i / w];
      assert i == w * (i / w) + i % w;
    }
  }

  lemma {:induction false} WeightPrefix(r: seq<int>, n: nat, k: nat)
    requires k <= n <= |r|
    ensures Weight(r[..n], k) == Weight(r, k)
  {
    if k > 0 {
      WeightPrefix(r, n, k - 1);
    }
  }

  lemma {:induction false} NumberAgrees(r: seq<int>, r': seq<int>, c: seq<int>, c': seq<int>, k: nat)
    requires k <= |c| && k <= |c'| && k <= |r| && k <= |r'|
    requires forall j :: 0 <= j < k ==> c[j] == c'[j]
    requires forall j :: 0 <= j < k ==> Weight(r, j) == Weight(r', j)
    ensures Number(r, c, k) == Number(r', c', k)
  {
    if k > 0 {
      NumberAgrees(r, r', c, c', k - 1);
    }
  }

  lemma NumberPrefix(r: seq<int>, c: seq<int>, n: nat, d: int)
    requires |r| == n + 1 && |c| == n
    ensures Number(r, c + [d], n + 1) == Number(r[..n], c, n) + Weight(r, n) * d
  {
    forall j | 0 <= j < n ensures Weight(r[..n], j) == Weight(r, j) {
      WeightPrefix(r, n, j);
    }
    NumberAgrees(r[..n], r, c, c + [d], n);
  }

  /** Changing one digit. */
  lemma {:induction false} NumberUpdate(r: seq<int>, c: seq<int>, k: nat, j: nat, d: int)
    requires j < k <= |r| && k <= |c|
    ensures Number(r, c[j := d], k) == Number(r, c, k) + Weight(r, j) * (d - c[j])
  {
    if j == k - 1 {
      NumberAgrees(r, r, c, c[j := d], j);
    } else {
      NumberUpdate(r, c, k - 1, j, d);
    }
  }

  // ----- products of a range of places -----

  function Product(r: seq<int>, lo: nat, hi: nat): int
    requires lo <= hi <= |r|
  {
    if lo == hi then 1 else Product(r, lo, hi - 1) * r[hi - 1]
  }

  lemma {:induction false} ProductIsWeight(r: seq<int>, k: nat)
    requires k <= |r|
    ensures Product(r, 0, k) == Weight(r, k)
  {
    if k > 0 {
      ProductIsWeight(r, k - 1);
    }
  }

  /** Places below and above any place make up all of them. */
  lemma {:induction false} ProductSplit(r: seq<int>, k: nat, hi: nat)
    requires k <= hi <= |r|
    ensures Product(r, 0, k) * Product(r, k, hi) == Product(r, 0, hi)
  {
    if k < hi {
      ProductSplit(r, k, hi - 1);
      assert Product(r, 0, k) * (Product(r, k, hi - 1) * r[hi - 1]) ==
          Product(r, 0, k) * Product(r, k, hi - 1) * r[hi - 1];
    }
  }

  lemma QuotientGrows(n: int, w: int, p: int, d: int)
    requires 0 <= n < w * p && 0 < w
    ensures 0 <= n / w < p && (n + w * p * d) / w == n / w + p * d
  {
    QuotientBound(n, w, p);
    assert n == w * (n / w) + n % w;
    assert w * p * d == w * (p * d);
    assert w * (n / w + p * d) == w * (n / w) + w * (p * d);
    DivModOf(n % w, w, n / w + p * d);
  }

  lemma SamePair(a: int, a': int, p: int, d: int, d': int)
    requires 0 <= a < p && 0 <= a' < p
    ensures a + p * d == a' + p * d' <==> a == a' && d == d'
  {
    DivModOf(a, p, d);
    DivModOf(a', p, d');
  }

  /** Dividing by the weight of place l leaves the digits from there up. */
  lemma {:induction false} SameHighDigits(r: seq<int>, c: seq<int>, c': seq<int>, l: nat, k: nat)
    requires Radices(r) && Digits(r, c) && Digits(r, c') && l <= k <= |r| && 0 < Product(r, 0, l)
    ensures Number(r, c, k) / Product(r, 0, l) == Number(r, c', k) / Product(r, 0, l) <==>
            forall j :: l <= j < k ==> c[j] == c'[j]
  {
    var w := Product(r, 0, l);
    ProductIsWeight(r, l);
    if k == l {
      NumberBound(r, c, l);
      NumberBound(r, c', l);
      DivModOf(Number(r, c, l), w, 0);
      DivModOf(Number(r, c', l), w, 0);
    } else {
      var h := k - 1;
      var p := Product(r, l, h);
      SameHighDigits(r, c, c', l, h);
      ProductSplit(r, l, h);
      ProductIsWeight(r, h);
      NumberBound(r, c, h);
      NumberBound(r, c', h);
      QuotientGrows(Number(r, c, h), w, p, c[h]);
      QuotientGrows(Number(r, c', h), w, p, c'[h]);
      SamePair(Number(r, c, h) / w, Number(r, c', h) / w, p, c[h], c'[h]);
    }
  }

  // ----- taking a number apart from the highest place -----

  /** The places from l up have been taken off `total` into g; `rest` is left. */
  ghost predicate Peeled(r: seq<int>, g: seq<int>, l: nat, rest: int, total: int) {
    && |g| == |r| && l <= |r| && 0 <= rest < Weight(r, l)
    && (forall k :: 0 <= k < l ==> g[k] == 0)
    && (forall k :: l <= k < |r| ==> 0 <= g[k] < r[k])
    && Number(r, g, |r|) + rest == total
  }

  lemma {:induction false} ZeroNumber(r: seq<int>, g: seq<int>, k: nat)
    requires k <= |r| && k <= |g| && forall j :: 0 <= j < k ==> g[j] == 0
    ensures Number(r, g, k) == 0
  {
    if k > 0 {
      ZeroNumber(r, g, k - 1);
    }
  }

  lemma PeelStart(r: seq<int>, g: seq<int>, total: int)
    requires |g| == |r| && 0 <= total < Weight(r, |r|) && forall j :: 0 <= j < |r| ==> g[j] == 0
    ensures Peeled(r, g, |r|, total, total)
  {
    ZeroNumber(r, g, |r|);
  }

  lemma PeelStep(r: seq<int>, g: seq<int>, l: nat, rest: int, total: int, w: int)
    requires Radices(r) && l < |r| && Peeled(r, g, l + 1, rest, total) && w == Weight(r, l)
    ensures 0 < w && Peeled(r, g[l := rest / w], l, rest - rest / w * w, total)
  {
    WeightPositive(r, l);
    assert Weight(r, l + 1) == w * r[l];
    QuotientBound(rest, w, r[l]);
    NumberUpdate(r, g, |r|, l, rest / w);
    Remainder(rest, w);
  }

  lemma Remainder(rest: int, w: int)
    requires 0 < w
    ensures 0 <= rest - rest / w * w < w && w * (rest / w - 0) == rest / w * w
  {
    assert rest == w * (rest / w) + rest % w;
  }

  lemma PeelDone(r: seq<int>, g: seq<int>, rest: int, total: int)
    requires Peeled(r, g, 0, rest, total)
    ensures Digits(r, g) && Number(r, g, |r|) == total
  {
  }
}
