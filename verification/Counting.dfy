/** Counting the elements of a sequence that satisfy a predicate. */
module Counting {

  function Count<T>(s: seq<T>, p: T -> bool): (n: nat)
    ensures n <= |s|
  {
    if s == [] then 0 else Count(s[..|s| - 1], p) + (if p(s[|s| - 1]) then 1 else 0)
  }

  function One(b: bool): nat { if b then 1 else 0 }

  /** Replacing one element. */
  lemma {:induction false} CountUpdate<T>(s: seq<T>, i: nat, x: T, p: T -> bool)
    requires i < |s|
    ensures Count(s[i := x], p) + One(p(s[i])) == Count(s, p) + One(p(x))
  {
    var n := |s| - 1;
    if i == n {
      assert s[i := x][..n] == s[..n];
    } else {
      assert s[i := x][..n] == s[..n][i := x];
      CountUpdate(s[..n], i, x, p);
    }
  }

  lemma {:induction false} CountAll<T>(s: seq<T>, p: T -> bool)
    ensures Count(s, p) == |s| <==> forall i :: 0 <= i < |s| ==> p(s[i])
    ensures Count(s, p) == 0 <==> forall i :: 0 <= i < |s| ==> !p(s[i])
  {
    if s != [] {
      var n := |s| - 1;
      CountAll(s[..n], p);
      assert forall i :: 0 <= i < n ==> s[..n][i] == s[i];
    }
  }

  /** If all but one are counted and i is not, all others are. */
  lemma AllOthers<T>(s: seq<T>, i: nat, x: T, p: T -> bool)
    requires i < |s| && Count(s, p) == |s| - 1 && !p(s[i]) && p(x)
    ensures forall j :: 0 <= j < |s| && j != i ==> p(s[j])
  {
    CountUpdate(s, i, x, p);
    CountAll(s[i := x], p);
    forall j | 0 <= j < |s| && j != i ensures p(s[j]) {
      assert s[i := x][j] == s[j];
    }
  }

  // ----- sums -----

  function Sum<T>(s: seq<T>, f: T -> nat): nat {
    if s == [] then 0 else Sum(s[..|s| - 1], f) + f(s[|s| - 1])
  }

  lemma {:induction false} SumUpdate<T>(s: seq<T>, i: nat, x: T, f: T -> nat)
    requires i < |s|
    ensures Sum(s[i := x], f) + f(s[i]) == Sum(s, f) + f(x)
  {
    var n := |s| - 1;
    if i == n {
      assert s[i := x][..n] == s[..n];
    } else {
      assert s[i := x][..n] == s[..n][i := x];
      SumUpdate(s[..n], i, x, f);
    }
  }

  // ----- measures -----

  lemma Times(m: nat, a: nat, b: nat)
    requires a <= b
    ensures m * a <= m * b
  {
  }

  /** A sum that decreases outweighs a count of at most n. */
  lemma MeasureArithmetic(n: nat, a: nat, b: nat, x: nat, y: nat)
    requires a < b && x <= n
    ensures (n + 1) * a + x < (n + 1) * b + y
  {
    Times(n + 1, a + 1, b);
    assert (n + 1) * (a + 1) == (n + 1) * a + n + 1;
  }

  // ----- totals over a set -----

  ghost function Total<D(!new)>(ds: set<D>, f: D -> nat): nat {
    if ds == {} then 0 else var c :| c in ds; f(c) + Total(ds - {c}, f)
  }

  /** One element counts one more. */
  lemma {:induction false} TotalStep<D(!new)>(ds: set<D>, f: D -> nat, f': D -> nat, c: D)
    requires forall b :: b in ds && b != c ==> f'(b) == f(b)
    requires c in ds ==> f'(c) == f(c) + 1
    ensures Total(ds, f') == Total(ds, f) + (if c in ds then 1 else 0)
    decreases |ds|
  {
    if ds != {} {
      var b :| b in ds && Total(ds, f) == f(b) + Total(ds - {b}, f) && Total(ds, f') == f'(b) + Total(ds - {b}, f');
      TotalStep(ds - {b}, f, f', c);
    }
  }

  lemma {:induction false} TotalAgree<D(!new)>(ds: set<D>, f: D -> nat, f': D -> nat)
    requires forall c :: c in ds ==> f'(c) == f(c)
    ensures Total(ds, f') == Total(ds, f)
    decreases |ds|
  {
    if ds != {} {
      var b :| b in ds && Total(ds, f) == f(b) + Total(ds - {b}, f) && Total(ds, f') == f'(b) + Total(ds - {b}, f');
      TotalAgree(ds - {b}, f, f');
    }
  }

  lemma OneMoreTimes(m: nat, n: nat, k: nat)
    requires n == m + 1
    ensures n * k == m * k + k
  {
  }

  /** A total of numbers that are at most `most` is so many times `most` exactly when all are. */
  lemma {:induction false} TotalBounds<D(!new)>(ds: set<D>, f: D -> nat, most: nat)
    requires forall c :: c in ds ==> f(c) <= most
    ensures Total(ds, f) <= |ds| * most
    ensures Total(ds, f) == |ds| * most <==> forall c :: c in ds ==> f(c) == most
    decreases |ds|
  {
    if ds != {} {
      var c :| c in ds && Total(ds, f) == f(c) + Total(ds - {c}, f);
      TotalBounds(ds - {c}, f, most);
      OneMoreTimes(|ds - {c}|, |ds|, most);
    }
  }

  /** An element that counts least. */
  lemma {:induction false} Least<D(!new)>(ds: set<D>, f: D -> nat) returns (c: D)
    requires ds != {}
    ensures c in ds && forall b :: b in ds ==> f(c) <= f(b)
    decreases |ds|
  {
    c :| c in ds;
    if ds != {c} {
      var c' := Least(ds - {c}, f);
      if f(c') < f(c) {
        c := c';
      }
    }
  }
}
