/** The check of a run detects halos that are wider than the exchange allows for. */
module CheckDetects {
  import opened Grid
  import opened Layouts
  import opened Regions
  import opened StagedExchange
  import opened RepeatedExchange
  import opened SelfCheck

  /** The number of a cell names the cell and the field. */
  lemma NumberNames(q: V3, q': V3, cells: V3, n: nat, i: nat, i': nat)
    requires Inside(q, cells) && Inside(q', cells) && i < n && i' < n
    requires Number(q, cells, n, i) == Number(q', cells, n, i')
    ensures q == q' && i == i'
  {
    DivModOf(i, n, Flat(q, cells));
    DivModOf(i', n, Flat(q', cells));
    assert Number(q, cells, n, i) == i + n * Flat(q, cells) && Number(q', cells, n, i') == i' + n * Flat(q', cells);
    FlatInjective(q, q', cells);
  }

  /** A field that passes holds, in every cell, the number of the very cell and field it should
      come from, and of no other: where halos fit, the wrapped global cell. */
  lemma PassingNames(l: Layout, h: Halos, c: V3, buf: seq<int>, n: nat, i: nat, p: V3, q: V3, f: nat)
    requires WellFormed(l) && Fits(l, h) && Inside(c, Domains(l)) && |buf| == Volume(Size(l, h, c)) && i < n
    requires FieldOk(l, h, c, buf, n, i) && Inside(p, Size(l, h, c)) && Inside(q, l.cells) && f < n
    ensures At(buf, Size(l, h, c), p) == Number(q, l.cells, n, f) <==>
            q == WrapPosition(l, Position(l, h, Spot(c, p))) && f == i
  {
    CheckIsExact(l, h, c, buf, n, i);
    ExpectedIsWrapped(l, h, c, p, n, i);
    var w := WrapPosition(l, Position(l, h, Spot(c, p)));
    if At(buf, Size(l, h, c), p) == Number(q, l.cells, n, f) {
      NumberNames(q, w, l.cells, n, f, i);
    }
  }

  lemma NotZero(q: V3, cells: V3, n: nat, i: nat)
    requires 0 < i < n
    ensures Number(q, cells, n, i) != 0
  {
    DivModOf(i, n, Flat(q, cells));
    DivModOf(0, n, 0);
    assert Number(q, cells, n, i) == i + n * Flat(q, cells);
  }

  /** What has been traced back to a halo is still 0. */
  lemma HaloIsZero(l: Layout, h: Halos, n: nat, i: nat, fam: Family<int>, s: Spot)
    requires WellFormed(l) && WellSized(l, h, fam) && IsSpot(l, h, s) && !IsInterior(l, h, s)
    requires fam(s.dom) == Made(l, h, n, i, s.dom)
    ensures Initial(l, h, fam, s) == 0
  {
    MadeAt(l, h, n, i, s.dom, s.cell);
  }

  lemma StuckSpot(l: Layout, h: Halos, n: nat, i: nat, fam: Family<int>, k: nat) returns (s: Spot)
    requires WellFormed(l) && WellSized(l, h, fam) && 1 <= k && !Suffice(l, h, k)
    requires forall b :: Inside(b, Domains(l)) ==> fam(b) == Made(l, h, n, i, b)
    ensures IsSpot(l, h, s) && Value(l, h, fam, 3 * k, s) == 0
  {
    var hop := SomeHop(l, h);
    s := WorstSpot(l, h, k);
    TraceIsRounds(l, h, hop, k, s);
    ValueIsTraced(l, h, hop, fam, 3 * k, s);
    HaloIsZero(l, h, n, i, fam, Rounds(l, h, k, s));
  }

  lemma ZeroFails(l: Layout, h: Halos, n: nat, i: nat, c: V3, buf: seq<int>, p: V3)
    requires WellFormed(l) && Inside(c, Domains(l)) && |buf| == Volume(Size(l, h, c)) && 0 < i < n
    requires Inside(p, Size(l, h, c)) && At(buf, Size(l, h, c), p) == 0
    ensures !FieldOk(l, h, c, buf, n, i)
  {
    NotZero(Position(l, h, Source(l, h, Spot(c, p))), l.cells, n, i);
    CheckIsExact(l, h, c, buf, n, i);
  }

  /** The check detects too few rounds: in any field but the first some domain does not pass. */
  lemma TooFewRoundsFail(l: Layout, h: Halos, n: nat, i: nat, fam: Family<int>, k: nat) returns (c: V3)
    requires WellFormed(l) && WellSized(l, h, fam) && 1 <= k && !Suffice(l, h, k) && 0 < i < n
    requires forall b :: Inside(b, Domains(l)) ==> fam(b) == Made(l, h, n, i, b)
    ensures Inside(c, Domains(l)) && !FieldOk(l, h, c, After(l, h, fam, 3 * k, c), n, i)
  {
    var s := StuckSpot(l, h, n, i, fam, k);
    c := s.dom;
    ZeroFails(l, h, n, i, c, After(l, h, fam, 3 * k, c), s.cell);
  }

  lemma WideHalosFail(l: Layout, h: Halos, n: nat, i: nat, fam: Family<int>) returns (c: V3)
    requires WellFormed(l) && WellSized(l, h, fam) && !Fits(l, h) && 0 < i < n
    requires forall b :: Inside(b, Domains(l)) ==> fam(b) == Made(l, h, n, i, b)
    ensures Inside(c, Domains(l)) && !FieldOk(l, h, c, After(l, h, fam, 3, c), n, i)
  {
    OneRound(l, h);
    c := TooFewRoundsFail(l, h, n, i, fam, 1);
  }

  /** After one step a made field other than the first passes on all domains if and only if the
      halos fit. */
  lemma PassesIff(l: Layout, h: Halos, n: nat, i: nat, fam: Family<int>)
    requires WellFormed(l) && WellSized(l, h, fam) && 0 < i < n
    requires forall b :: Inside(b, Domains(l)) ==> fam(b) == Made(l, h, n, i, b)
    ensures Fits(l, h) <==> forall c :: Inside(c, Domains(l)) ==> FieldOk(l, h, c, After(l, h, fam, 3, c), n, i)
  {
    if Fits(l, h) {
      forall c | Inside(c, Domains(l)) ensures FieldOk(l, h, c, After(l, h, fam, 3, c), n, i) {
        ExchangedFieldPasses(l, h, n, i, fam, 1, c);
      }
    } else {
      var c := WideHalosFail(l, h, n, i, fam);
    }
  }
}
