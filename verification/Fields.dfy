/** Several fields exchanged one after the other, stage by stage, on a fixed layout. */
module Fields {
  import opened Grid
  import opened Layouts
  import opened Regions
  import opened StagedExchange

  /** Stage s works on dimension s % 3 of field s / 3 % n. */
  function Dim(s: nat): nat { s % 3 }

  function Field(n: nat, s: nat): (f: nat)
    requires 0 < n
    ensures f < n
  {
    s / 3 % n
  }

  // ----- counting the stages of a field -----

  function DoneAt(step: nat, field: nat, dim: nat, f: nat): nat {
    3 * step + (if f < field then 3 else if f == field then dim else 0)
  }

  /** How many of the first s stages belong to field f, in closed form. */
  function Done(n: nat, s: nat, f: nat): nat
    requires 0 < n
  {
    DoneAt(s / 3 / n, s / 3 % n, s % 3, f)
  }

  lemma DivSucc(q: nat, n: nat)
    requires 0 < n
    ensures if q % n + 1 < n then (q + 1) / n == q / n && (q + 1) % n == q % n + 1
            else (q + 1) / n == q / n + 1 && (q + 1) % n == 0
  {
    assert q == n * (q / n) + q % n;
    if q % n + 1 < n {
      DivModOf(q % n + 1, n, q / n);
    } else {
      assert n * (q / n + 1) == n * (q / n) + n;
      DivModOf(0, n, q / n + 1);
    }
  }

  lemma NextField(a: nat, b: nat, a': nat, b': nat, n: nat, f: nat)
    requires b < n && f < n
    requires if b + 1 < n then a' == a && b' == b + 1 else a' == a + 1 && b' == 0
    ensures DoneAt(a', b', 0, f) == DoneAt(a, b, 2, f) + (if b == f then 1 else 0)
  {
  }

  lemma SuccThird(s: nat)
    ensures if s % 3 == 2 then (s + 1) / 3 == s / 3 + 1 && (s + 1) % 3 == 0
            else (s + 1) / 3 == s / 3 && (s + 1) % 3 == s % 3 + 1
  {
  }

  lemma DoneNext(n: nat, s: nat, f: nat)
    requires 0 < n && f < n
    ensures Done(n, s + 1, f) == Done(n, s, f) + (if Field(n, s) == f then 1 else 0)
  {
    SuccThird(s);
    var q := s / 3;
    if s % 3 == 2 {
      DivSucc(q, n);
      NextField(q / n, q % n, (q + 1) / n, (q + 1) % n, n, f);
    }
  }

  /** The number of stages of every field among the first s. */
  ghost function Counts(n: nat, s: nat): (cnt: seq<nat>)
    requires 0 < n
    ensures |cnt| == n
  {
    if s == 0 then seq(n, _ => 0) else
      var f := Field(n, s - 1);
      Counts(n, s - 1)[f := Counts(n, s - 1)[f] + 1]
  }

  lemma {:induction false} CountsAreDone(n: nat, s: nat, f: nat)
    requires 0 < n && f < n
    ensures Counts(n, s)[f] == Done(n, s, f)
  {
    if s == 0 {
      DivModOf(0, n, 0);
    } else {
      CountsAreDone(n, s - 1, f);
      DoneNext(n, s - 1, f);
    }
  }

  lemma Mod3(x: nat, d: nat)
    requires d < 3
    ensures (3 * x + d) % 3 == d
  {
  }

  lemma DoneOwn(n: nat, s: nat)
    requires 0 < n
    ensures Done(n, s, Field(n, s)) % 3 == Dim(s)
  {
    Mod3(s / 3 / n, s % 3);
  }

  /** Stage s is the next stage of its field, in the dimension whose turn it is. */
  lemma TurnOfDimension(n: nat, s: nat, f: nat)
    requires 0 < n && f == Field(n, s)
    ensures Counts(n, s)[f] % 3 == Dim(s)
  {
    CountsAreDone(n, s, f);
    DoneOwn(n, s);
  }

  lemma DoneOfSteps(n: nat, k: nat, s: nat, f: nat)
    requires 0 < n && f < n && s == 3 * n * k
    ensures Done(n, s, f) == 3 * k
  {
    assert s == 3 * (n * k);
    DivModOf(0, n, k);
  }

  /** After k full steps every field has had 3 * k stages. */
  lemma CountsOfSteps(n: nat, k: nat, s: nat, f: nat)
    requires 0 < n && f < n && s == 3 * n * k
    ensures Counts(n, s)[f] == 3 * k
  {
    CountsAreDone(n, s, f);
    DoneOfSteps(n, k, s, f);
  }

  /** In step k the fields come one after the other, each with its dimensions x, y and z. */
  lemma FieldsInOrder(n: nat, k: nat, f: nat, dim: nat, s: nat)
    requires f < n && dim < 3 && s == 3 * (n * k + f) + dim
    ensures Field(n, s) == f && Dim(s) == dim
  {
    DivModOf(f, n, k);
    assert s / 3 == n * k + f && s % 3 == dim;
  }

  // ----- stores -----

  /** The buffers of one domain, by field. */
  type Store<T> = seq<seq<T>>

  predicate StoreOk<T>(l: Layout, h: Halos, n: nat, c: V3, loc: Store<T>)
    requires Inside(c, Domains(l))
  {
    |loc| == n && forall f :: 0 <= f < n ==> |loc[f]| == Volume(Size(l, h, c))
  }

  function PackStage<T>(l: Layout, h: Halos, n: nat, c: V3, s: nat, left: bool, loc: Store<T>): seq<T>
    requires 0 < n
  {
    if Inside(c, Domains(l)) && StoreOk(l, h, n, c, loc) then
      Pack(loc[Field(n, s)], Size(l, h, c), SendBox(Extent(l, c), h, Dim(s), left))
    else []
  }

  /** The message sent to the left comes from the right neighbour and fills the right halo. */
  function UpdateStage<T>(l: Layout, h: Halos, n: nat, c: V3, s: nat, loc: Store<T>, left: seq<T>,
      right: seq<T>): Store<T>
    requires 0 < n
  {
    if Inside(c, Domains(l)) && StoreOk(l, h, n, c, loc)
       && |right| == Volume(RecvBox(Extent(l, c), h, Dim(s), false).size)
       && |left| == Volume(RecvBox(Extent(l, c), h, Dim(s), true).size)
    then loc[Field(n, s) := Deliver(l, h, c, Dim(s), loc[Field(n, s)], right, left)]
    else loc
  }

  ghost predicate StoresOk<T>(l: Layout, h: Halos, n: nat, init: V3 -> Store<T>) {
    forall c :: Inside(c, Domains(l)) ==> StoreOk(l, h, n, c, init(c))
  }

  /** Field f of the initial stores, on the whole grid. */
  ghost function FamilyOf<T>(init: V3 -> Store<T>, f: nat): Family<T> {
    (c: V3) => if f < |init(c)| then init(c)[f] else []
  }

  lemma FamilySized<T>(l: Layout, h: Halos, n: nat, init: V3 -> Store<T>, f: nat)
    requires StoresOk(l, h, n, init) && f < n
    ensures WellSized(l, h, FamilyOf(init, f))
  {
  }

  /** `aft(f, m, c)` is field f of domain c after m staged exchanges of that field. */
  type Afters<T> = (nat, nat, V3) -> seq<T>

  ghost predicate AfterAt<T>(l: Layout, h: Halos, n: nat, init: V3 -> Store<T>, aft: Afters<T>, f: nat, m: nat, c: V3)
    requires StoresOk(l, h, n, init)
  {
    f < n && Inside(c, Domains(l)) ==>
      (FamilySized(l, h, n, init, f); aft(f, m, c) == After(l, h, FamilyOf(init, f), m, c))
  }

  ghost predicate IsAfter<T>(l: Layout, h: Halos, n: nat, init: V3 -> Store<T>, aft: Afters<T>)
    requires StoresOk(l, h, n, init)
  {
    forall f: nat, m: nat, c: V3 {:trigger AfterAt(l, h, n, init, aft, f, m, c)} :: AfterAt(l, h, n, init, aft, f, m, c)
  }

  lemma SomeAfters<T>(l: Layout, h: Halos, n: nat, init: V3 -> Store<T>) returns (aft: Afters<T>)
    requires StoresOk(l, h, n, init)
    ensures IsAfter(l, h, n, init, aft)
  {
    aft := (f: nat, m: nat, c: V3) =>
      if f < n && Inside(c, Domains(l)) then
        (FamilySized(l, h, n, init, f); After(l, h, FamilyOf(init, f), m, c))
      else [];
  }

  /** The store of c when every field has gone through the given number of exchanges. */
  ghost predicate Holds<T>(n: nat, aft: Afters<T>, cnt: seq<nat>, c: V3, loc: Store<T>) {
    |cnt| == n && |loc| == n && forall f: nat :: f < n ==> loc[f] == aft(f, cnt[f], c)
  }

  lemma HoldsIsSized<T>(l: Layout, h: Halos, n: nat, init: V3 -> Store<T>, aft: Afters<T>, cnt: seq<nat>, c: V3,
      loc: Store<T>)
    requires StoresOk(l, h, n, init) && IsAfter(l, h, n, init, aft) && Inside(c, Domains(l))
        && Holds(n, aft, cnt, c, loc)
    ensures StoreOk(l, h, n, c, loc)
  {
    forall f: nat | f < n ensures |loc[f]| == Volume(Size(l, h, c)) {
      assert AfterAt(l, h, n, init, aft, f, cnt[f], c);
    }
  }

  lemma InitialHolds<T>(l: Layout, h: Halos, n: nat, init: V3 -> Store<T>, aft: Afters<T>, c: V3)
    requires 0 < n && StoresOk(l, h, n, init) && IsAfter(l, h, n, init, aft) && Inside(c, Domains(l))
    ensures Holds(n, aft, Counts(n, 0), c, init(c))
  {
    forall f: nat | f < n ensures init(c)[f] == aft(f, 0, c) {
      assert AfterAt(l, h, n, init, aft, f, 0, c);
    }
  }

  /** One stage of the field whose turn it is, given what the two neighbours hold. */
  lemma StageOfField<T>(l: Layout, h: Halos, n: nat, init: V3 -> Store<T>, aft: Afters<T>, f: nat, m: nat, dim: nat,
      c: V3)
    requires StoresOk(l, h, n, init) && IsAfter(l, h, n, init, aft) && Inside(c, Domains(l)) && f < n && m % 3 == dim
    ensures var f0, fl, fr := aft(f, m, c), aft(f, m, Nbr(l, c, dim, true)), aft(f, m, Nbr(l, c, dim, false));
            && |f0| == Volume(Size(l, h, c))
            && |fl| == Volume(Size(l, h, Nbr(l, c, dim, true))) && |fr| == Volume(Size(l, h, Nbr(l, c, dim, false)))
            && aft(f, m + 1, c) == Deliver(l, h, c, dim, f0, Message(l, h, c, dim, false, fl),
                Message(l, h, c, dim, true, fr))
  {
    assert AfterAt(l, h, n, init, aft, f, m, c);
    assert AfterAt(l, h, n, init, aft, f, m + 1, c);
    assert AfterAt(l, h, n, init, aft, f, m, Nbr(l, c, dim, true));
    assert AfterAt(l, h, n, init, aft, f, m, Nbr(l, c, dim, false));
  }

  lemma PackIsMessage<T>(l: Layout, h: Halos, n: nat, c: V3, s: nat, left: bool, loc: Store<T>)
    requires 0 < n && Inside(c, Domains(l)) && StoreOk(l, h, n, Nbr(l, c, Dim(s), !left), loc)
    ensures PackStage(l, h, n, Nbr(l, c, Dim(s), !left), s, left, loc) ==
        Message(l, h, c, Dim(s), left, loc[Field(n, s)])
  {
  }

  lemma UpdateDelivers<T>(l: Layout, h: Halos, n: nat, c: V3, s: nat, loc: Store<T>, locL: Store<T>, locR: Store<T>)
    requires 0 < n && Inside(c, Domains(l)) && StoreOk(l, h, n, c, loc)
    requires StoreOk(l, h, n, Nbr(l, c, Dim(s), true), locL) && StoreOk(l, h, n, Nbr(l, c, Dim(s), false), locR)
    ensures var f := Field(n, s);
            UpdateStage(l, h, n, c, s, loc, PackStage(l, h, n, Nbr(l, c, Dim(s), false), s, true, locR),
                                            PackStage(l, h, n, Nbr(l, c, Dim(s), true), s, false, locL))
            == loc[f := Deliver(l, h, c, Dim(s), loc[f], Message(l, h, c, Dim(s), false, locL[f]),
                Message(l, h, c, Dim(s), true, locR[f]))]
  {
    PackIsMessage(l, h, n, c, s, true, locR);
    PackIsMessage(l, h, n, c, s, false, locL);
  }

  lemma ReplaceField<T>(n: nat, aft: Afters<T>, cnt: seq<nat>, f0: nat, c: V3, loc: Store<T>)
    requires f0 < n && Holds(n, aft, cnt, c, loc)
    ensures Holds(n, aft, cnt[f0 := cnt[f0] + 1], c, loc[f0 := aft(f0, cnt[f0] + 1, c)])
  {
  }

  /** A stage of the program advances the staged exchange of one field and no other. */
  lemma StageAdvances<T>(l: Layout, h: Halos, n: nat, init: V3 -> Store<T>, aft: Afters<T>, s: nat, c: V3,
      loc: Store<T>, locL: Store<T>, locR: Store<T>)
    requires 0 < n && StoresOk(l, h, n, init) && IsAfter(l, h, n, init, aft) && Inside(c, Domains(l))
    requires Holds(n, aft, Counts(n, s), c, loc)
    requires Holds(n, aft, Counts(n, s), Nbr(l, c, Dim(s), true), locL)
    requires Holds(n, aft, Counts(n, s), Nbr(l, c, Dim(s), false), locR)
    ensures Holds(n, aft, Counts(n, s + 1), c,
              UpdateStage(l, h, n, c, s, loc, PackStage(l, h, n, Nbr(l, c, Dim(s), false), s, true, locR),
                                              PackStage(l, h, n, Nbr(l, c, Dim(s), true), s, false, locL)))
  {
    var f := Field(n, s);
    var cnt := Counts(n, s);
    TurnOfDimension(n, s, f);
    HoldsIsSized(l, h, n, init, aft, cnt, c, loc);
    HoldsIsSized(l, h, n, init, aft, cnt, Nbr(l, c, Dim(s), true), locL);
    HoldsIsSized(l, h, n, init, aft, cnt, Nbr(l, c, Dim(s), false), locR);
    UpdateDelivers(l, h, n, c, s, loc, locL, locR);
    StageOfField(l, h, n, init, aft, f, cnt[f], Dim(s), c);
    ReplaceField(n, aft, cnt, f, c, loc);
  }
}
