/** The whole benchmark step, end to end: make the fields, exchange without any
    synchronisation but messages, check. */
module CheckedRun {
  import opened Grid
  import opened Layouts
  import opened StagedExchange
  import opened Fields
  import opened MessagePassing
  import opened OrderedRuns
  import opened HaloProgram
  import opened SelfCheck
  import opened CheckDetects

  ghost predicate MadeStores(u: Setup, init: V3 -> Store<int>)
    requires Usable(u)
  {
    forall c :: Inside(c, Domains(u.l)) ==>
      |init(c)| == u.fields && forall f: nat :: f < u.fields ==> init(c)[f] == Made(u.l, u.h, u.fields, f, c)
  }

  lemma MadeFamily(u: Setup, init: V3 -> Store<int>, f: nat)
    requires Usable(u) && MadeStores(u, init) && f < u.fields
    ensures StoresOk(u.l, u.h, u.fields, init)
    ensures forall c :: Inside(c, Domains(u.l)) ==> FamilyOf(init, f)(c) == Made(u.l, u.h, u.fields, f, c)
  {
  }

  /** In every interleaving, a domain that has completed its first or any later step passes
      the check in every field, whatever the other domains are doing. */
  lemma EveryRunPassesTheCheck(u: Setup, init: V3 -> Store<int>, run: seq<HaloNet<int>>, i: nat, c: V3, k: nat, f: nat)
    requires Usable(u) && Ordered(HaloPlan<int>(u)) && Fits(u.l, u.h) && MadeStores(u, init)
    requires IsRun(HaloPlan(u), init, run) && i < |run| && f < u.fields
    requires Inside(c, Domains(u.l)) && c in run[i].nodes && 0 < k && run[i].nodes[c].stage == 3 * u.fields * k
    ensures |run[i].nodes[c].loc| == u.fields
    ensures FieldOk(u.l, u.h, c, run[i].nodes[c].loc[f], u.fields, f)
  {
    MadeFamily(u, init, f);
    StepsAreStaged(u, init, run, i, c, k, f);
    ExchangedFieldPasses(u.l, u.h, u.fields, f, FamilyOf(init, f), k, c);
  }

  /** Each domain checks when it has completed its first step; `at(c)` is such a moment of c. */
  ghost predicate FirstStepAt(u: Setup, run: seq<HaloNet<int>>, at: V3 -> nat, c: V3) {
    at(c) < |run| && c in run[at(c)].nodes && run[at(c)].nodes[c].stage == 3 * u.fields * 1
  }

  ghost predicate PassesAt(u: Setup, run: seq<HaloNet<int>>, at: V3 -> nat, c: V3, f: nat)
    requires Usable(u) && Inside(c, Domains(u.l)) && FirstStepAt(u, run, at, c)
  {
    f < |run[at(c)].nodes[c].loc| && FieldOk(u.l, u.h, c, run[at(c)].nodes[c].loc[f], u.fields, f)
  }

  lemma HoldsAfterOne(u: Setup, init: V3 -> Store<int>, run: seq<HaloNet<int>>, at: V3 -> nat, c: V3, f: nat)
    requires Usable(u) && Ordered(HaloPlan<int>(u)) && MadeStores(u, init) && IsRun(HaloPlan(u), init, run)
    requires Inside(c, Domains(u.l)) && FirstStepAt(u, run, at, c) && f < u.fields
    ensures WellSized(u.l, u.h, FamilyOf(init, f)) && f < |run[at(c)].nodes[c].loc|
    ensures run[at(c)].nodes[c].loc[f] == After(u.l, u.h, FamilyOf(init, f), 3, c)
  {
    MadeFamily(u, init, f);
    StepsAreStaged(u, init, run, at(c), c, 1, f);
  }

  lemma MadeFails(u: Setup, init: V3 -> Store<int>, fam: Family<int>) returns (c: V3)
    requires Usable(u) && MadeStores(u, init) && u.fields >= 2 && !Fits(u.l, u.h) && fam == FamilyOf(init, 1)
    ensures Inside(c, Domains(u.l)) && WellSized(u.l, u.h, fam)
    ensures !FieldOk(u.l, u.h, c, After(u.l, u.h, fam, 3, c), u.fields, 1)
  {
    MadeFamily(u, init, 1);
    FamilySized(u.l, u.h, u.fields, init, 1);
    c := WideHalosFail(u.l, u.h, u.fields, 1, fam);
  }

  lemma SomeFails(u: Setup, init: V3 -> Store<int>, run: seq<HaloNet<int>>, at: V3 -> nat) returns (c: V3)
    requires Usable(u) && Ordered(HaloPlan<int>(u)) && MadeStores(u, init) && IsRun(HaloPlan(u), init, run)
    requires u.fields >= 2 && !Fits(u.l, u.h)
    requires forall c :: Inside(c, Domains(u.l)) ==> FirstStepAt(u, run, at, c)
    ensures Inside(c, Domains(u.l)) && !PassesAt(u, run, at, c, 1)
  {
    c := MadeFails(u, init, FamilyOf(init, 1));
    HoldsAfterOne(u, init, run, at, c, 1);
  }

  /** With two or more fields the check of the first step tells whether the halos fit: in every
      interleaving all domains pass in all fields if and only if no halo is wider than a block. */
  lemma CheckTellsFits(u: Setup, init: V3 -> Store<int>, run: seq<HaloNet<int>>, at: V3 -> nat)
    requires Usable(u) && Ordered(HaloPlan<int>(u)) && MadeStores(u, init) && IsRun(HaloPlan(u), init, run)
    requires u.fields >= 2 && forall c :: Inside(c, Domains(u.l)) ==> FirstStepAt(u, run, at, c)
    ensures Fits(u.l, u.h) <==>
            forall c, f: nat :: Inside(c, Domains(u.l)) && f < u.fields ==> PassesAt(u, run, at, c, f)
  {
    forall c, f: nat | Inside(c, Domains(u.l)) && f < u.fields && Fits(u.l, u.h) ensures PassesAt(u, run, at, c, f) {
      EveryRunPassesTheCheck(u, init, run, at(c), c, 1, f);
    }
    if !Fits(u.l, u.h) {
      var c := SomeFails(u, init, run, at);
    }
  }
}
