/** Message tags of the halo exchange. */
module Tags {
  import opened Grid

  /** 0 and 1 for x to the left and to the right, 2 and 3 for y, 4 and 5 for z. */
  function Direction(dim: nat, left: bool): nat { dim * 2 + (if left then 0 else 1) }

  function Tag(factor: nat, field: nat, dim: nat, left: bool, thread: int): int {
    field + factor * (Direction(dim, left) + 6 * thread)
  }

  /** The tag tells field, dimension, direction and sending thread apart. */
  ghost predicate TagsInjective(factor: nat, fields: nat, threads: nat) {
    forall f: nat, f': nat, d: nat, d': nat, l, l', t: nat, t': nat ::
      f < fields && f' < fields && d < 3 && d' < 3 && t < threads && t' < threads
      && Tag(factor, f, d, l, t) == Tag(factor, f', d', l', t')
      ==> f == f' && d == d' && l == l' && t == t'
  }

  lemma TagDigits(factor: nat, f: nat, f': nat, d: nat, d': nat, l: bool, l': bool, t: int, t': int)
    requires f < factor && f' < factor && d < 3 && d' < 3
    requires Tag(factor, f, d, l, t) == Tag(factor, f', d', l', t')
    ensures f == f' && d == d' && l == l' && t == t'
  {
    DivModOf(f, factor, Direction(d, l) + 6 * t);
    DivModOf(f', factor, Direction(d', l') + 6 * t');
  }

  /** The encoding is injective exactly when the factor, which the encoding calls the number
      of fields but which is set to the number of threads of a rank, is at least the number
      of fields that are exchanged. */
  lemma TagsInjectiveIff(factor: nat, fields: nat, threads: nat)
    requires 0 < threads
    ensures TagsInjective(factor, fields, threads) <==> fields <= factor
  {
    if fields <= factor {
      forall f: nat, f': nat, d: nat, d': nat, l, l', t: nat, t': nat |
          f < fields && f' < fields && d < 3 && d' < 3 && t < threads && t' < threads
          && Tag(factor, f, d, l, t) == Tag(factor, f', d', l', t')
        ensures f == f' && d == d' && l == l' && t == t'
      {
        TagDigits(factor, f, f', d, d', l, l', t, t');
      }
    } else {
      assert Tag(factor, factor, 0, true, 0) == Tag(factor, 0, 0, false, 0);
    }
  }

  /** Within one field the tags tell direction and thread apart whatever the factor. */
  lemma TagOfOneField(factor: nat, f: nat, d: nat, l: bool, l': bool, t: int, t': int)
    requires 0 < factor && Tag(factor, f, d, l, t) == Tag(factor, f, d, l', t')
    ensures l == l' && t == t'
  {
    var q, q' := Direction(d, l) + 6 * t, Direction(d, l') + 6 * t';
    DivModOf(0, factor, q);
    DivModOf(0, factor, q');
  }
}
