// How the custom kernels split the rows of a tensor among `nth` workers:
// worker `ith` handles the flat rows [dr*ith, min(dr*ith + dr, nr)) where
// dr = (nr + nth - 1) / nth.
module Partition {

  /** Rows per worker: the ceiling of nr / nth. */
  function ChunkSize(nr: nat, nth: nat): (dr: nat)
    requires nth >= 1
    ensures dr * nth >= nr
    ensures nr > 0 ==> dr >= 1
    ensures dr * nth < nr + nth
  {
    (nr + nth - 1) / nth
  }

  function RangeStart(nr: nat, nth: nat, ith: nat): nat
    requires nth >= 1
  {
    ChunkSize(nr, nth) * ith
  }

  function RangeEnd(nr: nat, nth: nat, ith: nat): nat
    requires nth >= 1
  {
    var e := RangeStart(nr, nth, ith) + ChunkSize(nr, nth);
    if e < nr then e else nr
  }

  /** Worker `ith` processes flat row `r`. */
  predicate Owns(nr: nat, nth: nat, ith: nat, r: nat)
    requires nth >= 1
  {
    RangeStart(nr, nth, ith) <= r < RangeEnd(nr, nth, ith)
  }

  /** The worker a row belongs to, as a closed form. */
  function Owner(nr: nat, nth: nat, r: nat): nat
    requires nth >= 1 && r < nr
  {
    r / ChunkSize(nr, nth)
  }

  lemma MulLe(d: nat, a: nat, b: nat)
    requires a <= b
    ensures d * a <= d * b
  {
    assert d * b == d * a + d * (b - a);
  }

  /** Cancelling a positive factor in d*a < d*b + d. */
  lemma MulCancel(d: nat, a: nat, b: nat)
    requires d > 0 && d * a < d * b + d
    ensures a <= b
  {
    if a > b {
      MulLe(d, b + 1, a);
    }
  }

  /** Integer division is determined by the enclosing multiples. */
  lemma DivUnique(r: nat, d: nat, q: nat)
    requires d > 0 && d * q <= r < d * q + d
    ensures r / d == q
  {
    var q' := r / d;
    assert d * q' + r % d == r;
    MulCancel(d, q, q');
    MulCancel(d, q', q);
  }

  /** Owns agrees with the closed-form owner. */
  lemma OwnsIffOwner(nr: nat, nth: nat, ith: nat, r: nat)
    requires nth >= 1
    ensures Owns(nr, nth, ith, r) <==> r < nr && ith < nth && Owner(nr, nth, r) == ith
  {
    var dr := ChunkSize(nr, nth);
    if Owns(nr, nth, ith, r) {
      DivUnique(r, dr, ith);
      if ith >= nth {
        MulLe(dr, nth, ith);
      }
    }
    if r < nr && ith < nth && Owner(nr, nth, r) == ith {
      assert dr * (r / dr) + r % dr == r;
      assert dr * ith <= r < dr * ith + dr;
    }
  }

  /** Every row belongs to exactly one worker with index below nth. */
  lemma OwnerOwns(nr: nat, nth: nat, r: nat)
    requires nth >= 1 && r < nr
    ensures Owner(nr, nth, r) < nth
    ensures Owns(nr, nth, Owner(nr, nth, r), r)
    ensures forall ith :: Owns(nr, nth, ith, r) ==> ith == Owner(nr, nth, r)
  {
    var dr := ChunkSize(nr, nth);
    var o := r / dr;
    assert dr * o + r % dr == r;
    if o >= nth {
      MulLe(dr, nth, o);
    }
    OwnsIffOwner(nr, nth, o, r);
    forall ith | Owns(nr, nth, ith, r) ensures ith == o {
      OwnsIffOwner(nr, nth, ith, r);
    }
  }

  /** The ranges of two distinct workers are disjoint. */
  lemma RangesDisjoint(nr: nat, nth: nat, i: nat, i': nat, r: nat)
    requires nth >= 1 && i != i'
    ensures !(Owns(nr, nth, i, r) && Owns(nr, nth, i', r))
  {
    OwnsIffOwner(nr, nth, i, r);
    OwnsIffOwner(nr, nth, i', r);
  }

  /** The ranges of workers 0..nth-1 together are exactly the rows [0, nr). */
  lemma RangesCover(nr: nat, nth: nat, r: nat)
    requires nth >= 1
    ensures r < nr <==> exists ith: nat :: ith < nth && Owns(nr, nth, ith, r)
  {
    if r < nr {
      OwnerOwns(nr, nth, r);
    }
  }

  /** A worker whose range would start at or past the last row gets nothing. */
  lemma IdleWorker(nr: nat, nth: nat, ith: nat)
    requires nth >= 1 && RangeStart(nr, nth, ith) >= nr
    ensures forall r :: !Owns(nr, nth, ith, r)
  {
  }
}
