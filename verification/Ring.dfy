/** A ring of free/filled flags between one producer and one consumer. */
module Ring {
  import opened DivMod

  /** Position `i` is one of those in `[lo, hi)` and lies at slot `b`. */
  predicate Occupies(i: nat, lo: nat, hi: nat, n: nat, b: nat)
    requires 1 <= n
  {
    lo <= i < hi && Wrap(i, n) == b
  }

  ghost predicate Taken(lo: nat, hi: nat, n: nat, b: nat)
    requires 1 <= n
  {
    exists i :: Occupies(i, lo, hi, n, b)
  }

  /** The filled slots are exactly those of positions `lo` up to `hi`: one contiguous cyclic range. */
  ghost predicate FlagsMatch(flags: seq<bool>, n: nat, lo: nat, hi: nat)
    requires 1 <= n
  {
    && |flags| == n && lo <= hi <= lo + n
    && forall b :: 0 <= b < n ==> (flags[b] <==> Taken(lo, hi, n, b))
  }

  lemma SlotsDiffer(i: nat, j: nat, n: nat)
    requires i < j < i + n
    ensures Wrap(i, n) != Wrap(j, n)
  {
    ModDistinct(i, j, n);
  }

  lemma FirstFlag(flags: seq<bool>, n: nat, lo: nat, hi: nat)
    requires 1 <= n && FlagsMatch(flags, n, lo, hi)
    ensures flags[Wrap(lo, n)] <==> lo < hi
  {
    if lo < hi {
      assert Occupies(lo, lo, hi, n, Wrap(lo, n));
    }
  }

  lemma FullRing(n: nat, lo: nat)
    requires 1 <= n
    ensures Wrap(lo + n, n) == Wrap(lo, n)
  {
    DivModUnique(lo + n, n, lo / n + 1, lo % n) by {
      MulStep(n, lo / n);
    }
  }

  /** The slot the producer takes next is free exactly when the ring is not full. */
  lemma NextFlag(flags: seq<bool>, n: nat, lo: nat, hi: nat)
    requires 1 <= n && FlagsMatch(flags, n, lo, hi)
    ensures flags[Wrap(hi, n)] <==> hi == lo + n
  {
    if hi == lo + n {
      FullRing(n, lo);
      assert Occupies(lo, lo, hi, n, Wrap(hi, n));
    } else {
      SlotAheadFree(lo, hi, hi, n);
    }
  }

  /** The slot after that is free exactly when at least one more slot is free besides. */
  lemma SecondFlag(flags: seq<bool>, n: nat, lo: nat, hi: nat)
    requires 2 <= n && FlagsMatch(flags, n, lo, hi) && hi < lo + n
    ensures flags[Wrap(hi + 1, n)] <==> hi + 1 == lo + n
    ensures hi + 1 == lo + n ==> Wrap(hi + 1, n) == Wrap(lo, n)
  {
    if hi + 1 == lo + n {
      FullRing(n, lo);
      FirstFlag(flags, n, lo, hi);
    } else {
      SlotAheadFree(lo, hi, hi + 1, n);
    }
  }

  /** No position of the range lies at the slot of one further on, less than a turn after the first. */
  lemma SlotAheadFree(lo: nat, hi: nat, j: nat, n: nat)
    requires 1 <= n && hi <= j < lo + n
    ensures !Taken(lo, hi, n, Wrap(j, n))
  {
    forall i | Occupies(i, lo, hi, n, Wrap(j, n))
      ensures false
    {
      SlotsDiffer(i, j, n);
    }
  }

  lemma FillNext(flags: seq<bool>, n: nat, lo: nat, hi: nat)
    requires 1 <= n && FlagsMatch(flags, n, lo, hi) && hi < lo + n
    ensures FlagsMatch(flags[Wrap(hi, n) := true], n, lo, hi + 1)
  {
    var flags' := flags[Wrap(hi, n) := true];
    forall b | 0 <= b < n
      ensures flags'[b] <==> Taken(lo, hi + 1, n, b)
    {
      OneMore(lo, hi, n, b);
    }
  }

  lemma OneMore(lo: nat, hi: nat, n: nat, b: nat)
    requires 1 <= n && lo <= hi
    ensures Taken(lo, hi + 1, n, b) <==> Taken(lo, hi, n, b) || b == Wrap(hi, n)
  {
    var hi' := hi + 1;
    if Taken(lo, hi', n, b) {
      var i :| Occupies(i, lo, hi', n, b);
      assert i == hi || Occupies(i, lo, hi, n, b);
    }
    if Taken(lo, hi, n, b) {
      var i :| Occupies(i, lo, hi, n, b);
      assert Occupies(i, lo, hi', n, b);
    }
    assert b == Wrap(hi, n) ==> Occupies(hi, lo, hi', n, b);
  }

  lemma OneFewer(lo: nat, hi: nat, n: nat, b: nat)
    requires 1 <= n && lo < hi <= lo + n
    ensures Taken(lo + 1, hi, n, b) <==> Taken(lo, hi, n, b) && b != Wrap(lo, n)
  {
    var lo' := lo + 1;
    if Taken(lo', hi, n, b) {
      var i :| Occupies(i, lo', hi, n, b);
      SlotsDiffer(lo, i, n);
      assert Occupies(i, lo, hi, n, b);
    }
    if Taken(lo, hi, n, b) && b != Wrap(lo, n) {
      var i :| Occupies(i, lo, hi, n, b);
      assert Occupies(i, lo', hi, n, b);
    }
  }

  lemma FreeFirst(flags: seq<bool>, n: nat, lo: nat, hi: nat)
    requires 1 <= n && FlagsMatch(flags, n, lo, hi) && lo < hi
    ensures FlagsMatch(flags[Wrap(lo, n) := false], n, lo + 1, hi)
  {
    var flags' := flags[Wrap(lo, n) := false];
    forall b | 0 <= b < n
      ensures flags'[b] <==> Taken(lo + 1, hi, n, b)
    {
      OneFewer(lo, hi, n, b);
    }
  }
}
