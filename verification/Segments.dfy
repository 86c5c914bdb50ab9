/** The segmented bucket array: which slot of which segment holds a bucket index, and the
    pointer walk over consecutive indices. */
module Segments {
  import opened BucketTree

  /** segment_index_of: the position of the topmost bit of `i | 1`. */
  function SegmentIndex(i: nat): nat { Len(i) - 1 }

  /** segment_base: 1 << k, with the lowest bit cleared. */
  function SegmentBase(k: nat): nat { if k == 0 then 0 else Pow2(k) }

  function SegmentSize(k: nat): nat { if k == 0 then 2 else Pow2(k) }

  datatype Slot = Slot(segment: nat, offset: nat)

  /** get_bucket. */
  function GetBucket(i: nat): (s: Slot)
    ensures s.offset < SegmentSize(s.segment) && SegmentBase(s.segment) + s.offset == i
  {
    Slot(SegmentIndex(i), i - SegmentBase(SegmentIndex(i)))
  }

  /** Under the mask 2^level - 1 every index lies in one of the `level` segments that are
      allocated, and every slot of these segments is the slot of exactly one index. */
  lemma {:induction false} SlotsAreIndices(level: nat, s: Slot)
    requires level >= 1 && s.offset < SegmentSize(s.segment)
    ensures GetBucket(SegmentBase(s.segment) + s.offset) == s
    ensures s.segment < level <==> SegmentBase(s.segment) + s.offset < Pow2(level)
  {
    var k, i := s.segment, SegmentBase(s.segment) + s.offset;
    LenLeast(i, k + 1);
    if k == 0 {
      Pow2Mono(1, level);
    } else {
      Pow2Mono(1, k);
      if Len(i) <= k { Pow2Mono(Len(i), k); }
      if k < level { Pow2Mono(k + 1, level); } else { Pow2Mono(level, k); }
    }
  }

  // ----- the pointer walk

  /** Bitwise and. */
  function And(a: nat, b: nat): nat {
    if a == 0 || b == 0 then 0 else (if a % 2 == 1 && b % 2 == 1 then 1 else 0) + 2 * And(a / 2, b / 2)
  }

  lemma {:induction false} AndTop(a: nat, b: nat, k: nat)
    requires Pow2(k) <= a < Pow2(k + 1) && Pow2(k) <= b < Pow2(k + 1)
    ensures And(a, b) >= 1
  {
    if k > 0 { AndTop(a / 2, b / 2, k - 1); }
  }

  lemma {:induction false} AndBelowTop(k: nat, b: nat)
    requires b < Pow2(k)
    ensures And(Pow2(k), b) == 0
  {
    if k > 0 { AndBelowTop(k - 1, b / 2); }
  }

  /** `k & (k - 2)` in a word: for k == 1 the second operand is all ones. */
  function Test(k: nat): nat { if k >= 2 then And(k, k - 2) else k }

  /** The test of advance_to_next_bucket is zero exactly at the first index of a segment. */
  lemma {:induction false} TestIsStart(k: nat)
    ensures Test(k) == 0 <==> k == SegmentBase(SegmentIndex(k))
  {
    if k >= 2 {
      var t := Len(k) - 1;
      Pow2Mono(1, t);
      if k == Pow2(t) {
        AndBelowTop(t, k - 2);
      } else if k == Pow2(t) + 1 {
        assert Pow2(t) == 2 * Pow2(t - 1);
      } else {
        AndTop(k, k - 2, t);
      }
    }
  }

  /** One step of the walk: recompute at the beginning of a segment, else go to the next slot. */
  function Step(s: Slot, k: nat): Slot { if Test(k) != 0 then Slot(s.segment, s.offset + 1) else GetBucket(k) }

  /** The walk agrees with get_bucket at every index. */
  lemma {:induction false} WalkAgrees(k: nat)
    requires k >= 1
    ensures Step(GetBucket(k - 1), k) == GetBucket(k)
  {
    TestIsStart(k);
    if k >= 2 && Test(k) != 0 {
      var t := Len(k) - 1;
      LenLeast(k - 1, t + 1);
      if Len(k - 1) <= t { Pow2Mono(Len(k - 1), t); }
    }
  }
}
