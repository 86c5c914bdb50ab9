/** The index arithmetic of the segmented bucket table.

    Buckets form a forest: the parent of bucket `b >= 2` is `b` with its topmost
    bit cleared, and the roots are the two embedded buckets 0 and 1.  A hash code
    `h` meets the buckets `h & (2^j - 1)`, which this module calls its path.
    Masks are written as levels: level `k` stands for the mask `2^k - 1`, and
    `Low(h, k)` is `h & (2^k - 1)`. */
module BucketTree {

  function Pow2(n: nat): (r: nat)
    ensures r >= 1
  {
    if n == 0 then 1 else 2 * Pow2(n - 1)
  }

  /** The low `k` bits of `h`. */
  function Low(h: nat, k: nat): (r: nat)
    ensures r < Pow2(k) && r <= h
  {
    if k == 0 then 0 else h % 2 + 2 * Low(h / 2, k - 1)
  }

  /** The number of bits of `b`, at least one: the least level whose mask covers `b`. */
  function Len(b: nat): (r: nat)
    ensures r >= 1 && b < Pow2(r) && (b >= 2 ==> r >= 2 && Pow2(r - 1) <= b)
  {
    if b < 2 then 1 else Len(b / 2) + 1
  }

  /** `b` with its topmost bit cleared. */
  function Parent(b: nat): (r: nat)
    requires b >= 2
    ensures r < b && r < Pow2(Len(b) - 1)
  {
    b - Pow2(Len(b) - 1)
  }

  /** `b` is one of the buckets `h & (2^j - 1)`. */
  predicate OnPath(b: nat, h: nat) {
    Low(h, Len(b)) == b
  }

  lemma {:induction false} Pow2Mono(a: nat, b: nat)
    requires a <= b
    ensures Pow2(a) <= Pow2(b)
    ensures a < b ==> 2 * Pow2(a) <= Pow2(b)
    decreases b - a
  {
    if a < b { Pow2Mono(a, b - 1); }
  }

  /** `Len(b)` is the least positive level covering `b`. */
  lemma {:induction false} LenLeast(b: nat, k: nat)
    requires k >= 1 && b < Pow2(k)
    ensures Len(b) <= k
  {
    if b >= 2 && Len(b) > k { Pow2Mono(k, Len(b) - 1); }
  }

  /** One more mask bit adds either nothing or exactly that bit. */
  lemma {:induction false} LowStep(h: nat, k: nat)
    ensures Low(h, k + 1) == Low(h, k) || Low(h, k + 1) == Low(h, k) + Pow2(k)
  {
    if k > 0 { LowStep(h / 2, k - 1); }
  }

  lemma {:induction false} LowMono(h: nat, a: nat, b: nat)
    requires a <= b
    ensures Low(h, a) <= Low(h, b)
    decreases b - a
  {
    if a < b { LowMono(h, a, b - 1); LowStep(h, b - 1); }
  }

  /** Masking twice is masking with the smaller mask. */
  lemma {:induction false} LowLow(h: nat, a: nat, b: nat)
    requires a <= b
    ensures Low(Low(h, b), a) == Low(h, a)
  {
    if a > 0 {
      LowLow(h / 2, a - 1, b - 1);
      assert Low(h, b) / 2 == Low(h / 2, b - 1);
    }
  }

  lemma {:induction false} LowSmall(h: nat, k: nat)
    requires h < Pow2(k)
    ensures Low(h, k) == h
  {
    if k > 0 { LowSmall(h / 2, k - 1); }
  }

  /** `Low` is the arithmetic remainder, that is, the bitwise `h & (2^k - 1)`. */
  lemma {:induction false} LowIsRemainder(h: nat, k: nat)
    ensures exists q: nat :: h == q * Pow2(k) + Low(h, k)
  {
    if k == 0 {
      assert h == h * Pow2(0) + Low(h, 0);
    } else {
      LowIsRemainder(h / 2, k - 1);
      var q: nat :| h / 2 == q * Pow2(k - 1) + Low(h / 2, k - 1);
      assert q * Pow2(k) == 2 * (q * Pow2(k - 1));
      assert h == q * Pow2(k) + Low(h, k);
    }
  }

  /** Every masked hash code is on the path. */
  lemma {:induction false} MaskOnPath(h: nat, k: nat)
    requires k >= 1
    ensures OnPath(Low(h, k), h)
  {
    var b := Low(h, k);
    LenLeast(b, k);
    LowLow(h, Len(b), k);
    LowSmall(b, Len(b));
  }

  /** The parent of a path bucket is the next shorter masked hash code. */
  lemma {:induction false} ParentIsLow(b: nat, h: nat)
    requires b >= 2 && OnPath(b, h)
    ensures Parent(b) == Low(h, Len(b) - 1)
  {
    LowStep(h, Len(b) - 1);
  }

  lemma {:induction false} ParentOnPath(b: nat, h: nat)
    requires b >= 2 && OnPath(b, h)
    ensures OnPath(Parent(b), h)
  {
    ParentIsLow(b, h);
    MaskOnPath(h, Len(b) - 1);
  }

  /** A path has nothing strictly between a bucket and its parent. */
  lemma {:induction false} PathGap(b: nat, d: nat, h: nat)
    requires OnPath(b, h) && OnPath(d, h) && b < d
    ensures d >= 2 && b <= Parent(d)
  {
    if Len(d) <= Len(b) {
      LowMono(h, Len(d), Len(b));
    } else {
      ParentIsLow(d, h);
      LowMono(h, Len(b), Len(d) - 1);
    }
  }

  /** The deepest path bucket under a mask is the masked hash code. */
  lemma {:induction false} DeepestOnPath(d: nat, h: nat, k: nat)
    requires k >= 1 && OnPath(d, h) && d < Pow2(k)
    ensures d <= Low(h, k)
  {
    LenLeast(d, k);
    LowMono(h, Len(d), k);
  }

  /** The search for the next applicable mask (check_rehashing_collision): from the
      bit above the old mask, shift left until a set bit of the hash code is met.
      It stops under the current mask because the two masked codes differ. */
  function NextMask(h: nat, lo: nat, now: nat): (r: nat)
    requires lo < now && Low(h, lo) != Low(h, now)
    ensures lo < r <= now
    decreases now - lo
  {
    if Low(h, lo + 1) != Low(h, lo) then lo + 1 else NextMask(h, lo + 1, now)
  }

  /** The bucket under the next applicable mask is the child, towards `h`, of the
      bucket under the old mask. */
  lemma {:induction false} NextMaskChild(h: nat, lo: nat, now: nat)
    requires 1 <= lo < now && Low(h, lo) != Low(h, now)
    ensures var c := Low(h, NextMask(h, lo, now));
            OnPath(c, h) && 2 <= c < Pow2(now) && Parent(c) == Low(h, lo)
    decreases now - lo
  {
    if Low(h, lo + 1) != Low(h, lo) {
      var c := Low(h, lo + 1);
      LowStep(h, lo);
      Pow2Mono(1, lo);
      Pow2Mono(lo + 1, now);
      MaskOnPath(h, lo + 1);
      LenLeast(c, lo + 1);
      if Len(c) <= lo { Pow2Mono(Len(c), lo); }
    } else {
      NextMaskChild(h, lo + 1, now);
    }
  }
}
