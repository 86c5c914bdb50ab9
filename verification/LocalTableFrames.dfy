/** The table of thread-local elements: arrays are at most half full, and what a step of
    one thread leaves alone. */
module LocalTableFrames {
  import opened BucketTree
  import opened LocalTable

  // ----- arrays are at most half full

  /** Distinct numbers between 1 and `m` are at most `m` many. */
  lemma {:induction false} Pigeonhole(xs: seq<nat>, m: nat)
    requires forall i :: 0 <= i < |xs| ==> 1 <= xs[i] <= m
    requires forall i, j :: 0 <= i < j < |xs| ==> xs[i] != xs[j]
    ensures |xs| <= m
    decreases m
  {
    if xs != [] {
      assert 1 <= xs[0] <= m;
      if i :| 0 <= i < |xs| && xs[i] == m {
        Pigeonhole(xs[..i] + xs[i + 1..], m - 1);
      } else {
        Pigeonhole(xs, m - 1);
      }
    }
  }

  /** Every array has an empty slot. */
  lemma {:induction false} EmptySlot(s: Table, r: Aid) returns (i: nat)
    requires TicketsOk(s) && SlotsOk(s, r)
    ensures i < Pow2(s.arrays[r].lg) && s.arrays[r].keys[i] == 0
  {
    var a := s.arrays[r];
    if j :| 0 <= j < |a.keys| && a.keys[j] == 0 {
      i := j;
    } else {
      assert forall j :: 0 <= j < |a.keys| ==> KeyOk(s, r, j);
      var xs: seq<nat> := seq(|a.keys|, j requires 0 <= j < |a.keys| => var k: Tid := a.keys[j]; s.ticket[k]);
      Pigeonhole(xs, Pow2(a.lg) / 2);
      assert false;
    }
  }

  /** A thread that has passed `n` taken slots and finds the next one taken too has not come
      round: there is a slot left. */
  lemma {:induction false} NotRound(s: Table, t: Tid, r: Aid, n: nat)
    requires TicketsOk(s) && Reads(s, t, r) && SlotsOk(s, r) && n < Pow2(s.arrays[r].lg)
    requires Passed(s, t, r, n) && s.arrays[r].keys[SlotOf(s, t, r, n)] != 0
    ensures n + 1 < Pow2(s.arrays[r].lg) && Passed(s, t, r, n + 1)
  {
    var i := EmptySlot(s, r);
    var m := DistOf(s, t, r, i);
    assert m > n;
  }

  /** An empty slot ends the search: the key is not in the array. */
  lemma {:induction false} EmptyEnds(s: Table, t: Tid, r: Aid, n: nat)
    requires SlotsOk(s, r) && Passing(s, t, r, n) && s.arrays[r].keys[SlotOf(s, t, r, n)] == 0
    ensures !Holds(s, t, r)
  {
    forall i | 0 <= i < |s.arrays[r].keys| ensures s.arrays[r].keys[i] != t {
      var d := DistOf(s, t, r, i);
      if s.arrays[r].keys[i] != 0 { assert KeyOk(s, r, i); }
    }
  }

  // ----- what a step of one thread leaves alone

  /** Only slots of `t` changed, and a slot is never emptied. */
  predicate Fills(a: Array, a': Array, t: Tid) {
    && a'.lg == a.lg && a'.next == a.next && |a'.keys| == |a.keys| && |a'.ptrs| == |a.ptrs|
    && (forall i :: 0 <= i < |a.keys| ==> a'.keys[i] == a.keys[i] || (a.keys[i] == 0 && a'.keys[i] == t))
  }

  predicate HasNoKeys(a: Array) { forall i :: 0 <= i < |a.keys| ==> a.keys[i] == 0 }

  /** A step of `t` as the other threads see it. */
  predicate Moves(s: Table, t: Tid, s': Table) {
    && s'.hash == s.hash
    && s.chain <= s'.chain && |s'.chain| <= |s.chain| + 1
    && (forall r :: r in s.chain && r in s.arrays ==> r in s'.arrays && Fills(s.arrays[r], s'.arrays[r], t))
    && (|s'.chain| > |s.chain| ==> s'.chain[|s.chain|] in s'.arrays && HasNoKeys(s'.arrays[s'.chain[|s.chain|]]))
    && (forall u :: u in s.ticket ==> u in s'.ticket && s'.ticket[u] == s.ticket[u])
    && (forall u :: u in s.local ==> u in s'.local && s'.local[u] == s.local[u])
    && (forall u :: u != t && u in s'.ticket ==> u in s.ticket)
    && (forall u :: u != t && u in s'.local ==> u in s.local)
  }

  lemma {:induction false} HoldsFrame(s: Table, t: Tid, s': Table, u: Tid, r: Aid)
    requires Moves(s, t, s') && u != t && r in s.chain && r in s.arrays
    ensures Holds(s', u, r) <==> Holds(s, u, r)
  {
    var k, k' := s.arrays[r].keys, s'.arrays[r].keys;
    assert Fills(s.arrays[r], s'.arrays[r], t);
    if u in k { var i :| 0 <= i < |k| && k[i] == u; assert k'[i] == u; }
    if u in k' { var i :| 0 <= i < |k'| && k'[i] == u; assert k[i] == u; }
  }

  /** The arrays published are the same, or one without keys is new. */
  lemma {:induction false} AbsentFrame(s: Table, t: Tid, s': Table, u: Tid)
    requires ChainOk(s) && Moves(s, t, s') && u != t
    ensures Absent(s, u) ==> Absent(s', u)
    ensures forall r :: r in s.chain && AbsentAfter(s, u, r) && ChainOk(s') ==> AbsentAfter(s', u, r)
    ensures Present(s, u) ==> Present(s', u)
  {
    forall i | 0 <= i < |s'.chain|
      ensures i < |s.chain| ==> (Holds(s', u, s'.chain[i]) <==> Holds(s, u, s.chain[i]))
      ensures i >= |s.chain| ==> !Holds(s', u, s'.chain[i])
    {
      if i < |s.chain| { HoldsFrame(s, t, s', u, s.chain[i]); }
    }
    if Present(s, u) {
      var r :| r in s.chain && Holds(s, u, r);
      HoldsFrame(s, t, s', u, r);
      assert r in s'.chain;
    }
  }

  lemma {:induction false} PassedFrame(s: Table, t: Tid, s': Table, u: Tid, r: Aid, n: nat)
    requires Moves(s, t, s') && r in s.chain && Reads(s, u, r) && n <= Pow2(s.arrays[r].lg) && Passed(s, u, r, n)
    ensures Reads(s', u, r) && s'.arrays[r].lg == s.arrays[r].lg && Passed(s', u, r, n)
    ensures forall m :: 0 <= m < n ==> s'.arrays[r].keys[SlotOf(s', u, r, m)] == s.arrays[r].keys[SlotOf(s, u, r, m)]
  {
    assert Fills(s.arrays[r], s'.arrays[r], t);
    forall m | 0 <= m < n
      ensures s'.arrays[r].keys[SlotOf(s', u, r, m)] == s.arrays[r].keys[SlotOf(s, u, r, m)]
    {
      assert SlotOf(s', u, r, m) == SlotOf(s, u, r, m);
    }
  }

  lemma {:induction false} PassingFrame(s: Table, t: Tid, s': Table, u: Tid, r: Aid, n: nat)
    requires ChainOk(s) && ChainOk(s') && Moves(s, t, s') && u != t && Passing(s, u, r, n)
    ensures Passing(s', u, r, n)
  {
    PassedFrame(s, t, s', u, r, n);
    AbsentFrame(s, t, s', u);
    assert r in s'.chain;
  }

  lemma {:induction false} AtOwnFrame(s: Table, t: Tid, s': Table, u: Tid, r: Aid, n: nat)
    requires Moves(s, t, s') && AtOwn(s, u, r, n)
    ensures AtOwn(s', u, r, n)
  {
    assert Fills(s.arrays[r], s'.arrays[r], t);
    assert SlotOf(s', u, r, n) == SlotOf(s, u, r, n);
    assert r in s'.chain;
  }

  /** Another thread about to insert: the root may have grown, which leaves it room. */
  lemma {:induction false} InsertFrame(s: Table, t: Tid, s': Table, u: Tid)
    requires ChainOk(s) && ChainOk(s') && Moves(s, t, s') && u != t
    requires s.root.To? && Roomy(s, u, s.root.id) && !Holds(s, u, s.root.id)
    ensures s'.root.To? && Roomy(s', u, s'.root.id) && !Holds(s', u, s'.root.id)
  {
    HoldsFrame(s, t, s', u, s.root.id);
    assert Fills(s.arrays[s.root.id], s'.arrays[s.root.id], t);
    if |s'.chain| > |s.chain| {
      var i := |s.chain|;
      assert s'.chain[i - 1] == s.root.id;
      Pow2Mono(s'.arrays[s'.chain[i - 1]].lg, s'.arrays[s'.chain[i]].lg);
    } else {
      assert s'.chain == s.chain;
    }
  }

  lemma {:induction false} SeekingFrame(s: Table, t: Tid, s': Table, u: Tid, r: Aid, n: nat, found: Loc)
    requires ChainOk(s) && ChainOk(s') && Moves(s, t, s') && u != t && Seeking(s, u, r, n, found)
    ensures Seeking(s', u, r, n, found)
  {
    PassingFrame(s, t, s', u, r, n);
    HoldsFrame(s, t, s', u, r);
    assert Fills(s.arrays[r], s'.arrays[r], t);
  }

  lemma {:induction false} SettledFrame(s: Table, t: Tid, s': Table, u: Tid)
    requires ChainOk(s) && Moves(s, t, s') && u != t && Settled(s, u)
    ensures Settled(s', u)
  {
    AbsentFrame(s, t, s', u);
  }

  /** A searching thread. */
  lemma {:induction false} SearchFrame(s: Table, t: Tid, s': Table, u: Tid, p: PC)
    requires ChainOk(s) && ChainOk(s') && Moves(s, t, s') && u != t && Own(s, u, p)
    requires p.Idle? || p.Visit? || p.Probe? || p.Check?
    ensures Own(s', u, p)
  {
    SettledFrame(s, t, s', u);
    AbsentFrame(s, t, s', u);
    if p.Probe? {
      PassingFrame(s, t, s', u, p.r, p.n);
    } else if p.Check? {
      AtOwnFrame(s, t, s', u, p.r, p.n);
    }
  }

  /** A thread that makes room. */
  lemma {:induction false} GrowFrame(s: Table, t: Tid, s': Table, u: Tid, p: PC)
    requires ChainOk(s) && ChainOk(s') && Moves(s, t, s') && u != t && Own(s, u, p)
    requires p.Create? || p.Count? || p.Look? || p.Swap?
    requires p.Swap? ==> p.a in s'.arrays && s'.arrays[p.a] == s.arrays[p.a] && p.a !in s'.chain
    ensures Own(s', u, p)
  {
    AbsentFrame(s, t, s', u);
    if p.Swap? && p.seen.To? { assert Fills(s.arrays[p.seen.id], s'.arrays[p.seen.id], t); }
  }

  /** What `u` relies on survives the steps of `t`. */
  lemma {:induction false} OwnFrame(s: Table, t: Tid, s': Table, u: Tid, p: PC)
    requires ChainOk(s) && ChainOk(s') && Moves(s, t, s') && u != t && Own(s, u, p)
    requires p.Swap? ==> p.a in s'.arrays && s'.arrays[p.a] == s.arrays[p.a] && p.a !in s'.chain
    ensures Own(s', u, p)
  {
    if p.Idle? || p.Visit? || p.Probe? || p.Check? {
      SearchFrame(s, t, s', u, p);
    } else if p.Create? || p.Count? || p.Look? || p.Swap? {
      GrowFrame(s, t, s', u, p);
    } else if p.Store? {
      AtOwnFrame(s, t, s', u, p.r, p.n);
    } else if p.Insert? {
      InsertFrame(s, t, s', u);
    } else if p.Done? {
      AbsentFrame(s, t, s', u);
    } else {
      SeekingFrame(s, t, s', u, p.r, p.n, p.found);
    }
  }

  /** The private arrays of the other threads are still theirs. */
  predicate PrivateKept(s: State, t: Tid, s': State) {
    forall u :: u in s.pc && u != t && s.pc[u].Swap? ==>
      s.pc[u].a in s.tab.arrays && s.pc[u].a in s'.tab.arrays && s'.tab.arrays[s.pc[u].a] == s.tab.arrays[s.pc[u].a]
          && s.pc[u].a !in s'.tab.chain
  }

  predicate OnlyMoves(s: State, t: Tid, s': State) { t in s.pc && t in s'.pc && s'.pc == s.pc[t := s'.pc[t]] }

  lemma {:induction false} OwnsFrame(s: State, t: Tid, s': State)
    requires ChainOk(s.tab) && ChainOk(s'.tab) && Owns(s) && OnlyMoves(s, t, s') && Moves(s.tab, t, s'.tab)
    requires PrivateKept(s, t, s') && Own(s'.tab, t, s'.pc[t])
    ensures Owns(s')
  {
    forall u | u in s'.pc ensures Own(s'.tab, u, s'.pc[u]) {
      if u != t {
        assert u in s.pc && Own(s.tab, u, s.pc[u]);
        OwnFrame(s.tab, t, s'.tab, u, s.pc[u]);
      }
    }
  }

  lemma {:induction false} KeyFrame(s: Table, t: Tid, s': Table, r: Aid, i: nat)
    requires Moves(s, t, s') && r in s.chain && r in s.arrays && Sound(s.arrays[r]) && i < Pow2(s.arrays[r].lg)
    requires s.arrays[r].keys[i] != 0 && KeyOk(s, r, i)
    ensures r in s'.arrays && Sound(s'.arrays[r]) && s'.arrays[r].lg == s.arrays[r].lg
        && s'.arrays[r].keys[i] == s.arrays[r].keys[i]
    ensures KeyOk(s', r, i)
  {
    assert Fills(s.arrays[r], s'.arrays[r], t);
    var k: Tid := s.arrays[r].keys[i];
    PassedFrame(s, t, s', k, r, DistOf(s, k, r, i));
  }

  lemma {:induction false} SlotsFrame(s: Table, t: Tid, s': Table, r: Aid)
    requires Moves(s, t, s') && r in s.chain && SlotsOk(s, r) && r in s'.arrays && s'.arrays[r].keys == s.arrays[r].keys
    ensures SlotsOk(s', r)
  {
    assert Fills(s.arrays[r], s'.arrays[r], t);
    forall i | 0 <= i < |s.arrays[r].keys| && s.arrays[r].keys[i] != 0 ensures KeyOk(s', r, i) {
      KeyFrame(s, t, s', r, i);
    }
  }

  /** Arrays whose keys did not change stay in order, and so does a new one without keys. */
  lemma {:induction false} ArraysFrame(s: Table, t: Tid, s': Table)
    requires ChainOk(s) && ChainOk(s') && ArraysOk(s) && Moves(s, t, s')
    requires forall r :: r in s.chain ==> r in s'.arrays && s'.arrays[r].keys == s.arrays[r].keys
    ensures ArraysOk(s')
  {
    forall j | 0 <= j < |s'.chain| ensures SlotsOk(s', s'.chain[j]) {
      if j < |s.chain| {
        assert s'.chain[j] == s.chain[j];
        SlotsFrame(s, t, s', s.chain[j]);
      }
    }
  }

  /** Slots of the other threads, and those of `t` if it did not store, keep their elements. */
  lemma {:induction false} PtrsFrame(s: State, t: Tid, s': State)
    requires ChainOk(s.tab) && PtrsOk(s) && OnlyMoves(s, t, s') && Moves(s.tab, t, s'.tab) && !s.pc[t].Store?
    requires forall r :: r in s.tab.chain ==> r in s'.tab.arrays && s'.tab.arrays[r] == s.tab.arrays[r]
    ensures ChainOk(s'.tab) ==> PtrsOk(s')
  {
    if ChainOk(s'.tab) {
      forall j, i | 0 <= j < |s'.tab.chain| && 0 <= i < |s'.tab.arrays[s'.tab.chain[j]].keys|
          ensures PtrOk(s', s'.tab.chain[j], i) {
        if j < |s.tab.chain| {
          assert s'.tab.chain[j] == s.tab.chain[j];
          assert PtrOk(s, s.tab.chain[j], i);
        }
      }
    }
  }
}
