/** The table of thread-local elements: every step keeps the invariant. */
module LocalTableSteps {
  import opened BucketTree
  import opened LocalTable
  import opened LocalTableFrames

  // ----- the search

  lemma {:induction false} QuietPtrs(s: State, t: Tid, p: PC)
    requires ChainOk(s.tab) && PtrsOk(s) && t in s.pc && !s.pc[t].Store?
    ensures PtrsOk(Goto(s, t, p))
  {
    var s' := Goto(s, t, p);
    forall j, i | 0 <= j < |s'.tab.chain| && 0 <= i < |s'.tab.arrays[s'.tab.chain[j]].keys|
        ensures PtrOk(s', s'.tab.chain[j], i) {
      assert PtrOk(s, s.tab.chain[j], i);
    }
  }

  lemma {:induction false} QuietOwns(s: State, t: Tid, p: PC)
    requires Owns(s) && t in s.pc && Own(s.tab, t, p)
    ensures Owns(Goto(s, t, p))
  {
    var s' := Goto(s, t, p);
    forall u | u in s'.pc ensures u in s'.tab.hash && Own(s'.tab, u, s'.pc[u]) {
      if u != t { assert s'.pc[u] == s.pc[u]; }
    }
  }

  /** A step that only moves `t`. */
  lemma {:induction false} QuietInv(s: State, t: Tid, p: PC)
    requires Inv(s) && t in s.pc && !s.pc[t].Store? && !p.Swap? && Own(s.tab, t, p)
    ensures Inv(Goto(s, t, p))
  {
    QuietPtrs(s, t, p);
    QuietOwns(s, t, p);
  }

  lemma {:induction false} AbsentNotPresent(s: Table, t: Tid)
    requires Absent(s, t)
    ensures !Present(s, t)
  {}

  lemma {:induction false} CallsInv(s: State, t: Tid, s': State)
    requires Inv(s) && Calls(s, t, s')
    ensures Inv(s')
  {
    assert Own(s.tab, t, s.pc[t]);
    QuietInv(s, t, Visit(s.tab.root));
  }

  lemma {:induction false} EntersInv(s: State, t: Tid, s': State)
    requires Inv(s) && Enters(s, t, s')
    ensures Inv(s')
  {
    assert Own(s.tab, t, s.pc[t]);
    ChainSlots(s.tab, s.pc[t].at.id);
    assert Passing(s.tab, t, s.pc[t].at.id, 0);
    QuietInv(s, t, Probe(s.pc[t].at.id, 0));
  }

  lemma {:induction false} ExhaustsInv(s: State, t: Tid, s': State)
    requires Inv(s) && Exhausts(s, t, s')
    ensures Inv(s')
  {
    assert Own(s.tab, t, s.pc[t]);
    AbsentNotPresent(s.tab, t);
    QuietInv(s, t, Create);
  }

  /** An array without the key: the search goes on with the older arrays. */
  lemma {:induction false} NextOlder(s: Table, t: Tid, r: Aid)
    requires ChainOk(s) && r in s.chain && AbsentAfter(s, t, r) && !Holds(s, t, r)
    ensures var at := s.arrays[r].next;
            if at == Null then Absent(s, t) else at.id in s.chain && AbsentAfter(s, t, at.id)
  {
    var j :| 0 <= j < |s.chain| && s.chain[j] == r;
    if j > 0 {
      forall i, l | 0 <= l < i < |s.chain| && s.chain[l] == s.chain[j - 1] ensures !Holds(s, t, s.chain[i]) {
        assert l == j - 1;
        if i > j { assert s.chain[j] == r; }
      }
    } else {
      forall i | 0 <= i < |s.chain| ensures !Holds(s, t, s.chain[i]) {
        if i > 0 { assert s.chain[0] == r; }
      }
    }
  }

  lemma {:induction false} ChainSlots(s: Table, r: Aid)
    requires ChainOk(s) && ArraysOk(s) && r in s.chain
    ensures SlotsOk(s, r)
  {
    var j :| 0 <= j < |s.chain| && s.chain[j] == r;
  }

  /** One probe: the key is here, or the next slot, or the next older array. */
  lemma {:induction false} ProbeOwn(s: Table, t: Tid, r: Aid, n: nat)
    requires ChainOk(s) && TicketsOk(s) && ArraysOk(s) && Settled(s, t) && Passing(s, t, r, n)
    ensures var key := s.arrays[r].keys[SlotOf(s, t, r, n)];
            Own(s, t, if key == 0 then Visit(s.arrays[r].next) else if key == t then Check(r, n) else Probe(r, n + 1))
  {
    ChainSlots(s, r);
    var key := s.arrays[r].keys[SlotOf(s, t, r, n)];
    if key == 0 {
      EmptyEnds(s, t, r, n);
      NextOlder(s, t, r);
    } else if key != t {
      NotRound(s, t, r, n);
    }
  }

  lemma {:induction false} ProbesInv(s: State, t: Tid, s': State)
    requires Inv(s) && Probes(s, t, s')
    ensures Inv(s')
  {
    assert Own(s.tab, t, s.pc[t]);
    ProbeOwn(s.tab, t, s.pc[t].r, s.pc[t].n);
    QuietInv(s, t, s'.pc[t]);
  }

  /** The element in the slot of `t` is the one of `t`. */
  lemma {:induction false} OwnPointer(s: State, t: Tid, r: Aid, n: nat)
    requires ChainOk(s.tab) && PtrsOk(s) && t in s.pc && !s.pc[t].Store? && AtOwn(s.tab, t, r, n)
    ensures t in s.tab.local && s.tab.arrays[r].ptrs[SlotOf(s.tab, t, r, n)] == s.tab.local[t]
  {
    var j :| 0 <= j < |s.tab.chain| && s.tab.chain[j] == r;
    assert PtrOk(s, s.tab.chain[j], SlotOf(s.tab, t, r, n));
  }

  lemma {:induction false} OwnRoom(s: Table, t: Tid, r: Aid, n: nat)
    requires ChainOk(s) && ArraysOk(s) && AtOwn(s, t, r, n)
    ensures Roomy(s, t, r)
  {
    ChainSlots(s, r);
    assert KeyOk(s, r, SlotOf(s, t, r, n));
  }

  lemma {:induction false} RootIsLargest(s: Table, t: Tid, r: Aid)
    requires ChainOk(s) && Roomy(s, t, r)
    ensures s.root.To? && Roomy(s, t, s.root.id)
  {
    var j :| 0 <= j < |s.chain| && s.chain[j] == r;
    if j < |s.chain| - 1 { Pow2Mono(s.arrays[s.chain[j]].lg, s.arrays[s.root.id].lg); }
  }

  lemma {:induction false} CheckOwn(s: Table, t: Tid, r: Aid, n: nat)
    requires ChainOk(s) && ArraysOk(s) && t in s.local && AtOwn(s, t, r, n) && AbsentAfter(s, t, r)
    ensures Own(s, t, if s.root == To(r) then Done(s.local[t]) else Insert(s.local[t]))
  {
    OwnRoom(s, t, r, n);
    RootIsLargest(s, t, r);
    assert r in s.chain && Holds(s, t, r);
    if s.root != To(r) {
      var j :| 0 <= j < |s.chain| && s.chain[j] == r;
      assert j < |s.chain| - 1 && !Holds(s, t, s.chain[|s.chain| - 1]);
    }
  }

  lemma {:induction false} ChecksInv(s: State, t: Tid, s': State)
    requires Inv(s) && Checks(s, t, s')
    ensures Inv(s')
  {
    assert Own(s.tab, t, s.pc[t]);
    OwnPointer(s, t, s.pc[t].r, s.pc[t].n);
    CheckOwn(s.tab, t, s.pc[t].r, s.pc[t].n);
    QuietInv(s, t, s'.pc[t]);
  }

  lemma {:induction false} ReturnsInv(s: State, t: Tid, s': State)
    requires Inv(s) && Returns(s, t, s')
    ensures Inv(s')
  {
    assert Own(s.tab, t, s.pc[t]);
    QuietInv(s, t, Idle);
  }

  // ----- making room

  /** A step after which the published arrays are what they were. */
  predicate SameArrays(s: Table, s': Table) {
    && s'.chain == s.chain && s'.root == s.root && s'.hash == s.hash
    && forall r :: r in s.chain && r in s.arrays ==> r in s'.arrays && s'.arrays[r] == s.arrays[r]
  }

  /** At most `t` gets a ticket or an element. */
  predicate Adds(s: Table, t: Tid, s': Table) {
    && (s'.ticket == s.ticket || (t !in s.ticket && t in s'.ticket && s'.ticket == s.ticket[t := s'.ticket[t]]))
    && (s'.local == s.local || (t !in s.local && t in s'.local && s'.local == s.local[t := s'.local[t]]))
  }

  lemma {:induction false} SameMoves(s: Table, t: Tid, s': Table)
    requires SameArrays(s, s') && Adds(s, t, s')
    ensures Moves(s, t, s')
  {
    forall r | r in s.chain && r in s.arrays ensures r in s'.arrays && Fills(s.arrays[r], s'.arrays[r], t) {}
  }

  /** Such a step keeps the rest of the invariant, if tickets and elements are only added. */
  lemma {:induction false} StillInv(s: State, t: Tid, s': State)
    requires Inv(s) && OnlyMoves(s, t, s') && SameArrays(s.tab, s'.tab) && Adds(s.tab, t, s'.tab) && !s.pc[t].Store?
    requires TicketsOk(s'.tab) && PrivateKept(s, t, s') && PrivateApart(s') && Own(s'.tab, t, s'.pc[t])
    ensures Inv(s')
  {
    SameChain(s.tab, s'.tab);
    SameMoves(s.tab, t, s'.tab);
    RestInv(s, t, s');
  }

  lemma {:induction false} SameChain(s: Table, s': Table)
    requires ChainOk(s) && SameArrays(s, s')
    ensures ChainOk(s')
  {}

  lemma {:induction false} PrivatesKept(s: State, t: Tid, s': State)
    requires Owns(s) && s'.tab.chain == s.tab.chain
    requires forall u :: u in s.pc && u != t && s.pc[u].Swap? && s.pc[u].a in s.tab.arrays ==>
               s.pc[u].a in s'.tab.arrays && s'.tab.arrays[s.pc[u].a] == s.tab.arrays[s.pc[u].a]
    requires OnlyMoves(s, t, s') && PrivateApart(s)
    requires s'.pc[t].Swap? ==> (s.pc[t].Swap? && s'.pc[t].a == s.pc[t].a) || s'.pc[t].a !in s.tab.arrays
    ensures PrivateKept(s, t, s') && PrivateApart(s')
  {
    forall u | u in s.pc && u != t && s.pc[u].Swap? ensures s.pc[u].a in s.tab.arrays && s.pc[u].a !in s.tab.chain {
      assert Own(s.tab, u, s.pc[u]);
    }
  }

  lemma {:induction false} SameAbsent(s: Table, t: Tid, s': Table)
    requires ChainOk(s) && SameArrays(s, s') && Absent(s, t)
    ensures Absent(s', t)
  {
    forall i | 0 <= i < |s'.chain| ensures !Holds(s', t, s'.chain[i]) { assert !Holds(s, t, s.chain[i]); }
  }

  lemma {:induction false} CreatesInv(s: State, t: Tid, s': State)
    requires Inv(s) && Creates(s, t, s')
    ensures Inv(s')
  {
    assert Own(s.tab, t, s.pc[t]);
    CreateTickets(s.tab, t);
    NewcomerOwn(s, t, s');
    PrivatesKept(s, t, s');
    StillInv(s, t, s');
  }

  lemma {:induction false} CountsInv(s: State, t: Tid, s': State)
    requires Inv(s) && Counts(s, t, s')
    ensures Inv(s')
  {
    assert Own(s.tab, t, s.pc[t]);
    CountTickets(s.tab, t);
    NewcomerOwn(s, t, s');
    PrivatesKept(s, t, s');
    StillInv(s, t, s');
  }

  lemma {:induction false} NewcomerOwn(s: State, t: Tid, s': State)
    requires ChainOk(s.tab) && (Creates(s, t, s') || Counts(s, t, s')) && Own(s.tab, t, s.pc[t])
    ensures Own(s'.tab, t, s'.pc[t]) && SameArrays(s.tab, s'.tab) && Adds(s.tab, t, s'.tab)
  {
    SameAbsent(s.tab, t, s'.tab);
  }

  lemma {:induction false} CountTickets(s: Table, t: Tid)
    requires TicketsOk(s) && t !in s.ticket && t in s.local
    ensures TicketsOk(s.(count := s.count + 1, ticket := s.ticket[t := s.count + 1]))
  {}

  lemma {:induction false} CreateTickets(s: Table, t: Tid)
    requires TicketsOk(s) && t !in s.local && t in s.hash
    ensures TicketsOk(s.(locals := s.locals + 1, local := s.local[t := s.locals]))
  {}

  lemma {:induction false} LooksRoomyInv(s: State, t: Tid, s': State)
    requires Inv(s) && LooksRoomy(s, t, s')
    ensures Inv(s')
  {
    assert Own(s.tab, t, s.pc[t]);
    QuietInv(s, t, s'.pc[t]);
  }

  lemma {:induction false} LooksFullInv(s: State, t: Tid, a: Aid, s': State)
    requires Inv(s) && LooksFull(s, t, a, s')
    ensures Inv(s')
  {
    assert Own(s.tab, t, s.pc[t]);
    LooksFullOwn(s, t, a, s');
    PrivatesKept(s, t, s');
    StillInv(s, t, s');
  }

  lemma {:induction false} LooksFullOwn(s: State, t: Tid, a: Aid, s': State)
    requires ChainOk(s.tab) && TicketsOk(s.tab) && LooksFull(s, t, a, s') && Own(s.tab, t, s.pc[t])
    ensures Own(s'.tab, t, s'.pc[t]) && SameArrays(s.tab, s'.tab) && TicketsOk(s'.tab)
  {
    SameAbsent(s.tab, t, s'.tab);
    WithTickets(s.tab, a, s'.tab.arrays[a]);
    LooksFullPrivate(s, t, a, s');
  }

  lemma {:induction false} LooksFullPrivate(s: State, t: Tid, a: Aid, s': State)
    requires ChainOk(s.tab) && LooksFull(s, t, a, s')
    ensures Private(s'.tab, s.pc[t].c, a, s.tab.root, s'.pc[t].lg)
  {
    var b := s.tab;
    if b.root.To? {
      var lg := b.arrays[b.root.id].lg;
      assert Pow2(lg) / 2 == Pow2(lg - 1);
    }
  }

  lemma {:induction false} SwapSucceedsInv(s: State, t: Tid, s': State)
    requires Inv(s) && SwapSucceeds(s, t, s')
    ensures Inv(s')
  {
    assert Own(s.tab, t, s.pc[t]);
    SwapChain(s, t, s');
    SwapMoves(s, t, s');
    SwapPrivate(s, t, s');
    SwapOwn(s, t, s');
    RestInv(s, t, s');
  }

  /** What follows once the chain, the tickets and the moving thread are in order, if no
      published array changed. */
  lemma {:induction false} RestInv(s: State, t: Tid, s': State)
    requires Inv(s) && OnlyMoves(s, t, s') && Moves(s.tab, t, s'.tab) && !s.pc[t].Store?
    requires forall r :: r in s.tab.chain ==> r in s'.tab.arrays && s'.tab.arrays[r] == s.tab.arrays[r]
    requires ChainOk(s'.tab) && TicketsOk(s'.tab) && PrivateKept(s, t, s') && PrivateApart(s')
        && Own(s'.tab, t, s'.pc[t])
    ensures Inv(s')
  {
    ArraysFrame(s.tab, t, s'.tab);
    PtrsFrame(s, t, s');
    OwnsFrame(s, t, s');
  }

  lemma {:induction false} SwapChain(s: State, t: Tid, s': State)
    requires ChainOk(s.tab) && SwapSucceeds(s, t, s') && Private(s.tab, s.pc[t].c, s.pc[t].a, s.pc[t].seen, s.pc[t].lg)
    ensures ChainOk(s'.tab)
  {
    var b := s.tab;
    var n := |b.chain|;
    assert forall i :: 0 <= i < n ==> s'.tab.chain[i] == b.chain[i];
    forall i | 0 <= i < n ensures b.arrays[b.chain[i]].lg < b.arrays[s.pc[t].a].lg {
      if i < n - 1 { assert b.arrays[b.chain[i]].lg < b.arrays[b.chain[n - 1]].lg; }
    }
  }

  lemma {:induction false} SwapMoves(s: State, t: Tid, s': State)
    requires ChainOk(s.tab) && SwapSucceeds(s, t, s') && Private(s.tab, s.pc[t].c, s.pc[t].a, s.pc[t].seen, s.pc[t].lg)
    ensures Moves(s.tab, t, s'.tab)
  {
    forall r | r in s.tab.chain && r in s.tab.arrays ensures Fills(s.tab.arrays[r], s'.tab.arrays[r], t) {}
    assert HasNoKeys(s.tab.arrays[s.pc[t].a]);
  }

  lemma {:induction false} SwapPrivate(s: State, t: Tid, s': State)
    requires Owns(s) && PrivateApart(s) && SwapSucceeds(s, t, s')
    ensures PrivateKept(s, t, s') && PrivateApart(s')
  {
    forall u | u in s.pc && u != t && s.pc[u].Swap?
      ensures s.pc[u].a in s.tab.arrays && s.pc[u].a !in s'.tab.chain
    {
      assert Own(s.tab, u, s.pc[u]);
    }
  }

  lemma {:induction false} SwapOwn(s: State, t: Tid, s': State)
    requires SwapSucceeds(s, t, s') && Own(s.tab, t, s.pc[t])
    ensures Own(s'.tab, t, s'.pc[t])
  {
    var a, lg := s.pc[t].a, s.pc[t].lg;
    assert s'.tab.chain[|s.tab.chain|] == a;
    assert Pow2(lg) / 2 == Pow2(lg - 1);
    assert forall i :: 0 <= i < |s.tab.arrays[a].keys| ==> s.tab.arrays[a].keys[i] == 0;
  }

  lemma {:induction false} SwapSuperfluousInv(s: State, t: Tid, s': State)
    requires Inv(s) && SwapSuperfluous(s, t, s')
    ensures Inv(s')
  {
    assert Own(s.tab, t, s.pc[t]);
    PrivatesKept(s, t, s');
    SuperfluousOwn(s, t, s');
    StillInv(s, t, s');
  }

  lemma {:induction false} SuperfluousOwn(s: State, t: Tid, s': State)
    requires ChainOk(s.tab) && SwapSuperfluous(s, t, s') && Own(s.tab, t, s.pc[t])
    ensures Own(s'.tab, t, s'.pc[t]) && SameArrays(s.tab, s'.tab)
  {
    var b, p := s.tab, s.pc[t];
    assert b.root.id == b.chain[|b.chain| - 1];
    var lg := b.arrays[b.root.id].lg;
    Pow2Mono(p.lg - 1, lg - 1);
    assert Pow2(lg) / 2 == Pow2(lg - 1);
    assert !Holds(b, t, b.chain[|b.chain| - 1]);
  }

  lemma {:induction false} SwapRetriesInv(s: State, t: Tid, s': State)
    requires Inv(s) && SwapRetries(s, t, s')
    ensures Inv(s')
  {
    assert Own(s.tab, t, s.pc[t]);
    PrivatesKept(s, t, s');
    RetryOwn(s, t, s');
    StillInv(s, t, s');
  }

  lemma {:induction false} RetryOwn(s: State, t: Tid, s': State)
    requires ChainOk(s.tab) && SwapRetries(s, t, s') && Own(s.tab, t, s.pc[t])
    ensures Own(s'.tab, t, s'.pc[t]) && SameArrays(s.tab, s'.tab)
  {
    var b := s.tab;
    assert b.root.id == b.chain[|b.chain| - 1];
    SameAbsent(b, t, s'.tab);
  }

  // ----- inserting

  lemma {:induction false} InsertsInv(s: State, t: Tid, s': State)
    requires Inv(s) && Inserts(s, t, s')
    ensures Inv(s')
  {
    assert Own(s.tab, t, s.pc[t]);
    InsertOwn(s.tab, t, s.pc[t].found);
    QuietInv(s, t, s'.pc[t]);
  }

  lemma {:induction false} InsertOwn(s: Table, t: Tid, found: Loc)
    requires ChainOk(s) && TicketsOk(s) && t in s.hash && Own(s, t, Insert(found))
    ensures Own(s, t, Seek(s.root.id, 0, found))
  {
    var n := |s.chain|;
    assert s.root.id == s.chain[n - 1];
    assert forall j :: 0 <= j < n - 1 ==> s.chain[j] != s.chain[n - 1];
  }

  /** A taken slot: the next one. */
  lemma {:induction false} SeekOn(s: Table, t: Tid, r: Aid, n: nat, found: Loc)
    requires ChainOk(s) && TicketsOk(s) && ArraysOk(s) && Seeking(s, t, r, n, found)
    requires s.arrays[r].keys[SlotOf(s, t, r, n)] != 0
    ensures Seeking(s, t, r, n + 1, found)
  {
    ChainSlots(s, r);
    NotRound(s, t, r, n);
  }

  lemma {:induction false} SeeksInv(s: State, t: Tid, s': State)
    requires Inv(s) && Seeks(s, t, s')
    ensures Inv(s')
  {
    assert Own(s.tab, t, s.pc[t]);
    var p := s.pc[t];
    if s'.pc[t].Seek? { SeekOn(s.tab, t, p.r, p.n, p.found); }
    QuietInv(s, t, s'.pc[t]);
  }

  lemma {:induction false} ClaimsInv(s: State, t: Tid, s': State)
    requires Inv(s) && Claims(s, t, s')
    ensures Inv(s')
  {
    assert Own(s.tab, t, s.pc[t]);
    var p := s.pc[t];
    if s'.pc[t].Seek? {
      SeekOn(s.tab, t, p.r, p.n, p.found);
      QuietInv(s, t, s'.pc[t]);
    } else {
      ClaimInv(s, t, s', p.r, p.n, p.found);
    }
  }

  /** The table with another version of one array. */
  function With(s: Table, r: Aid, a: Array): Table { s.(arrays := s.arrays[r := a]) }

  lemma {:induction false} ChainFrame(s: Table, s': Table)
    requires ChainOk(s) && s'.chain == s.chain && s'.root == s.root
    requires forall q :: q in s.chain ==>
               q in s'.arrays && Sound(s'.arrays[q]) && s'.arrays[q].lg == s.arrays[q].lg &&
               s'.arrays[q].next == s.arrays[q].next
    ensures ChainOk(s')
  {}

  lemma {:induction false} WithChain(s: Table, t: Tid, r: Aid, a: Array)
    requires ChainOk(s) && r in s.chain && Fills(s.arrays[r], a, t)
    ensures ChainOk(With(s, r, a))
  {
    var s' := With(s, r, a);
    forall q | q in s.chain
        ensures q in s'.arrays && Sound(s'.arrays[q]) && s'.arrays[q].lg == s.arrays[q].lg
        && s'.arrays[q].next == s.arrays[q].next {
      var j :| 0 <= j < |s.chain| && s.chain[j] == q;
      assert Sound(s.arrays[s.chain[j]]);
    }
    ChainFrame(s, s');
  }

  lemma {:induction false} WithMoves(s: Table, t: Tid, r: Aid, a: Array)
    requires r in s.arrays && Fills(s.arrays[r], a, t)
    ensures Moves(s, t, With(s, r, a))
  {
    var s' := With(s, r, a);
    forall q | q in s.chain && q in s.arrays ensures q in s'.arrays && Fills(s.arrays[q], s'.arrays[q], t) {}
  }

  lemma {:induction false} WithTickets(s: Table, r: Aid, a: Array)
    requires TicketsOk(s)
    ensures TicketsOk(With(s, r, a))
  {}

  lemma {:induction false} WithPrivate(s: State, t: Tid, s': State, r: Aid, a: Array)
    requires Owns(s) && PrivateApart(s) && OnlyMoves(s, t, s') && !s'.pc[t].Swap? && r in s.tab.chain
        && s'.tab == With(s.tab, r, a)
    ensures PrivateKept(s, t, s') && PrivateApart(s')
  {
    forall u | u in s.pc && u != t && s.pc[u].Swap? ensures s.pc[u].a in s.tab.arrays && s.pc[u].a !in s.tab.chain {
      assert Own(s.tab, u, s.pc[u]);
    }
  }

  /** The array once `t` has claimed slot `i`. */
  function Claimed(a: Array, t: Tid, i: nat): (a': Array)
    requires i < |a.keys|
    ensures a.keys[i] == 0 ==> Fills(a, a', t)
  {
    a.(keys := a.keys[i := t])
  }

  lemma {:induction false} ClaimInv(s: State, t: Tid, s': State, r: Aid, n: nat, found: Loc)
    requires Inv(s) && t in s.pc && Seeking(s.tab, t, r, n, found) && s.tab.arrays[r].keys[SlotOf(s.tab, t, r, n)] == 0
    requires s.pc[t].Claim?
    requires s' == State(With(s.tab, r, Claimed(s.tab.arrays[r], t, SlotOf(s.tab, t, r, n))),
        s.pc[t := Store(r, n, found)])
    ensures Inv(s')
  {
    var i := SlotOf(s.tab, t, r, n);
    var a := Claimed(s.tab.arrays[r], t, i);
    WithChain(s.tab, t, r, a);
    WithMoves(s.tab, t, r, a);
    WithTickets(s.tab, r, a);
    ClaimArrays(s.tab, t, r, n, found);
    ClaimPtrs(s, t, s', r, i);
    WithPrivate(s, t, s', r, a);
    OwnsFrame(s, t, s');
  }

  lemma {:induction false} ClaimArrays(s: Table, t: Tid, r: Aid, n: nat, found: Loc)
    requires ChainOk(s) && TicketsOk(s) && ArraysOk(s) && Seeking(s, t, r, n, found)
        && s.arrays[r].keys[SlotOf(s, t, r, n)] == 0
    ensures var s' := With(s, r, Claimed(s.arrays[r], t, SlotOf(s, t, r, n)));
            ArraysOk(s') && AtOwn(s', t, r, n)
  {
    var a := Claimed(s.arrays[r], t, SlotOf(s, t, r, n));
    var s' := With(s, r, a);
    WithMoves(s, t, r, a);
    forall j | 0 <= j < |s'.chain| ensures SlotsOk(s', s'.chain[j]) {
      if s.chain[j] != r {
        SlotsFrame(s, t, s', s.chain[j]);
      } else {
        ClaimSlots(s, t, r, n, found);
      }
    }
  }

  lemma {:induction false} ClaimSlots(s: Table, t: Tid, r: Aid, n: nat, found: Loc)
    requires ChainOk(s) && SlotsOk(s, r) && Seeking(s, t, r, n, found) && s.arrays[r].keys[SlotOf(s, t, r, n)] == 0
    requires Moves(s, t, With(s, r, Claimed(s.arrays[r], t, SlotOf(s, t, r, n))))
    ensures SlotsOk(With(s, r, Claimed(s.arrays[r], t, SlotOf(s, t, r, n))), r)
  {
    var i := SlotOf(s, t, r, n);
    var s' := With(s, r, Claimed(s.arrays[r], t, i));
    forall k | 0 <= k < |s'.arrays[r].keys| && s'.arrays[r].keys[k] != 0 ensures KeyOk(s', r, k) {
      if k != i {
        KeyFrame(s, t, s', r, k);
      } else {
        SlotUnique(Start(s.hash[t], s.arrays[r].lg), n, DistOf(s, t, r, i), Pow2(s.arrays[r].lg));
        PassedFrame(s, t, s', t, r, n);
      }
    }
    forall k, l | 0 <= k < l < |s'.arrays[r].keys| && s'.arrays[r].keys[k] != 0
        ensures s'.arrays[r].keys[k] != s'.arrays[r].keys[l] {
      assert t !in s.arrays[r].keys;
    }
  }

  lemma {:induction false} SlotUnique(start: nat, m: nat, n: nat, size: nat)
    requires start < size && m < size && n < size && Slot(start, m, size) == Slot(start, n, size)
    ensures m == n
  {}

  lemma {:induction false} ClaimPtrs(s: State, t: Tid, s': State, r: Aid, i: nat)
    requires ChainOk(s.tab) && PtrsOk(s) && t in s.pc && !s.pc[t].Store? && r in s.tab.chain
        && i < |s.tab.arrays[r].keys|
    requires s'.tab == With(s.tab, r, Claimed(s.tab.arrays[r], t, i)) && t in s'.pc && s'.pc == s.pc[t := s'.pc[t]]
        && s'.pc[t].Store? && s'.pc[t].r == r
    ensures PtrsOk(s')
  {
    forall j, k | 0 <= j < |s'.tab.chain| && 0 <= k < |s'.tab.arrays[s'.tab.chain[j]].keys|
        ensures PtrOk(s', s'.tab.chain[j], k) {
      assert PtrOk(s, s.tab.chain[j], k);
    }
  }

  lemma {:induction false} StoresInv(s: State, t: Tid, s': State)
    requires Inv(s) && Stores(s, t, s')
    ensures Inv(s')
  {
    assert Own(s.tab, t, s.pc[t]);
    StorePtrs(s, t, s');
    StoreOwn(s, t, s');
    StoreInv(s, t, s', s.pc[t].r, s'.tab.arrays[s.pc[t].r]);
  }

  lemma {:induction false} StoreInv(s: State, t: Tid, s': State, r: Aid, a: Array)
    requires Inv(s) && OnlyMoves(s, t, s') && !s'.pc[t].Swap? && r in s.tab.chain && s'.tab == With(s.tab, r, a)
    requires a.keys == s.tab.arrays[r].keys && Fills(s.tab.arrays[r], a, t) && PtrsOk(s') && Own(s'.tab, t, s'.pc[t])
    ensures Inv(s')
  {
    WithArrays(s.tab, t, r, a);
    WithTickets(s.tab, r, a);
    WithPrivate(s, t, s', r, a);
    OwnsFrame(s, t, s');
  }

  lemma {:induction false} WithArrays(s: Table, t: Tid, r: Aid, a: Array)
    requires ChainOk(s) && ArraysOk(s) && r in s.chain && a.keys == s.arrays[r].keys && Fills(s.arrays[r], a, t)
    ensures ChainOk(With(s, r, a)) && Moves(s, t, With(s, r, a)) && ArraysOk(With(s, r, a))
  {
    WithChain(s, t, r, a);
    WithMoves(s, t, r, a);
    ArraysFrame(s, t, With(s, r, a));
  }

  lemma {:induction false} StoreOwn(s: State, t: Tid, s': State)
    requires Stores(s, t, s') && Own(s.tab, t, s.pc[t])
    ensures Own(s'.tab, t, s'.pc[t])
  {
    var r := s.pc[t].r;
    assert r in s'.tab.chain && s'.tab.arrays[r].keys == s.tab.arrays[r].keys;
    assert Holds(s'.tab, t, r);
  }

  lemma {:induction false} StorePtrs(s: State, t: Tid, s': State)
    requires ChainOk(s.tab) && ArraysOk(s.tab) && PtrsOk(s) && Stores(s, t, s') && Own(s.tab, t, s.pc[t])
    ensures PtrsOk(s')
  {
    var r, n := s.pc[t].r, s.pc[t].n;
    ChainSlots(s.tab, r);
    forall j, k | 0 <= j < |s'.tab.chain| && 0 <= k < |s'.tab.arrays[s'.tab.chain[j]].keys|
        ensures PtrOk(s', s'.tab.chain[j], k) {
      assert PtrOk(s, s.tab.chain[j], k);
    }
  }
}
