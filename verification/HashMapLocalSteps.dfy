/** The steps that change nothing but the client's own state: reads, lock operations
    and decisions.  Each keeps the client's own obligations. */
module HashMapLocalSteps {
  import opened BucketTree
  import opened HashMapProtocol
  import opened HashMapInvariant

  /** A waited-for bucket has been rehashed once its lock can be had. */
  lemma {:induction false} WaitEnds(s: State, t: nat)
    requires t < |s.clients| && s.clients[t].pc.Wait?
    requires ClientsOk(s) && WaitOk(s) && NoWriter(s, t, s.clients[t].tgt)
    ensures !IsReq(s, s.clients[t].tgt)
  {
    if IsReq(s, s.clients[t].tgt) {
      var u :| 0 <= u < |s.clients| && s.clients[u].pc.Recheck? && s.clients[u].tgt == s.clients[t].tgt;
      assert ClientOk(s, s.clients[u]);
      assert HoldsW(s.clients[u], s.clients[t].tgt);
    }
  }

  lemma {:induction false} LowBounded(s: State, h: nat, m: nat)
    requires TableOk(s) && m <= s.level
    ensures Low(h, m) < |s.slots|
  {
    Pow2Mono(m, s.alloc);
  }

  lemma {:induction false} AcquireChain(s: State, t: nat, c: Client, x: AcquireAction)
    requires CanAcquire(s, t, c, x) && TableOk(s) && ChainOk(s, c) && LockOk(s, c)
    ensures ChainOk(s, AcquireTo(s, c, x))
  {
    LowBounded(s, H(s, c), s.level);
    var c' := AcquireTo(s, c, x);
    assert c'.chain == c.chain;
  }

  lemma {:induction false} AcquireLock(s: State, t: nat, c: Client, x: AcquireAction)
    requires CanAcquire(s, t, c, x) && LockOk(s, c) && ChainOk(s, c) && (x.WaitLock? ==> !IsReq(s, c.tgt))
    ensures LockOk(s, AcquireTo(s, c, x))
  {
    if x.RecheckDone? || x.WaitLock? { EnterLock(s, t, c, x); }
  }

  lemma {:induction false} EnterLock(s: State, t: nat, c: Client, x: AcquireAction)
    requires CanAcquire(s, t, c, x) && LockOk(s, c) && ChainOk(s, c) && (x.RecheckDone? || x.WaitLock?)
        && (x.WaitLock? ==> !IsReq(s, c.tgt))
    ensures LockOk(s, AcquireTo(s, c, x))
  {}

  lemma {:induction false} AcquireScan(s: State, t: nat, c: Client, x: AcquireAction)
    requires CanAcquire(s, t, c, x) && ScanOk(s, c) && ChainOk(s, c)
    ensures ScanOk(s, AcquireTo(s, c, x))
  {
  }

  lemma {:induction false} EnterPath(s: State, c: Client)
    requires 1 <= c.m <= s.level && Low(H(s, c), c.m) == if c.chain == [] then c.tgt else c.chain[0]
    ensures PathOk(s, Enter(c))
  {
    MaskOnPath(H(s, c), c.m);
  }

  /** Away from the locked bucket, the path obligations are about the target alone. */
  lemma {:induction false} QuietPath(s: State, c: Client)
    requires 1 <= c.m <= s.level && !Working(c) && !Waiting(c)
    requires Acquiring(c) ==> Low(H(s, c), c.m) == if c.chain == [] then c.tgt else c.chain[0]
    ensures PathOk(s, c)
  {}

  predicate StartAction(x: AcquireAction) { x.Begin? || x.DropAcc? || x.LoadMask? }
  predicate EnterAction(x: AcquireAction) { x.RecheckDone? || x.WaitLock? }

  lemma {:induction false} AcquireKeeps(s: State, t: nat, c: Client, x: AcquireAction)
    requires CanAcquire(s, t, c, x) && !StartAction(x) && !EnterAction(x)
    ensures var c' := AcquireTo(s, c, x);
            && c'.chain == c.chain && c'.tgt == c.tgt && c'.m == c.m && c'.op == c.op
            && Acquiring(c) && Acquiring(c')
  {}

  lemma {:induction false} StartPath(s: State, t: nat, c: Client, x: AcquireAction)
    requires CanAcquire(s, t, c, x) && StartAction(x) && 1 <= c.m <= s.level && c.chain == []
    ensures PathOk(s, AcquireTo(s, c, x))
  {
    QuietPath(s, AcquireTo(s, c, x));
  }

  lemma {:induction false} AcquirePath(s: State, t: nat, c: Client, x: AcquireAction)
    requires CanAcquire(s, t, c, x) && PathOk(s, c) && ChainOk(s, c)
    ensures PathOk(s, AcquireTo(s, c, x))
  {
    if x.RecheckDone? {
      EnterPath(s, c);
    } else if x.WaitLock? {
      EnterPath(s, c.(lock := WaitMode(c)));
    } else if StartAction(x) {
      StartPath(s, t, c, x);
    } else {
      KeepPath(s, t, c, x);
    }
  }

  lemma {:induction false} KeepPath(s: State, t: nat, c: Client, x: AcquireAction)
    requires CanAcquire(s, t, c, x) && PathOk(s, c) && ChainOk(s, c) && !x.RecheckDone? && !x.WaitLock?
        && !StartAction(x)
    ensures PathOk(s, AcquireTo(s, c, x))
  {
    AcquireKeeps(s, t, c, x);
    QuietPath(s, AcquireTo(s, c, x));
  }

  lemma {:induction false} AcquireSearch(s: State, t: nat, c: Client, x: AcquireAction)
    requires CanAcquire(s, t, c, x) && SearchOk(s, c) && (c.acc.Acc? ==> c.acc.node in s.key)
    ensures SearchOk(s, AcquireTo(s, c, x))
  {
  }

  lemma {:induction false} WorkChain(s: State, t: nat, c: Client, w: WorkAction)
    requires CanWork(s, t, c, w) && TableOk(s) && ChainOk(s, c) && LockOk(s, c) && c.m <= s.level
    ensures ChainOk(s, WorkTo(s, c, w)) && ScanOk(s, WorkTo(s, c, w))
  {
    assert c.chain == [];
    LowBounded(s, H(s, c), c.m);
    assert WorkTo(s, c, w).chain == [];
    assert !WorkTo(s, c, w).pc.Scan?;
  }

  lemma {:induction false} WorkLock(s: State, t: nat, c: Client, w: WorkAction)
    requires CanWork(s, t, c, w) && LockOk(s, c) && SearchOk(s, c)
    ensures LockOk(s, WorkTo(s, c, w))
  {
    match w
    case Found(_) =>
    case Missing =>
    case UpgradeInsert =>
    case LoseInsert =>
    case RelockInsert =>
    case UpgradeErase =>
    case LoseErase =>
    case RelockErase =>
    case MaskSame =>
    case MaskMoved =>
    case ChildReq =>
    case ChildRehashed =>
    case ReturnAbsent =>
  }

  /** Nothing allocated lies below the masked hash code except buckets not yet published,
      and those are still waiting for rehashing. */
  lemma {:induction false} DeepestUnderMask(s: State, b: nat, h: nat)
    requires TableOk(s) && b == Low(h, s.level)
    ensures Deepest(s, b, h)
  {
    forall d | b < d < |s.slots| && OnPath(d, h)
      ensures !Settled(s, d)
    {
      if d < Pow2(s.level) { DeepestOnPath(d, h, s.level); }
    }
  }

  /** If the next bucket down the path waits for rehashing, nothing below is settled. */
  lemma {:induction false} DeepestAboveReq(s: State, b: nat, d: nat, h: nat)
    requires ParentsOk(s) && OnPath(b, h) && d >= 2 && OnPath(d, h) && Parent(d) == b && IsReq(s, d)
    ensures Deepest(s, b, h)
  {
    forall e | b < e < |s.slots| && OnPath(e, h)
      ensures !Settled(s, e)
    {
      if Settled(s, e) { NotSettledBelow(s, d, e, h); }
    }
  }

  lemma {:induction false} NotSettledBelow(s: State, d: nat, e: nat, h: nat)
    requires ParentsOk(s) && d >= 2 && OnPath(d, h) && IsReq(s, d)
    requires OnPath(e, h) && Parent(d) < e && Settled(s, e)
    ensures false
    decreases e
  {
    if e < d {
      PathGap(e, d, h);
    } else if e > d {
      PathGap(d, e, h);
      ParentOnPath(e, h);
      NotSettledBelow(s, d, Parent(e), h);
    }
  }

  /** check_mask_race: when it reports no race, the locked bucket is the deepest settled
      bucket of the path at that moment. */
  lemma {:induction false} PassIsDeepest(s: State, c: Client, w: WorkAction)
    requires TableOk(s) && ParentsOk(s) && ClientOk(s, c)
    requires (w.MaskSame? && (c.pc.Check? || c.pc.CheckErase?) && !Moved(s, c))
          || (w.ChildReq? && (c.pc.Check2? || c.pc.CheckErase2?) && IsReq(s, c.child))
    ensures Deepest(s, c.tgt, H(s, c))
  {
    var h := H(s, c);
    if w.MaskSame? {
      if c.tgt == Low(h, c.m) { DeepestUnderMask(s, c.tgt, h); }
    } else if c.child >= 2 && OnPath(c.child, h) && Parent(c.child) == c.tgt {
      DeepestAboveReq(s, c.tgt, c.child, h);
    }
  }

  predicate CheckAction(w: WorkAction) {
    w.MaskMoved? || w.MaskSame? || w.ChildReq? || w.ChildRehashed? || w.ReturnAbsent?
  }

  lemma {:induction false} WorkPath(s: State, t: nat, c: Client, w: WorkAction)
    requires CanWork(s, t, c, w) && TableOk(s) && ParentsOk(s) && ClientOk(s, c)
    ensures PathOk(s, WorkTo(s, c, w))
  {
    if CheckAction(w) { CheckPath(s, t, c, w); } else { SearchPath(s, t, c, w); }
  }

  lemma {:induction false} SearchPath(s: State, t: nat, c: Client, w: WorkAction)
    requires CanWork(s, t, c, w) && !CheckAction(w) && PathOk(s, c) && LockOk(s, c)
    ensures PathOk(s, WorkTo(s, c, w))
  {
    if w.RelockInsert? || w.RelockErase? { MaskOnPath(H(s, c), c.m); }
  }

  lemma {:induction false} CheckPath(s: State, t: nat, c: Client, w: WorkAction)
    requires CanWork(s, t, c, w) && CheckAction(w) && TableOk(s) && ParentsOk(s) && ClientOk(s, c)
    ensures PathOk(s, WorkTo(s, c, w))
  {
    if w.MaskMoved? {
      MaskMovedPath(s, c);
    } else if w.MaskSame? || w.ChildReq? {
      PassIsDeepest(s, c, w);
      PassPath(s, c, w);
    } else {
      LeavePath(s, c, w);
    }
  }

  lemma {:induction false} PassPath(s: State, c: Client, w: WorkAction)
    requires (w.MaskSame? && (c.pc.Check? || c.pc.CheckErase?)) || (w.ChildReq? && (c.pc.Check2? || c.pc.CheckErase2?))
    requires 1 <= c.m <= s.level && OnPath(c.tgt, H(s, c)) && Deepest(s, c.tgt, H(s, c)) && LockOk(s, c)
    ensures PathOk(s, WorkTo(s, c, w))
  {}

  lemma {:induction false} LeavePath(s: State, c: Client, w: WorkAction)
    requires w.ChildRehashed? || w.ReturnAbsent?
    requires 1 <= c.m <= s.level && c.chain == []
    ensures PathOk(s, WorkTo(s, c, w))
  {
    QuietPath(s, WorkTo(s, c, w));
  }

  lemma {:induction false} MaskMovedPath(s: State, c: Client)
    requires (c.pc.Check? || c.pc.CheckErase?) && Moved(s, c) && TableOk(s) && PathOk(s, c)
    ensures PathOk(s, WorkTo(s, c, MaskMoved))
  {
    NextMaskChild(H(s, c), c.m, s.level);
    Pow2Mono(s.level, s.alloc);
  }

  lemma {:induction false} WorkSearch(s: State, t: nat, c: Client, w: WorkAction)
    requires CanWork(s, t, c, w) && SearchOk(s, c) && LockOk(s, c)
    ensures SearchOk(s, WorkTo(s, c, w))
  {
    match w
    case Found(_) =>
    case Missing =>
    case MaskSame =>
    case MaskMoved =>
    case ChildReq =>
    case _ =>
  }

  lemma {:induction false} ItemClient(s: State, t: nat, c: Client, i: ItemAction)
    requires CanItem(s, t, c, i) && ClientOk(s, c)
    ensures ClientOk(s, ItemTo(c, i))
  {
    assert c.chain == [];
    var c' := ItemTo(c, i);
    assert c'.chain == [] && c'.tgt == c.tgt && !Acquiring(c') && !Working(c') && !Waiting(c');
    assert ChainOk(s, c');
    assert LockOk(s, c');
    assert ScanOk(s, c');
    assert PathOk(s, c');
    assert SearchOk(s, c');
  }
}
