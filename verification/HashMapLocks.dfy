/** Local steps keep the rules that relate clients: bucket locks, waiting, items, growth. */
module HashMapLocks {
  import opened HashMapProtocol
  import opened HashMapInvariant
  import opened HashMapStability
  import opened HashMapLocalSteps

  /** The client after a local step. */
  predicate LocalAction(a: Step) { !a.Share? }

  function LocalTo(s: State, c: Client, a: Step): Client {
    match a
    case Acquire(x) => AcquireTo(s, c, x)
    case Work(w) => WorkTo(s, c, w)
    case Item(i) => ItemTo(c, i)
    case Share(_) => c
  }

  /** Fewer or weaker bucket locks than before. */
  predicate Weaker(c: Client, c': Client) {
    && c'.chain == c.chain
    && (c'.lock.Free? || (c'.tgt == c.tgt && (c'.lock == c.lock || (c'.lock.Read? && c.lock.Write?))))
  }

  lemma {:induction false} WeakerRule(s: State, t: nat, c': Client)
    requires t < |s.clients| && Exclusive(s) && Weaker(s.clients[t], c')
    ensures LockRule(s, t, c')
  {
    var c := s.clients[t];
    forall u | 0 <= u < |s.clients| && u != t
      ensures Apart(c', s.clients[u]) && Apart(s.clients[u], c')
    {
      assert Apart(c, s.clients[u]) && Apart(s.clients[u], c);
    }
  }

  lemma {:induction false} TakeWriteRule(s: State, t: nat, c': Client)
    requires t < |s.clients| && Exclusive(s) && c'.chain == s.clients[t].chain && c'.tgt == s.clients[t].tgt
    requires c'.lock.Write? && NoHolder(s, t, c'.tgt)
    ensures LockRule(s, t, c')
  {
    var c := s.clients[t];
    forall u | 0 <= u < |s.clients| && u != t
      ensures Apart(c', s.clients[u]) && Apart(s.clients[u], c')
    {
      assert Apart(c, s.clients[u]) && Apart(s.clients[u], c);
    }
  }

  lemma {:induction false} TakeReadRule(s: State, t: nat, c': Client)
    requires t < |s.clients| && Exclusive(s) && c'.chain == s.clients[t].chain && c'.tgt == s.clients[t].tgt
    requires c'.lock.Read? && NoWriter(s, t, c'.tgt)
    ensures LockRule(s, t, c')
  {
    var c := s.clients[t];
    forall u | 0 <= u < |s.clients| && u != t
      ensures Apart(c', s.clients[u]) && Apart(s.clients[u], c')
    {
      assert Apart(c, s.clients[u]) && Apart(s.clients[u], c);
    }
  }

  lemma {:induction false} AcquireRule(s: State, t: nat, c: Client, x: AcquireAction)
    requires t < |s.clients| && c == s.clients[t] && CanAcquire(s, t, c, x) && Exclusive(s) && LockOk(s, c)
    ensures LockRule(s, t, AcquireTo(s, c, x))
  {
    var c' := AcquireTo(s, c, x);
    if x.TryLock? || x.ScanUpgrade? || x.ScanRelock? || (x.WaitLock? && WaitMode(c).Write?) {
      TakeWriteRule(s, t, c');
    } else if x.WaitLock? {
      TakeReadRule(s, t, c');
    } else {
      WeakerRule(s, t, c');
    }
  }

  lemma {:induction false} WorkRule(s: State, t: nat, c: Client, w: WorkAction)
    requires t < |s.clients| && c == s.clients[t] && CanWork(s, t, c, w) && Exclusive(s) && LockOk(s, c)
    ensures LockRule(s, t, WorkTo(s, c, w))
  {
    var c' := WorkTo(s, c, w);
    if w.UpgradeInsert? || w.RelockInsert? || w.UpgradeErase? || w.RelockErase? {
      TakeWriteRule(s, t, c');
    } else {
      WeakerRule(s, t, c');
    }
  }

  lemma {:induction false} LocalRule(s: State, s': State, t: nat, a: Step)
    requires t < |s.clients| && LocalAction(a) && Does(s, s', t, a) && ClientsOk(s) && Exclusive(s)
    ensures LockRule(s, t, LocalTo(s, s.clients[t], a))
  {
    var c := s.clients[t];
    assert ClientOk(s, c);
    match a
    case Acquire(x) => AcquireRule(s, t, c, x);
    case Work(w) => WorkRule(s, t, c, w);
    case Item(i) => WeakerRule(s, t, ItemTo(c, i));
  }

  lemma {:induction false} LocalClient(s: State, s': State, t: nat, a: Step)
    requires t < |s.clients| && LocalAction(a) && Does(s, s', t, a)
    requires TableOk(s) && ClientsOk(s) && WaitOk(s) && ParentsOk(s) && NodesOk(s)
    ensures ClientOk(s, LocalTo(s, s.clients[t], a))
  {
    var c := s.clients[t];
    assert ClientOk(s, c);
    match a
    case Acquire(x) =>
      if x.WaitLock? { WaitEnds(s, t); }
      AcquireChain(s, t, c, x);
      AcquireLock(s, t, c, x);
      AcquireScan(s, t, c, x);
      AcquirePath(s, t, c, x);
      AcquireSearch(s, t, c, x);
    case Work(w) =>
      WorkChain(s, t, c, w);
      WorkLock(s, t, c, w);
      WorkPath(s, t, c, w);
      WorkSearch(s, t, c, w);
    case Item(i) => ItemClient(s, t, c, i);
  }

  /** ClientOk reads the other clients only through their marked buckets. */
  lemma {:induction false} SameView(s: State, s': State, t: nat, c: Client)
    requires t < |s.clients| && s' == With(s, t, c) && c.chain == s.clients[t].chain && ClientOk(s, c)
    ensures ClientOk(s', c)
  {
    LocalEffect(s, s', t, c);
    SearchView(s, s', c);
    assert ChainOk(s', c) && LockOk(s', c) && ScanOk(s', c);
    assert Deepest(s', c.tgt, H(s', c)) == Deepest(s, c.tgt, H(s, c));
    assert PathOk(s', c);
  }

  lemma {:induction false} SearchView(s: State, s': State, c: Client)
    requires s'.slots == s.slots && s'.key == s.key && SearchOk(s, c)
    ensures SearchOk(s', c)
  {
    forall n | n in ListOf(s', c.tgt) ensures n in ListOf(s, c.tgt) && KeyOf(s', n) == KeyOf(s, n) {}
  }

  lemma {:induction false} LocalChain(s: State, s': State, t: nat, a: Step)
    requires t < |s.clients| && LocalAction(a) && Does(s, s', t, a)
    ensures s' == With(s, t, LocalTo(s, s.clients[t], a)) && LocalTo(s, s.clients[t], a).chain == s.clients[t].chain
  {}

  /** A client that fails to try-lock an unrehashed bucket lost to one about to rehash it. */
  lemma {:induction false} TryFailWait(s: State, t: nat)
    requires t < |s.clients| && ClientsOk(s) && !NoHolder(s, t, s.clients[t].tgt) && IsReq(s, s.clients[t].tgt)
    ensures exists u :: 0 <= u < |s.clients| && u != t && s.clients[u].pc.Recheck?
             && s.clients[u].tgt == s.clients[t].tgt
  {
    var u :| 0 <= u < |s.clients| && u != t && Holds(s.clients[u], s.clients[t].tgt);
    assert ClientOk(s, s.clients[u]);
  }

  lemma {:induction false} LocalWait(s: State, s': State, t: nat, a: Step)
    requires t < |s.clients| && LocalAction(a) && Does(s, s', t, a) && ClientsOk(s) && WaitOk(s)
    ensures WaitOk(s')
  {
    LocalChain(s, s', t, a);
    var c, c' := s.clients[t], s'.clients[t];
    forall v | 0 <= v < |s'.clients| && s'.clients[v].pc.Wait? && IsReq(s', s'.clients[v].tgt)
      ensures exists u :: 0 <= u < |s'.clients| && s'.clients[u].pc.Recheck? && s'.clients[u].tgt == s'.clients[v].tgt
    {
      if v == t {
        WaitEntry(s, t, c, a);
        TryFailWait(s, t);
        var u :| 0 <= u < |s.clients| && u != t && s.clients[u].pc.Recheck? && s.clients[u].tgt == c.tgt;
        assert s'.clients[u] == s.clients[u];
      } else {
        var u :| 0 <= u < |s.clients| && s.clients[u].pc.Recheck? && s.clients[u].tgt == s.clients[v].tgt;
        if u == t { RecheckKept(s, t, c, a); }
        assert s'.clients[u].pc.Recheck?;
      }
    }
  }

  lemma {:induction false} WaitEntry(s: State, t: nat, c: Client, a: Step)
    requires t < |s.clients| && c == s.clients[t] && LocalAction(a) && Does(s, With(s, t, LocalTo(s, c, a)), t, a)
    requires LocalTo(s, c, a).pc.Wait? && IsReq(s, LocalTo(s, c, a).tgt)
    ensures LocalTo(s, c, a).tgt == c.tgt && !NoHolder(s, t, c.tgt)
  {
    match a
    case Acquire(x) => assert x.TryFail? || x.PeekOk?;
    case Work(_) =>
    case Item(_) =>
  }

  /** The only local step out of the recheck finds the bucket rehashed. */
  lemma {:induction false} RecheckKept(s: State, t: nat, c: Client, a: Step)
    requires t < |s.clients| && c == s.clients[t] && LocalAction(a) && Does(s, With(s, t, LocalTo(s, c, a)), t, a)
    requires c.pc.Recheck?
    ensures !IsReq(s, c.tgt)
  {
  }
}
