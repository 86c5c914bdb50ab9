/** What every run of the concurrent table keeps, and the guarantees that follow. */
module HashMapSafety {
  import opened BucketTree
  import opened HashMapProtocol
  import opened HashMapInvariant
  import opened HashMapStability
  import opened HashMapLocks
  import opened HashMapItems
  import opened HashMapRehash
  import opened HashMapTable
  import opened HashMapUpdates
  import opened HashMapSharedNodes

  lemma {:induction false} ClientsStep(s: State, s': State, t: nat)
    requires t < |s.clients| && Effect(s, s', t) && ClientsOk(s) && Exclusive(s) && Placed(s)
    requires ClientOk(s', s'.clients[t])
    ensures ClientsOk(s')
  {
    forall u | 0 <= u < |s'.clients| ensures ClientOk(s', s'.clients[u]) {
      if u != t {
        assert ClientOk(s, s.clients[u]);
        ClientStable(s, s', t, u);
      }
    }
  }

  lemma {:induction false} LocalInv(s: State, s': State, t: nat, a: Step)
    requires t < |s.clients| && LocalAction(a) && Does(s, s', t, a) && Inv(s)
    ensures Inv(s')
  {
    var c' := LocalTo(s, s.clients[t], a);
    LocalChain(s, s', t, a);
    LocalEffect(s, s', t, c');
    LocalTable(s, s', t, c');
    LocalClient(s, s', t, a);
    SameView(s, s', t, c');
    ClientsStep(s, s', t);
    LocalRule(s, s', t, a);
    ExclusiveStable(s, s', t);
    LocalWait(s, s', t, a);
    LocalNodes(s, s', t, a);
    LocalGrowth(s, s', t, a);
  }

  /** Locks are only given up. */
  lemma {:induction false} ReleaseLocks(s: State, t: nat, c': Client)
    requires t < |s.clients| && Exclusive(s) && Weaker(s.clients[t], c')
    ensures LockRule(s, t, c')
  {
    WeakerRule(s, t, c');
  }

  lemma {:induction false} MarkInv(s: State, s': State, t: nat)
    requires t < |s.clients| && Marks(s, s', t, s.clients[t]) && Inv(s)
    ensures Inv(s')
  {
    assert ClientOk(s, s.clients[t]);
    MarkEffect(s, s', t);
    MarkTable(s, s', t);
    MarkClient(s, s', t);
    ClientsStep(s, s', t);
    MarkLocks(s, s', t);
    ExclusiveStable(s, s', t);
    MarkWait(s, s', t);
    MarkNodes(s, s', t);
    NotGrowing(s, t);
    SameGrowth(s, s', t);
  }

  lemma {:induction false} FinishInv(s: State, s': State, t: nat)
    requires t < |s.clients| && Finishes(s, s', t, s.clients[t]) && Inv(s)
    ensures Inv(s')
  {
    assert ClientOk(s, s.clients[t]);
    FinishEffect(s, s', t);
    FinishTable(s, s', t);
    FinishPlaced(s, s', t);
    FinishClient(s, s', t);
    ClientsStep(s, s', t);
    FinishLocks(s, s', t);
    ExclusiveStable(s, s', t);
    WaitKept(s, s', t);
    FinishNodes(s, s', t);
    NotGrowing(s, t);
    SameGrowth(s, s', t);
  }

  lemma {:induction false} MoveInv(s: State, s': State, t: nat)
    requires t < |s.clients| && Moves(s, s', t, s.clients[t]) && Inv(s)
    ensures Inv(s')
  {
    assert ClientOk(s, s.clients[t]);
    MoveEffect(s, s', t);
    MoveTable(s, s', t);
    MoveClient(s, s', t);
    ClientsStep(s, s', t);
    MoveRest(s, s', t);
    ExclusiveStable(s, s', t);
    MoveNodes(s, s', t);
  }

  lemma {:induction false} MoveRest(s: State, s': State, t: nat)
    requires t < |s.clients| && Moves(s, s', t, s.clients[t]) && Effect(s, s', t)
    requires ClientsOk(s) && Exclusive(s) && WaitOk(s) && GrowthOk(s)
    ensures LockRule(s, t, s'.clients[t]) && WaitOk(s') && GrowthOk(s')
  {
    assert ClientOk(s, s.clients[t]);
    MoveIsShape(s, s', t);
    ReleaseLocks(s, t, s'.clients[t]);
    WaitKept(s, s', t);
    NotGrowing(s, t);
    SameGrowth(s, s', t);
  }

  lemma {:induction false} InsertInv(s: State, s': State, t: nat, n: NodeId)
    requires t < |s.clients| && Inserts(s, s', t, s.clients[t], n) && Inv(s)
    ensures Inv(s')
  {
    assert ClientOk(s, s.clients[t]);
    InsertEffect(s, s', t, n);
    InsertTable(s, s', t, n);
    InsertClient(s, s', t, n);
    ClientsStep(s, s', t);
    ReleaseLocks(s, t, s'.clients[t]);
    ExclusiveStable(s, s', t);
    InsertFacts(s, s', t, n);
    WaitKept(s, s', t);
    InsertNodes(s, s', t, n);
    InsertGrowth(s, s', t, n);
  }

  lemma {:induction false} UnlinkInv(s: State, s': State, t: nat, p: nat)
    requires t < |s.clients| && Unlinks(s, s', t, s.clients[t], p) && Inv(s)
    ensures Inv(s')
  {
    assert ClientOk(s, s.clients[t]);
    UnlinkEffect(s, s', t, p);
    UnlinkTable(s, s', t, p);
    UnlinkClient(s, s', t, p);
    ClientsStep(s, s', t);
    ReleaseLocks(s, t, s'.clients[t]);
    ExclusiveStable(s, s', t);
    UnlinkFacts(s, s', t, p);
    WaitKept(s, s', t);
    UnlinkNodes(s, s', t, p);
    NotGrowing(s, t);
    SameGrowth(s, s', t);
  }

  lemma {:induction false} DeleteInv(s: State, s': State, t: nat)
    requires t < |s.clients| && Deletes(s, s', t, s.clients[t]) && Inv(s)
    ensures Inv(s')
  {
    assert ClientOk(s, s.clients[t]);
    QuietStep(s, s', t);
    RestAgain(s, s', t);
    DeleteNodes(s, s', t);
    NotGrowing(s, t);
    SameGrowth(s, s', t);
  }

  /** A step between two resting points, with the rehash flags unchanged, disturbs no client. */
  lemma {:induction false} RestAgain(s: State, s': State, t: nat)
    requires t < |s.clients| && Effect(s, s', t) && ClientsOk(s) && Exclusive(s) && WaitOk(s) && Placed(s)
    requires forall b :: 0 <= b < |s.slots| ==> s'.slots[b].req == s.slots[b].req
    requires s.clients[t].pc.Delete? || s.clients[t].pc.Alloc? || s.clients[t].pc.Publish?
    requires s'.clients[t].pc.Idle? || s'.clients[t].pc.Publish?
    requires s'.clients[t] == s.clients[t].(pc := s'.clients[t].pc, grow := s'.clients[t].grow)
    ensures ClientsOk(s') && Exclusive(s') && WaitOk(s')
  {
    assert ClientOk(s, s.clients[t]);
    RestingClient(s', s'.clients[t]);
    ClientsStep(s, s', t);
    ReleaseLocks(s, t, s'.clients[t]);
    ExclusiveStable(s, s', t);
    WaitKept(s, s', t);
  }

  lemma {:induction false} AllocInv(s: State, s': State, t: nat)
    requires t < |s.clients| && Allocates(s, s', t, s.clients[t]) && Inv(s)
    ensures Inv(s')
  {
    assert ClientOk(s, s.clients[t]);
    AllocGrowth(s, s', t);
    AllocEffect(s, s', t);
    AllocTable(s, s', t);
    forall b | 0 <= b < |s.slots| ensures s'.slots[b] == s.slots[b] {}
    RestAgain(s, s', t);
    AllocNodes(s, s', t);
  }

  lemma {:induction false} PublishInv(s: State, s': State, t: nat)
    requires t < |s.clients| && Publishes(s, s', t, s.clients[t]) && Inv(s)
    ensures Inv(s')
  {
    assert ClientOk(s, s.clients[t]);
    PublishGrowth(s, s', t);
    QuietStep(s, s', t);
    Pow2Mono(s.level, s'.level);
    RestAgain(s, s', t);
    PublishNodes(s, s', t);
  }

  /** Every step of every client keeps the invariant. */
  lemma {:induction false} StepInv(s: State, s': State, t: nat, a: Step)
    requires t < |s.clients| && Does(s, s', t, a) && Inv(s)
    ensures Inv(s')
  {
    match a
    case Share(h) =>
      match h {
        case Mark => MarkInv(s, s', t);
        case ScanDone => FinishInv(s, s', t);
        case ScanMove => MoveInv(s, s', t);
        case InsertNode(n) => InsertInv(s, s', t, n);
        case UnlinkNode(p) => UnlinkInv(s, s', t, p);
        case DeleteNode => DeleteInv(s, s', t);
        case AllocSegment => AllocInv(s, s', t);
        case PublishMask => PublishInv(s, s', t);
      }
    case _ => LocalInv(s, s', t, a);
  }

  /** Every state of every run satisfies the invariant. */
  lemma {:induction false} RunInv(tr: seq<State>, i: nat)
    requires Run(tr) && i < |tr|
    ensures Inv(tr[i])
  {
    if i == 0 {
      InitInv(tr[0]);
    } else {
      RunInv(tr, i - 1);
      assert Next(tr[i - 1], tr[i - 1 + 1]);
      var t: nat, a: Step :| t < |tr[i - 1].clients| && Does(tr[i - 1], tr[i], t, a);
      StepInv(tr[i - 1], tr[i], t, a);
    }
  }
}
