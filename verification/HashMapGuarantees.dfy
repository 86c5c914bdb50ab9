/** What a user of the concurrent table can rely on, over every run. */
module HashMapGuarantees {
  import opened BucketTree
  import opened HashMapProtocol
  import opened HashMapInvariant
  import opened HashMapLocalSteps
  import opened HashMapRehash
  import opened HashMapTable
  import opened HashMapSharedNodes
  import opened HashMapSafety
  import opened HashMapContents

  // ----- answers

  /** The step at which an operation concludes that its key (or, for exclude, its node) is
      not in the table: check_mask_race has just reported no race. */
  predicate Concludes(a: Step) { a.Work? && (a.w.MaskSame? || a.w.ChildReq?) }

  /** The state is reached by some run. */
  ghost predicate Reachable(s: State) {
    exists tr :: Run(tr) && tr[|tr| - 1] == s
  }

  lemma {:induction false} ReachableInv(s: State)
    requires Reachable(s)
    ensures Inv(s)
  {
    var tr :| Run(tr) && tr[|tr| - 1] == s;
    RunInv(tr, |tr| - 1);
  }

  /** What an operation looks for: a node with its key or, for exclude, its own node. */
  predicate Sought(s: State, c: Client, n: NodeId) {
    if c.op.Exclude? then HasAcc(c, n) else KeyOf(s, n) == c.op.key
  }

  /** A negative answer is true: when find, insert or erase concludes that its key is absent,
      no bucket holds a node with that key, and every living node with that key was already
      unlinked and is owned by the client that is going to delete it; when exclude concludes
      that somebody else was first, the same holds of its node. */
  lemma {:induction false} AbsentIsTrue(s: State, s': State, t: nat, a: Step)
    requires Reachable(s) && t < |s.clients| && Does(s, s', t, a) && Concludes(a)
    requires |s'.clients| == |s.clients| && (s'.clients[t].pc.Absent? || s'.clients[t].pc.Ready?)
    ensures forall n :: Sought(s', s.clients[t], n) ==> !InTable(s', n)
    ensures forall n :: n in s'.alive && Sought(s', s.clients[t], n) ==> Owned(s', n)
  {
    ReachableInv(s);
    ReachableLiving(s);
    ConclusionHolds(s, t, a.w);
    LivingStep(s, s', t, a);
    forall n | Sought(s', s.clients[t], n) ensures !InTable(s', n) {
      assert forall b :: 0 <= b < |s'.slots| ==> n !in s'.slots[b].list;
    }
  }

  lemma {:induction false} ReachableLiving(s: State)
    requires Reachable(s)
    ensures Living(s)
  {
    var tr :| Run(tr) && tr[|tr| - 1] == s;
    RunLiving(tr, |tr| - 1);
  }

  lemma {:induction false} ConclusionHolds(s: State, t: nat, w: WorkAction)
    requires t < |s.clients| && CanWork(s, t, s.clients[t], w) && (w.MaskSame? || w.ChildReq?)
    requires s.clients[t].pc.Check? || s.clients[t].pc.Check2?
    requires TableOk(s) && ClientsOk(s) && Exclusive(s) && Placed(s) && ParentsOk(s)
    ensures var c := s.clients[t];
            forall b, x :: 0 <= b < |s.slots| && x in s.slots[b].list ==>
              if c.op.Exclude? then c.acc.Acc? && x != c.acc.node else KeyOf(s, x) != c.op.key
  {
    var c := s.clients[t];
    assert ClientOk(s, c);
    PassIsDeepest(s, c, w);
    if c.op.Exclude? {
      forall b, x | 0 <= b < |s.slots| && x in s.slots[b].list ensures x != c.acc.node {
        if x == c.acc.node {
          assert x in ListOf(s, b);
          Home(s, t, x, b);
        }
      }
    } else {
      NowhereElse(s, t);
    }
  }

  /** No two nodes of the table ever have equal keys. */
  lemma {:induction false} KeysAreUnique(s: State, b: nat, p: nat, d: nat, q: nat)
    requires Reachable(s) && b < |s.slots| && p < |s.slots[b].list| && d < |s.slots| && q < |s.slots[d].list|
    ensures KeyOf(s, s.slots[b].list[p]) == KeyOf(s, s.slots[d].list[q]) <==> b == d && p == q
  {
    ReachableInv(s);
    var x, y := s.slots[b].list[p], s.slots[d].list[q];
    assert x in s.slots[b].list && y in s.slots[d].list;
    assert DistinctKeys(s, s.slots[b].list);
    assert b != d ==> DisjointKeys(s, s.slots[b].list, s.slots[d].list);
  }

  // ----- node lifetime

  predicate Touches(c: Client, n: NodeId) {
    HasAcc(c, n) || (c.node == n && (c.pc.ItemTry? || c.pc.UpgErase? || c.pc.Unlink? || Owner(c)))
  }

  /** When a node is deleted it is alive, in no bucket, and nobody but its deleter holds,
      is acquiring, or is about to use it. */
  lemma {:induction false} DeletionIsSafe(s: State, s': State, t: nat)
    requires Reachable(s) && t < |s.clients| && Does(s, s', t, Share(DeleteNode))
    ensures var n := s.clients[t].node;
            && n in s.alive && n !in s'.alive && !InTable(s, n) && !HasAcc(s.clients[t], n)
            && forall u :: 0 <= u < |s.clients| && u != t ==> !Touches(s.clients[u], n)
  {
    ReachableInv(s);
    UntouchedAtDelete(s, t);
  }

  lemma {:induction false} UntouchedAtDelete(s: State, t: nat)
    requires t < |s.clients| && s.clients[t].pc.Delete? && NodesOk(s) && ClientsOk(s)
    ensures var n := s.clients[t].node;
            && n in s.alive && !InTable(s, n) && !HasAcc(s.clients[t], n)
            && forall u :: 0 <= u < |s.clients| && u != t ==> !Touches(s.clients[u], n)
  {
    var n := s.clients[t].node;
    assert OwnerOk(s, t);
    forall u | 0 <= u < |s.clients| && u != t ensures !Touches(s.clients[u], n) {
      var c := s.clients[u];
      assert ItemsApart(s.clients[t], c);
      assert ClientOk(s, c);
      if c.pc.ItemTry? || c.pc.UpgErase? || c.pc.Unlink? {
        assert c.node in s.slots[c.tgt].list;
        assert InTable(s, c.node);
      }
    }
  }

  /** An accessor always refers to a living node. */
  lemma {:induction false} AccessorsAreAlive(s: State, t: nat)
    requires Reachable(s) && t < |s.clients| && s.clients[t].acc.Acc?
    ensures s.clients[t].acc.node in s.alive
  {
    ReachableInv(s);
  }

  /** A prefix of a run shows its states reachable. */
  lemma {:induction false} RunReaches(tr: seq<State>, i: nat)
    requires Run(tr) && i < |tr|
    ensures Reachable(tr[i])
  {
    var pre := tr[..i + 1];
    forall k | 0 <= k < |pre| - 1 ensures Next(pre[k], pre[k + 1]) { assert Next(tr[k], tr[k + 1]); }
    assert Run(pre) && pre[|pre| - 1] == tr[i];
  }

  lemma {:induction false} DeadStep(s: State, s': State, n: NodeId)
    requires Next(s, s') && n in s.key && n !in s.alive
    ensures n in s'.key && n !in s'.alive
  {
    var t: nat, a: Step :| t < |s.clients| && Does(s, s', t, a);
  }

  lemma {:induction false} DeadForever(tr: seq<State>, i: nat, j: nat, n: NodeId)
    requires Run(tr) && i <= j < |tr| && n in tr[i].key && n !in tr[i].alive
    ensures n in tr[j].key && n !in tr[j].alive
    decreases j - i
  {
    if i < j {
      DeadStep(tr[i], tr[i + 1], n);
      DeadForever(tr, i + 1, j, n);
    }
  }

  /** No node is deleted twice. */
  lemma {:induction false} DeletedOnce(tr: seq<State>, i: nat, j: nat, t: nat, u: nat)
    requires Run(tr) && i < j && j + 1 < |tr| && t < |tr[i].clients| && u < |tr[j].clients|
    requires Does(tr[i], tr[i + 1], t, Share(DeleteNode)) && Does(tr[j], tr[j + 1], u, Share(DeleteNode))
    ensures tr[i].clients[t].node != tr[j].clients[u].node
  {
    var n := tr[i].clients[t].node;
    RunReaches(tr, i);
    RunReaches(tr, j);
    DeletionIsSafe(tr[i], tr[i + 1], t);
    DeletionIsSafe(tr[j], tr[j + 1], u);
    KnownNode(tr[i], n);
    DeadForever(tr, i + 1, j, n);
  }

  lemma {:induction false} KnownNode(s: State, n: NodeId)
    requires Reachable(s) && n in s.alive
    ensures n in s.key
  {
    ReachableInv(s);
  }

  predicate Owns(s: State, t: nat, n: NodeId) {
    n in s.key && (n in s.alive ==> t < |s.clients| && Owner(s.clients[t]) && s.clients[t].node == n)
  }

  lemma {:induction false} OwnsStep(s: State, s': State, t: nat, n: NodeId)
    requires Next(s, s') && Owns(s, t, n)
    ensures Owns(s', t, n)
  {
    var u: nat, a: Step :| u < |s.clients| && Does(s, s', u, a);
    if n !in s.alive {
      DeadStep(s, s', n);
    } else if u == t {
      OwnerStays(s, s', t, a);
    } else {
      ClientsElse(s, s', u, a);
    }
  }

  lemma {:induction false} OwnsForever(tr: seq<State>, i: nat, j: nat, t: nat, n: NodeId)
    requires Run(tr) && i <= j < |tr| && Owns(tr[i], t, n)
    ensures Owns(tr[j], t, n)
    decreases j - i
  {
    if i < j {
      OwnsStep(tr[i], tr[i + 1], t, n);
      OwnsForever(tr, i + 1, j, t, n);
    }
  }

  lemma {:induction false} UnlinkOwns(s: State, s': State, t: nat, p: nat)
    requires Reachable(s) && t < |s.clients| && Does(s, s', t, Share(UnlinkNode(p)))
    ensures Owns(s', t, s.clients[t].node)
  {
    ReachableInv(s);
    var c := s.clients[t];
    assert ClientOk(s, c);
    assert c.node in s.slots[c.tgt].list;
  }

  /** A node is deleted by the client that unlinked it, be it through erase or exclude. */
  lemma {:induction false} UnlinkerDeletes(tr: seq<State>, i: nat, j: nat, t: nat, u: nat, p: nat)
    requires Run(tr) && i < j && j + 1 < |tr| && t < |tr[i].clients| && u < |tr[j].clients|
    requires Does(tr[i], tr[i + 1], t, Share(UnlinkNode(p))) && Does(tr[j], tr[j + 1], u, Share(DeleteNode))
    requires tr[i].clients[t].node == tr[j].clients[u].node
    ensures t == u
  {
    var n := tr[i].clients[t].node;
    RunReaches(tr, i);
    RunReaches(tr, j);
    UnlinkOwns(tr[i], tr[i + 1], t, p);
    OwnsForever(tr, i + 1, j, t, n);
    DeletionIsSafe(tr[j], tr[j + 1], u);
    assert Touches(tr[j].clients[t], n);
  }

  /** Step `k` of the run is the deletion of `n` by client `u`. */
  ghost predicate Deleting(tr: seq<State>, k: int, u: int, n: NodeId) {
    && 0 <= k < |tr| - 1 && 0 <= u < |tr[k].clients|
    && Does(tr[k], tr[k + 1], u, Share(DeleteNode)) && tr[k].clients[u].node == n
  }

  /** A node that dies is deleted by a client that holds it for deletion. */
  lemma {:induction false} DeathIsDelete(tr: seq<State>, k: nat, n: NodeId) returns (u: nat)
    requires Run(tr) && k + 1 < |tr| && n in tr[k].alive && n !in tr[k + 1].alive
    ensures Deleting(tr, k, u, n)
  {
    assert Next(tr[k], tr[k + 1]);
    var a: Step;
    u, a :| u < |tr[k].clients| && Does(tr[k], tr[k + 1], u, a);
    assert a == Share(DeleteNode);
  }

  lemma {:induction false} DiesBetween(tr: seq<State>, i: nat, j: nat, n: NodeId) returns (k: nat)
    requires i <= j < |tr| && n in tr[i].alive && n !in tr[j].alive
    ensures i <= k < j && n in tr[k].alive && n !in tr[k + 1].alive
    decreases j
  {
    k := j - 1;
    if n !in tr[k].alive { k := DiesBetween(tr, i, k, n); }
  }

  /** A node is deleted exactly once: once the client that unlinked it has gone on, the node is
      dead, that client has deleted it at one step `k` in between, and no other step of the run
      deletes it. */
  lemma {:induction false} DeletedExactlyOnce(tr: seq<State>, i: nat, j: nat, t: nat, p: nat) returns (k: nat)
    requires Run(tr) && i < j < |tr| && t < |tr[i].clients| && Does(tr[i], tr[i + 1], t, Share(UnlinkNode(p)))
    requires t < |tr[j].clients| && !(Owner(tr[j].clients[t]) && tr[j].clients[t].node == tr[i].clients[t].node)
    ensures tr[i].clients[t].node !in tr[j].alive
    ensures i < k < j && Deleting(tr, k, t, tr[i].clients[t].node)
    ensures forall m, u :: Deleting(tr, m, u, tr[i].clients[t].node) ==> m == k && u == t
  {
    var n := tr[i].clients[t].node;
    RunReaches(tr, i);
    UnlinkOwns(tr[i], tr[i + 1], t, p);
    OwnsForever(tr, i + 1, j, t, n);
    UnlinkedAlive(tr[i], tr[i + 1], t, p);
    k := DiesBetween(tr, i + 1, j, n);
    var u := DeathIsDelete(tr, k, n);
    UnlinkerDeletes(tr, i, k, t, u, p);
    forall m, v | Deleting(tr, m, v, n) ensures m == k && v == t {
      if m < k { DeletedOnce(tr, m, k, v, t); }
      if k < m { DeletedOnce(tr, k, m, t, v); }
      assert m == k;
      UnlinkerDeletes(tr, i, k, t, v, p);
    }
  }

  lemma {:induction false} UnlinkedAlive(s: State, s': State, t: nat, p: nat)
    requires Reachable(s) && t < |s.clients| && Does(s, s', t, Share(UnlinkNode(p)))
    ensures s.clients[t].node in s'.alive
  {
    ReachableInv(s);
    var c := s.clients[t];
    assert ClientOk(s, c);
    assert c.node in s.slots[c.tgt].list;
  }

  // ----- growth

  lemma {:induction false} ReachableGrowth(s: State)
    requires Reachable(s)
    ensures GrowthOk(s) && |s.slots| == Pow2(s.alloc)
  {
    ReachableInv(s);
  }

  lemma {:induction false} AllocGrows(tr: seq<State>, i: nat, j: nat)
    requires Run(tr) && i <= j < |tr|
    ensures tr[i].alloc <= tr[j].alloc && tr[i].level <= tr[j].level
  {
    if i < j {
      AllocGrows(tr, i, j - 1);
      RunReaches(tr, j - 1);
      assert Next(tr[j - 1], tr[j - 1 + 1]);
      LevelStep(tr[j - 1], tr[j]);
    }
  }

  lemma {:induction false} LevelStep(s: State, s': State)
    requires Reachable(s) && Next(s, s')
    ensures s.alloc <= s'.alloc && s.level <= s'.level
  {
    var t: nat, a: Step :| t < |s.clients| && Does(s, s', t, a);
    ReachableGrowth(s);
    if a.Share? { SharedLevel(s, s', t, a.h); }
  }

  lemma {:induction false} SharedLevel(s: State, s': State, t: nat, h: ShareAction)
    requires t < |s.clients| && Shares(s, s', t, s.clients[t], h) && GrowthOk(s)
    ensures s.alloc <= s'.alloc && s.level <= s'.level
  {
    match h
    case AllocSegment => AllocGrowth(s, s', t);
    case PublishMask => PublishGrowth(s, s', t);
    case _ =>
  }

  lemma {:induction false} EnablesNext(s: State, s': State, t: nat)
    requires Reachable(s) && t < |s.clients| && Does(s, s', t, Share(AllocSegment))
    ensures s.clients[t].grow == s.alloc < s'.alloc
  {
    ReachableGrowth(s);
    assert GrowerOk(s, s.clients[t]);
    AllocGrowth(s, s', t);
  }

  /** Each segment is enabled once: two enabling steps are for different segments, the
      later one for a higher segment. */
  lemma {:induction false} EnabledOnce(tr: seq<State>, i: nat, j: nat, t: nat, u: nat)
    requires Run(tr) && i < j && j + 1 < |tr| && t < |tr[i].clients| && u < |tr[j].clients|
    requires Does(tr[i], tr[i + 1], t, Share(AllocSegment)) && Does(tr[j], tr[j + 1], u, Share(AllocSegment))
    ensures tr[i].clients[t].grow < tr[j].clients[u].grow
  {
    RunReaches(tr, i);
    RunReaches(tr, j);
    EnablesNext(tr[i], tr[i + 1], t);
    EnablesNext(tr[j], tr[j + 1], u);
    AllocGrows(tr, i + 1, j);
  }

  /** A published mask covers exactly the buckets of the segments enabled so far, and
      publishing one strictly raises it. */
  lemma {:induction false} MasksIncrease(s: State, s': State, t: nat)
    requires Reachable(s) && t < |s.clients| && Does(s, s', t, Share(PublishMask))
    ensures s.level < s'.level && |s'.slots| == Pow2(s'.level) && s'.segs == Segments(s'.level)
  {
    ReachableGrowth(s);
    PublishGrowth(s, s', t);
    assert GrowerOk(s, s.clients[t]);
  }

  // ----- deadlock

  /** The client can do nothing but wait for the lock of bucket `b`. */
  predicate Awaits(c: Client, b: nat) {
    c.tgt == b && (c.pc.Wait? || c.pc.ScanUpg? || c.pc.UpgWait? || c.pc.UpgEraseWait?)
  }

  /** Bucket locks are awaited in decreasing order of index. */
  lemma {:induction false} AwaitsBelow(s: State, t: nat, b: nat, e: nat)
    requires Reachable(s) && t < |s.clients| && Awaits(s.clients[t], b) && Holds(s.clients[t], e)
    ensures b < e
  {
    ReachableInv(s);
    AwaitsBelowHeld(s, t, b, e);
  }

  lemma {:induction false} AwaitsBelowHeld(s: State, t: nat, b: nat, e: nat)
    requires t < |s.clients| && ClientsOk(s) && Awaits(s.clients[t], b) && Holds(s.clients[t], e)
    ensures b < e
  {
    var c := s.clients[t];
    assert ClientOk(s, c);
    var j :| 0 <= j < |c.chain| && c.chain[j] == e;
    ChainAbove(s, c, j);
  }

  /** `ts[k]` awaits bucket `bs[k]`, which `ts[k + 1]` holds. */
  predicate WaitPath(s: State, ts: seq<nat>, bs: seq<nat>) {
    && |ts| == |bs| + 1
    && (forall k :: 0 <= k < |ts| ==> ts[k] < |s.clients|)
    && (forall k :: 0 <= k < |bs| ==> Awaits(s.clients[ts[k]], bs[k]) && Holds(s.clients[ts[k + 1]], bs[k]))
  }

  lemma {:induction false} WaitPathDescends(s: State, ts: seq<nat>, bs: seq<nat>, k: nat)
    requires ClientsOk(s) && WaitPath(s, ts, bs) && k < |bs|
    ensures bs[k] <= bs[0]
  {
    if k > 0 {
      WaitPathDescends(s, ts, bs, k - 1);
      WaitLink(s, ts, bs, k);
    }
  }

  lemma {:induction false} WaitLink(s: State, ts: seq<nat>, bs: seq<nat>, k: nat)
    requires ClientsOk(s) && WaitPath(s, ts, bs) && 0 < k < |bs|
    ensures bs[k] < bs[k - 1]
  {
    assert Holds(s.clients[ts[k - 1 + 1]], bs[k - 1]);
    AwaitsBelowHeld(s, ts[k], bs[k], bs[k - 1]);
  }

  /** No run reaches a cycle of clients waiting for each other's bucket locks. */
  lemma {:induction false} NoDeadlock(s: State, ts: seq<nat>, bs: seq<nat>)
    requires Reachable(s) && |bs| > 0 && WaitPath(s, ts, bs)
    ensures ts[0] != ts[|bs|]
  {
    ReachableInv(s);
    var k := |bs| - 1;
    if ts[0] == ts[|bs|] {
      WaitPathDescends(s, ts, bs, k);
      assert Holds(s.clients[ts[k + 1]], bs[k]);
      AwaitsBelowHeld(s, ts[0], bs[0], bs[k]);
    }
  }
}
