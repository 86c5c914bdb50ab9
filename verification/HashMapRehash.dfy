/** Lazy rehashing: marking a bucket, moving nodes into it from its parent, finishing it. */
module HashMapRehash {
  import opened BucketTree
  import opened HashMapProtocol
  import opened HashMapInvariant
  import opened HashMapStability
  import opened HashMapLocalSteps

  /** Marked buckets get smaller towards the bucket being acquired. */
  lemma {:induction false} ChainAbove(s: State, c: Client, i: nat)
    requires ChainOk(s, c) && i < |c.chain|
    ensures c.tgt < c.chain[i] <= c.chain[0]
    ensures forall j :: i < j < |c.chain| ==> c.chain[j] < c.chain[i]
    decreases |c.chain| - i
  {
    if i < |c.chain| - 1 {
      ChainAbove(s, c, i + 1);
    }
    ChainTop(s, c, i);
  }

  lemma {:induction false} ChainTop(s: State, c: Client, i: nat)
    requires ChainOk(s, c) && i < |c.chain|
    ensures c.chain[i] <= c.chain[0]
  {
    if i > 0 {
      ChainTop(s, c, i - 1);
      assert c.chain[i - 1 + 1] == Parent(c.chain[i - 1]);
    }
  }

  lemma {:induction false} TargetBounded(s: State, c: Client)
    requires ChainOk(s, c) && PathOk(s, c) && Acquiring(c)
    ensures c.tgt < Pow2(s.level)
  {
    if c.chain != [] { ChainAbove(s, c, 0); }
    Pow2Mono(c.m, s.level);
  }

  // ----- marking

  lemma {:induction false} MarkSettled(s: State, s': State, t: nat, b: nat)
    requires t < |s.clients| && Marks(s, s', t, s.clients[t])
    ensures Settled(s', b) == Settled(s, b)
  {
    var c, c' := s.clients[t], s'.clients[t];
    assert c'.chain == c.chain + [c.tgt];
    if b == c.tgt {
      assert b in c'.chain;
      assert InChain(s', b);
    } else {
      if InChain(s', b) {
        var u :| 0 <= u < |s'.clients| && b in s'.clients[u].chain;
        assert b in s.clients[u].chain;
      }
      if InChain(s, b) {
        var u :| 0 <= u < |s.clients| && b in s.clients[u].chain;
        assert b in s'.clients[u].chain;
      }
    }
  }

  lemma {:induction false} MarkTable(s: State, s': State, t: nat)
    requires t < |s.clients| && Marks(s, s', t, s.clients[t]) && ClientOk(s, s.clients[t])
    requires TableOk(s) && ParentsOk(s) && Placed(s) && Unique(s)
    ensures TableOk(s') && ParentsOk(s') && Placed(s') && Unique(s')
  {
    TargetBounded(s, s.clients[t]);
    forall b ensures Settled(s', b) == Settled(s, b) { MarkSettled(s, s', t, b); }
    SameTable(s, s');
  }

  /** If only rehash flags changed and the settled buckets are the same, placement and
      uniqueness carry over. */
  lemma {:induction false} SameTable(s: State, s': State)
    requires |s'.slots| == |s.slots| && s'.key == s.key && s'.hash == s.hash
    requires forall b :: 0 <= b < |s.slots| ==> s'.slots[b].list == s.slots[b].list
    requires forall b :: Settled(s', b) == Settled(s, b)
    requires ParentsOk(s) && Placed(s) && Unique(s)
    ensures ParentsOk(s') && Placed(s') && Unique(s')
  {
    forall b, n | 0 <= b < |s'.slots| && n in s'.slots[b].list ensures PlacedAt(s', n, b) {
      assert n in s.slots[b].list;
      assert PlacedAt(s, n, b);
    }
    forall b | 0 <= b < |s'.slots| ensures DistinctKeys(s', s'.slots[b].list) {
      assert DistinctKeys(s, s.slots[b].list);
    }
    forall b, d | 0 <= b < |s'.slots| && 0 <= d < |s'.slots| && b != d
      ensures DisjointKeys(s', s'.slots[b].list, s'.slots[d].list)
    {
      assert DisjointKeys(s, s.slots[b].list, s.slots[d].list);
    }
  }

  lemma {:induction false} MarkEffect(s: State, s': State, t: nat)
    requires t < |s.clients| && Marks(s, s', t, s.clients[t]) && LockOk(s, s.clients[t])
    ensures Effect(s, s', t)
  {
    forall b | 0 <= b < |s'.slots| ensures Settled(s', b) == Settled(s, b) { MarkSettled(s, s', t, b); }
  }

  lemma {:induction false} MarkClient(s: State, s': State, t: nat)
    requires t < |s.clients| && Marks(s, s', t, s.clients[t]) && ClientOk(s, s.clients[t]) && TableOk(s)
    ensures ClientOk(s', s'.clients[t])
  {
    var c, c' := s.clients[t], s'.clients[t];
    assert c'.chain == c.chain + [c.tgt];
    assert c'.chain[|c'.chain| - 1] == c.tgt;
    forall j | 0 <= j < |c'.chain| - 1 ensures c'.chain[j + 1] == Parent(c'.chain[j]) {}
    assert ChainOk(s', c');
    assert LockOk(s', c');
    forall j | 0 <= j < |c'.chain| ensures ListOf(s', c'.chain[j]) == [] {
      if c'.chain[j] != c.tgt { assert j < |c.chain| && c.chain[j] == c'.chain[j]; }
    }
    QuietPath(s', c');
  }

  lemma {:induction false} MarkLocks(s: State, s': State, t: nat)
    requires t < |s.clients| && Marks(s, s', t, s.clients[t]) && LockOk(s, s.clients[t]) && Exclusive(s)
    ensures LockRule(s, t, s'.clients[t])
  {
    var c, c' := s.clients[t], s'.clients[t];
    forall b ensures (HoldsW(c', b) ==> HoldsW(c, b)) && (Holds(c', b) ==> Holds(c, b)) {}
    forall u | 0 <= u < |s.clients| && u != t
      ensures Apart(c', s.clients[u]) && Apart(s.clients[u], c')
    {
      assert Apart(c, s.clients[u]) && Apart(s.clients[u], c);
    }
  }

  lemma {:induction false} MarkWait(s: State, s': State, t: nat)
    requires t < |s.clients| && Marks(s, s', t, s.clients[t]) && WaitOk(s)
    ensures WaitOk(s')
  {
    forall v | 0 <= v < |s'.clients| && s'.clients[v].pc.Wait? && IsReq(s', s'.clients[v].tgt)
      ensures exists u :: 0 <= u < |s'.clients| && s'.clients[u].pc.Recheck? && s'.clients[u].tgt == s'.clients[v].tgt
    {
      assert v != t;
      assert IsReq(s, s.clients[v].tgt);
      var u :| 0 <= u < |s.clients| && s.clients[u].pc.Recheck? && s.clients[u].tgt == s.clients[v].tgt;
      assert u != t;
      assert s'.clients[u] == s.clients[u];
    }
  }

  // ----- finishing

  lemma {:induction false} FinishSettled(s: State, s': State, t: nat, b: nat)
    requires t < |s.clients| && Finishes(s, s', t, s.clients[t]) && ClientOk(s, s.clients[t]) && Exclusive(s)
    ensures Settled(s', b) == (Settled(s, b) || b == s.clients[t].chain[|s.clients[t].chain| - 1])
  {
    var c, c' := s.clients[t], s'.clients[t];
    var k := |c.chain| - 1;
    var d := c.chain[k];
    assert c'.chain == c.chain[..k];
    if InChain(s', b) {
      var u :| 0 <= u < |s'.clients| && b in s'.clients[u].chain;
      assert b in s.clients[u].chain;
      if b == d {
        if u == t {
          var j :| 0 <= j < k && c.chain[j] == d;
          ChainAbove(s, c, j);
        } else {
          assert Apart(c, s.clients[u]) && HoldsW(c, d);
        }
      }
    }
    if InChain(s, b) && b != d {
      var u :| 0 <= u < |s.clients| && b in s.clients[u].chain;
      if u == t {
        var j :| 0 <= j < |c.chain| && c.chain[j] == b;
        assert c'.chain[j] == b;
      }
      assert b in s'.clients[u].chain;
    }
  }

  /** The parent held during the scan is itself settled. */
  lemma {:induction false} ScanParentSettled(s: State, t: nat)
    requires t < |s.clients| && ClientOk(s, s.clients[t]) && Exclusive(s) && s.clients[t].pc.Scan?
    ensures Settled(s, s.clients[t].tgt)
  {
    var c := s.clients[t];
    if InChain(s, c.tgt) {
      var u :| 0 <= u < |s.clients| && c.tgt in s.clients[u].chain;
      if u == t {
        var j :| 0 <= j < |c.chain| && c.chain[j] == c.tgt;
        ChainAbove(s, c, j);
      } else {
        assert Apart(s.clients[u], c) && HoldsW(s.clients[u], c.tgt);
      }
    }
  }

  lemma {:induction false} FinishTable(s: State, s': State, t: nat)
    requires t < |s.clients| && Finishes(s, s', t, s.clients[t]) && ClientOk(s, s.clients[t])
    requires TableOk(s) && ParentsOk(s) && Placed(s) && Unique(s) && Exclusive(s)
    ensures TableOk(s') && ParentsOk(s') && Unique(s')
  {
    var c := s.clients[t];
    ScanParentSettled(s, t);
    forall b ensures Settled(s', b) == (Settled(s, b) || b == c.chain[|c.chain| - 1]) { FinishSettled(s, s', t, b); }
    forall b | 0 <= b < |s'.slots| ensures DistinctKeys(s', s'.slots[b].list) {
      assert DistinctKeys(s, s.slots[b].list);
    }
    forall b, d | 0 <= b < |s'.slots| && 0 <= d < |s'.slots| && b != d
      ensures DisjointKeys(s', s'.slots[b].list, s'.slots[d].list)
    {
      assert DisjointKeys(s, s.slots[b].list, s.slots[d].list);
    }
  }

  /** The scan left nothing behind: no node elsewhere belongs to the finished bucket. */
  lemma {:induction false} FinishPlaced(s: State, s': State, t: nat)
    requires t < |s.clients| && Finishes(s, s', t, s.clients[t]) && ClientOk(s, s.clients[t])
    requires Placed(s) && Exclusive(s)
    ensures Placed(s')
  {
    forall b, n | 0 <= b < |s'.slots| && n in s'.slots[b].list ensures PlacedAt(s', n, b) {
      FinishPlacedAt(s, s', t, n, b);
    }
  }

  lemma {:induction false} FinishPlacedAt(s: State, s': State, t: nat, n: NodeId, b: nat)
    requires t < |s.clients| && Finishes(s, s', t, s.clients[t]) && ClientOk(s, s.clients[t])
    requires Placed(s) && Exclusive(s) && b < |s.slots| && n in s.slots[b].list
    ensures PlacedAt(s', n, b)
  {
    var c := s.clients[t];
    var d := c.chain[|c.chain| - 1];
    var h := HashOf(s, n);
    assert PlacedAt(s, n, b);
    forall e | b < e < |s'.slots| && OnPath(e, h) ensures !Settled(s', e) {
      FinishSettled(s, s', t, e);
      if e == d {
        NotLeftBehind(s, t, n, b);
      }
    }
  }

  lemma {:induction false} NotLeftBehind(s: State, t: nat, n: NodeId, b: nat)
    requires t < |s.clients| && ClientOk(s, s.clients[t]) && Exclusive(s)
    requires b < |s.slots| && n in s.slots[b].list && PlacedAt(s, n, b)
    requires var c := s.clients[t]; c.pc.Scan? && c.chain != [] && c.pos == |ListOf(s, c.tgt)|
    ensures var c := s.clients[t]; var d := c.chain[|c.chain| - 1];
            b < d ==> !OnPath(d, HashOf(s, n))
  {
    var c := s.clients[t];
    var d, h := c.chain[|c.chain| - 1], HashOf(s, n);
    if b < d && OnPath(d, h) {
      PathGap(b, d, h);
      ParentOnPath(d, h);
      ScanParentSettled(s, t);
      assert b == c.tgt;
      var p :| 0 <= p < |s.slots[b].list| && s.slots[b].list[p] == n;
      assert ListOf(s, c.tgt)[p] == n;
    }
  }

  lemma {:induction false} FinishEffect(s: State, s': State, t: nat)
    requires t < |s.clients| && Finishes(s, s', t, s.clients[t]) && ClientOk(s, s.clients[t]) && Exclusive(s)
    ensures Effect(s, s', t)
  {
    var c := s.clients[t];
    ScanParentSettled(s, t);
    forall b | 0 <= b < |s'.slots| && Settled(s', b) && !Settled(s, b) ensures SettledBy(s, t, b) {
      FinishSettled(s, s', t, b);
    }
  }

  lemma {:induction false} FinishClient(s: State, s': State, t: nat)
    requires t < |s.clients| && Finishes(s, s', t, s.clients[t]) && ClientOk(s, s.clients[t])
    ensures ClientOk(s', s'.clients[t])
  {
    var c, c' := s.clients[t], s'.clients[t];
    var k := |c.chain| - 1;
    assert c'.chain == c.chain[..k] && c'.tgt == c.chain[k];
    if k > 0 { assert c.chain[k - 1 + 1] == Parent(c.chain[k - 1]); }
    assert ChainOk(s', c');
    assert LockOk(s', c');
    forall j | 0 <= j < |c'.chain| ensures ListOf(s', c'.chain[j]) == [] {
      assert c'.chain[j] == c.chain[j];
    }
    EnterPath(s', c');
    assert c' == Enter(c');
  }

  lemma {:induction false} FinishLocks(s: State, s': State, t: nat)
    requires t < |s.clients| && Finishes(s, s', t, s.clients[t]) && ClientOk(s, s.clients[t]) && Exclusive(s)
    ensures LockRule(s, t, s'.clients[t])
  {
    var c, c' := s.clients[t], s'.clients[t];
    forall b ensures (HoldsW(c', b) ==> HoldsW(c, b)) && (Holds(c', b) ==> Holds(c, b)) {}
    forall u | 0 <= u < |s.clients| && u != t
      ensures Apart(c', s.clients[u]) && Apart(s.clients[u], c')
    {
      assert Apart(c, s.clients[u]) && Apart(s.clients[u], c);
    }
  }

  /** A step that keeps the rehash flags, and does not enter or leave the recheck, keeps the waiting rule. */
  lemma {:induction false} WaitKept(s: State, s': State, t: nat)
    requires t < |s.clients| && Effect(s, s', t) && WaitOk(s)
    requires forall b :: 0 <= b < |s.slots| ==> s'.slots[b].req == s.slots[b].req
    requires !s.clients[t].pc.Recheck? && !s'.clients[t].pc.Wait?
    requires ClientsOk(s)
    ensures WaitOk(s')
  {
    forall v | 0 <= v < |s'.clients| && s'.clients[v].pc.Wait? && IsReq(s', s'.clients[v].tgt)
      ensures exists u :: 0 <= u < |s'.clients| && s'.clients[u].pc.Recheck? && s'.clients[u].tgt == s'.clients[v].tgt
    {
      assert v != t;
      assert ClientOk(s, s.clients[v]);
      assert IsReq(s, s.clients[v].tgt);
      var u :| 0 <= u < |s.clients| && s.clients[u].pc.Recheck? && s.clients[u].tgt == s.clients[v].tgt;
      assert s'.clients[u] == s.clients[u];
    }
  }
}
