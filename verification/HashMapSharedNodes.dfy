/** Node lifetime and growth under the steps that change the table. */
module HashMapSharedNodes {
  import opened HashMapProtocol
  import opened HashMapInvariant
  import opened HashMapTable
  import opened HashMapUpdates

  /** The same nodes are linked, no accessor changed, nobody became an owner. */
  ghost predicate SameNodes(s: State, s': State, t: nat)
    requires t < |s.clients|
  {
    && |s'.clients| == |s.clients| && s'.alive == s.alive && s'.key == s.key
    && (forall u :: 0 <= u < |s.clients| && u != t ==> s'.clients[u] == s.clients[u])
    && (forall n :: InTable(s', n) == InTable(s, n))
    && s'.clients[t].acc == s.clients[t].acc && !Owner(s.clients[t]) && !Owner(s'.clients[t]) && !s'.clients[t].isNew
  }

  lemma {:induction false} SameNodesOk(s: State, s': State, t: nat)
    requires t < |s.clients| && SameNodes(s, s', t) && NodesOk(s)
    ensures NodesOk(s')
  {
    forall b, n | 0 <= b < |s'.slots| && n in s'.slots[b].list ensures n in s'.alive {
      assert InTable(s', n);
      var d :| 0 <= d < |s.slots| && n in s.slots[d].list;
    }
    forall u | 0 <= u < |s'.clients| && Owner(s'.clients[u]) ensures OwnerOk(s', u) {
      assert OwnerOk(s, u);
    }
    forall u | 0 <= u < |s'.clients| && s'.clients[u].isNew ensures NewOk(s', u) {
      assert NewOk(s, u);
    }
    forall v, u | 0 <= v < |s'.clients| && 0 <= u < |s'.clients| && v != u
      ensures ItemsApart(s'.clients[v], s'.clients[u])
    {
      assert ItemsApart(s.clients[v], s.clients[u]);
    }
  }

  /** A client in the middle of a scan or recheck is not finishing an insertion. */
  lemma {:induction false} NotNew(s: State, t: nat)
    requires t < |s.clients| && NodesOk(s) && !s.clients[t].pc.ItemTry?
    ensures !s.clients[t].isNew
  {
    assert s.clients[t].isNew ==> NewOk(s, t);
  }

  lemma {:induction false} MarkNodes(s: State, s': State, t: nat)
    requires t < |s.clients| && Marks(s, s', t, s.clients[t]) && NodesOk(s) && TableOk(s)
    ensures NodesOk(s')
  {
    NotNew(s, t);
    forall n ensures InTable(s', n) == InTable(s, n) {
      assert forall b :: 0 <= b < |s.slots| ==> s'.slots[b].list == s.slots[b].list;
    }
    SameNodesOk(s, s', t);
  }

  lemma {:induction false} FinishNodes(s: State, s': State, t: nat)
    requires t < |s.clients| && Finishes(s, s', t, s.clients[t]) && NodesOk(s)
    ensures NodesOk(s')
  {
    NotNew(s, t);
    assert s'.slots == s.slots;
    SameNodesOk(s, s', t);
  }

  lemma {:induction false} MoveNodes(s: State, s': State, t: nat)
    requires t < |s.clients| && Moves(s, s', t, s.clients[t]) && ClientOk(s, s.clients[t]) && NodesOk(s)
    ensures NodesOk(s')
  {
    NotNew(s, t);
    MoveIsShape(s, s', t);
    var c := s.clients[t];
    var i, p, d := c.tgt, c.pos, c.chain[|c.chain| - 1];
    forall n ensures InTable(s', n) == InTable(s, n) {
      DropMembers(s.slots[i].list, p, n);
      if InTable(s', n) {
        var b :| 0 <= b < |s'.slots| && n in s'.slots[b].list;
        assert n in s.slots[b].list || n in s.slots[i].list;
      }
      if InTable(s, n) {
        var b :| 0 <= b < |s.slots| && n in s.slots[b].list;
        assert n in s'.slots[b].list || n in s'.slots[d].list;
      }
    }
    SameNodesOk(s, s', t);
  }

  lemma {:induction false} InsertNodes(s: State, s': State, t: nat, n: NodeId)
    requires t < |s.clients| && Inserts(s, s', t, s.clients[t], n) && ClientOk(s, s.clients[t]) && NodesOk(s)
    ensures NodesOk(s')
  {
    NotNew(s, t);
    InsertFacts(s, s', t, n);
    var c, c' := s.clients[t], s'.clients[t];
    assert n !in s.alive;
    forall x | InTable(s', x) && x != n ensures InTable(s, x) {
      var b :| 0 <= b < |s'.slots| && x in s'.slots[b].list;
      assert x in s.slots[b].list;
    }
    forall u | 0 <= u < |s'.clients| && Owner(s'.clients[u]) ensures OwnerOk(s', u) {
      assert OwnerOk(s, u);
      assert s.clients[u].node != n;
    }
    forall u | 0 <= u < |s'.clients| && s'.clients[u].isNew ensures NewOk(s', u) {
      if u != t { assert NewOk(s, u); }
    }
    forall v, u | 0 <= v < |s'.clients| && 0 <= u < |s'.clients| && v != u
      ensures ItemsApart(s'.clients[v], s'.clients[u])
    {
      assert ItemsApart(s.clients[v], s.clients[u]);
    }
  }

  /** After the unlink the node is in no bucket, and the client is its one owner. */
  lemma {:induction false} UnlinkNodes(s: State, s': State, t: nat, p: nat)
    requires t < |s.clients| && Unlinks(s, s', t, s.clients[t], p) && ClientOk(s, s.clients[t])
    requires NodesOk(s) && Unique(s) && Placed(s)
    ensures NodesOk(s')
  {
    NotNew(s, t);
    UnlinkFacts(s, s', t, p);
    var c, c' := s.clients[t], s'.clients[t];
    DropTable(s, s', c.tgt, p);
    assert c.node in s.slots[c.tgt].list;
    assert InTable(s, c.node);
    assert !InTable(s', c.node);
    forall n ensures InTable(s', n) ==> InTable(s, n) {
      if InTable(s', n) { var b :| 0 <= b < |s'.slots| && n in s'.slots[b].list; }
    }
    forall u | 0 <= u < |s'.clients| && Owner(s'.clients[u]) ensures OwnerOk(s', u) {
      if u != t { assert OwnerOk(s, u); }
    }
    forall u | 0 <= u < |s'.clients| && s'.clients[u].isNew ensures NewOk(s', u) {
      assert NewOk(s, u);
    }
    forall v, u | 0 <= v < |s'.clients| && 0 <= u < |s'.clients| && v != u
      ensures ItemsApart(s'.clients[v], s'.clients[u])
    {
      assert ItemsApart(s.clients[v], s.clients[u]);
      if v == t && Owner(s.clients[u]) { assert OwnerOk(s, u); }
      if u == t && Owner(s.clients[v]) { assert OwnerOk(s, v); }
    }
  }

  lemma {:induction false} DeleteNodes(s: State, s': State, t: nat)
    requires t < |s.clients| && Deletes(s, s', t, s.clients[t]) && NodesOk(s)
    ensures NodesOk(s')
  {
    var c := s.clients[t];
    NotNew(s, t);
    assert OwnerOk(s, t);
    forall b, n | 0 <= b < |s'.slots| && n in s'.slots[b].list ensures n in s'.alive {
      assert InTable(s, n);
    }
    forall u | 0 <= u < |s'.clients| && s'.clients[u].acc.Acc? ensures s'.clients[u].acc.node in s'.alive {
      assert !HasAcc(s.clients[u], c.node);
    }
    forall u | 0 <= u < |s'.clients| && Owner(s'.clients[u]) ensures OwnerOk(s', u) {
      assert OwnerOk(s, u);
      assert ItemsApart(c, s.clients[u]);
      assert InTable(s', s.clients[u].node) == InTable(s, s.clients[u].node);
    }
    forall u | 0 <= u < |s'.clients| && s'.clients[u].isNew ensures NewOk(s', u) {
      assert NewOk(s, u);
    }
    forall v, u | 0 <= v < |s'.clients| && 0 <= u < |s'.clients| && v != u
      ensures ItemsApart(s'.clients[v], s'.clients[u])
    {
      assert ItemsApart(s.clients[v], s.clients[u]);
    }
  }

  lemma {:induction false} AllocNodes(s: State, s': State, t: nat)
    requires t < |s.clients| && Allocates(s, s', t, s.clients[t]) && NodesOk(s)
    ensures NodesOk(s')
  {
    NotNew(s, t);
    forall b | |s.slots| <= b < |s'.slots| ensures s'.slots[b].list == [] {}
    forall b | 0 <= b < |s.slots| ensures s'.slots[b] == s.slots[b] {}
    SameNodesOk(s, s', t);
  }

  lemma {:induction false} PublishNodes(s: State, s': State, t: nat)
    requires t < |s.clients| && Publishes(s, s', t, s.clients[t]) && NodesOk(s)
    ensures NodesOk(s')
  {
    NotNew(s, t);
    assert s'.slots == s.slots;
    SameNodesOk(s, s', t);
  }

  // ----- growth

  lemma {:induction false} SameGrowth(s: State, s': State, t: nat)
    requires t < |s.clients| && |s'.clients| == |s.clients| && GrowthOk(s)
    requires forall u :: 0 <= u < |s.clients| && u != t ==> s'.clients[u] == s.clients[u]
    requires s'.level == s.level && s'.alloc == s.alloc && s'.segs == s.segs
    requires s.clients[t].grow == 0 && s'.clients[t].grow == 0 && !s'.clients[t].pc.Alloc? && !s'.clients[t].pc.Publish?
    ensures GrowthOk(s')
  {
    forall u | 0 <= u < |s'.clients| ensures GrowerOk(s', s'.clients[u]) {
      assert GrowerOk(s, s.clients[u]);
    }
    if forall u :: 0 <= u < |s'.clients| ==> s'.clients[u].grow == 0 {
      forall u | 0 <= u < |s.clients| ensures s.clients[u].grow == 0 {
        assert s'.clients[u].grow == s.clients[u].grow;
      }
    }
  }

  lemma {:induction false} NotGrowing(s: State, t: nat)
    requires t < |s.clients| && GrowthOk(s) && !s.clients[t].pc.ItemTry? && !s.clients[t].pc.Alloc?
        && !s.clients[t].pc.Publish?
    ensures s.clients[t].grow == 0
  {
    assert GrowerOk(s, s.clients[t]);
  }

  /** Only the next segment can be claimed, and only when nobody is enabling it. */
  lemma {:induction false} ClaimNext(s: State, t: nat, m: nat)
    requires t < |s.clients| && GrowthOk(s) && 1 <= m <= s.level && m !in s.segs && s.clients[t].grow == 0
    ensures m == s.level && s.alloc == s.level && s.segs == Segments(s.level)
    ensures forall u :: 0 <= u < |s.clients| ==> s.clients[u].grow == 0
  {
    forall u | 0 <= u < |s.clients| ensures s.clients[u].grow == 0 {
      assert GrowerOk(s, s.clients[u]);
    }
  }

  lemma {:induction false} InsertGrowth(s: State, s': State, t: nat, n: NodeId)
    requires t < |s.clients| && Inserts(s, s', t, s.clients[t], n) && GrowthOk(s) && 1 <= s.clients[t].m <= s.level
    ensures GrowthOk(s')
  {
    var c := s.clients[t];
    NotGrowing(s, t);
    if Grows(s, c) {
      ClaimNext(s, t, c.m);
      forall u | 0 <= u < |s'.clients| ensures GrowerOk(s', s'.clients[u]) {
        if u != t { assert GrowerOk(s, s.clients[u]); }
      }
      assert s'.clients[t].grow != 0;
    } else {
      SameGrowth(s, s', t);
    }
  }

  lemma {:induction false} AllocGrowth(s: State, s': State, t: nat)
    requires t < |s.clients| && Allocates(s, s', t, s.clients[t]) && GrowthOk(s)
    ensures GrowthOk(s') && s.alloc < s'.alloc
  {
    var c := s.clients[t];
    assert GrowerOk(s, c);
    assert c.grow == s.level;
    assert s'.segs == Segments(s'.alloc);
    forall u | 0 <= u < |s'.clients| ensures GrowerOk(s', s'.clients[u]) {
      if u != t { assert GrowerOk(s, s.clients[u]); assert s.clients[u].grow == 0; }
    }
    assert s'.clients[t].grow != 0;
  }

  /** The published mask strictly grows. */
  lemma {:induction false} PublishGrowth(s: State, s': State, t: nat)
    requires t < |s.clients| && Publishes(s, s', t, s.clients[t]) && GrowthOk(s)
    ensures GrowthOk(s') && s.level < s'.level == s.alloc
  {
    var c := s.clients[t];
    assert GrowerOk(s, c);
    forall u | 0 <= u < |s'.clients| ensures GrowerOk(s', s'.clients[u]) && s'.clients[u].grow == 0 {
      if u != t { assert GrowerOk(s, s.clients[u]); assert s.clients[u].grow == 0; }
    }
  }
}
