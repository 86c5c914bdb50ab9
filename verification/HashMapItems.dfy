/** Item locks and segment growth under local steps. */
module HashMapItems {
  import opened HashMapProtocol
  import opened HashMapInvariant
  import opened HashMapLocks

  /** A client can gain an item lock only on a node of a bucket it has locked, or on the
      node it unlinked itself. */
  ghost predicate Gains(s: State, t: nat, c: Client, c': Client) {
    && c'.acc.Acc? && ItemFree(s, t, c'.acc.node, c'.acc.write)
    && ((c.pc.ItemTry? && c'.acc.node == c.node) || (Owner(c) && c'.acc.node == c.node))
  }

  lemma {:induction false} GainCases(s: State, t: nat, c: Client, a: Step)
    requires t < |s.clients| && c == s.clients[t] && LocalAction(a) && Does(s, With(s, t, LocalTo(s, c, a)), t, a)
    requires OwnerAcc(c)
    ensures var c' := LocalTo(s, c, a); c'.acc.Acc? ==> c'.acc == c.acc || Gains(s, t, c, c')
  {
    match a
    case Acquire(_) =>
    case Work(_) =>
    case Item(i) =>
  }

  predicate OwnerAcc(c: Client) {
    c.pc.ItemUpg? ==> HasAcc(c, c.node)
  }

  /** How local steps treat the owner's progress and the new-node flag. */
  lemma {:induction false} OwnerCases(s: State, t: nat, c: Client, a: Step)
    requires t < |s.clients| && c == s.clients[t] && LocalAction(a) && Does(s, With(s, t, LocalTo(s, c, a)), t, a)
    requires OwnerAcc(c)
    ensures var c' := LocalTo(s, c, a);
            && (Owner(c') ==> Owner(c) && c'.node == c.node)
            && (Owner(c') ==> (c'.pc.ItemUpg? ==> c' == c) && (c'.pc.ItemWait? ==> c'.acc.NoAcc?)
                              && (c'.pc.ItemRelease? ==> c'.acc == Acc(c'.node, true))
                              && (c'.pc.Delete? ==> c.pc.ItemRelease? && c'.acc.NoAcc?))
  {
    match a
    case Acquire(_) =>
    case Work(_) =>
    case Item(i) =>
  }

  lemma {:induction false} GrowCases(s: State, t: nat, c: Client, a: Step)
    requires t < |s.clients| && c == s.clients[t] && LocalAction(a) && Does(s, With(s, t, LocalTo(s, c, a)), t, a)
    ensures var c' := LocalTo(s, c, a);
            c'.grow == c.grow && (c'.pc.Publish? ==> c.pc.Publish?) && (c'.pc.Alloc? ==> c.grow != 0)
  {
    match a
    case Acquire(_) =>
    case Work(_) =>
    case Item(i) =>
  }

  /** A node just inserted can be locked at once: the bucket is still write-locked. */
  lemma {:induction false} NewItemFree(s: State, t: nat, write: bool)
    requires t < |s.clients| && NodesOk(s) && s.clients[t].isNew
    ensures ItemFree(s, t, s.clients[t].node, write)
  {
    assert NewOk(s, t);
  }

  lemma {:induction false} NewCases(s: State, t: nat, c: Client, a: Step)
    requires t < |s.clients| && c == s.clients[t] && LocalAction(a) && Does(s, With(s, t, LocalTo(s, c, a)), t, a)
    requires NodesOk(s)
    ensures !LocalTo(s, c, a).isNew
    ensures c.isNew ==> LocalTo(s, c, a).pc == if c.grow != 0 then Alloc else Idle
  {
    if c.isNew {
      assert NewOk(s, t);
      match a
      case Acquire(_) =>
      case Work(_) =>
      case Item(i) => if i.GiveUp? { NewItemFree(s, t, Wanted(c).WriteAccess?); }
    }
  }

  /** The node a client is about to lock is not behind another client's write lock. */
  lemma {:induction false} TakenNotNew(s: State, t: nat, u: nat)
    requires t < |s.clients| && u < |s.clients| && t != u
    requires ClientsOk(s) && Exclusive(s) && Unique(s) && NodesOk(s)
    requires s.clients[t].pc.ItemTry? && s.clients[u].isNew
    ensures s.clients[t].node != s.clients[u].node
  {
    var c, d := s.clients[t], s.clients[u];
    assert NewOk(s, u);
    assert ClientOk(s, c) && ClientOk(s, d);
    assert Apart(d, c);
    assert HoldsW(d, d.tgt) && Holds(c, c.tgt);
    assert c.tgt != d.tgt;
    assert DisjointKeys(s, s.slots[c.tgt].list, s.slots[d.tgt].list);
  }

  /** The gained item lock is on a living node that no other owner and no inserter has. */
  lemma {:induction false} GainSafe(s: State, t: nat, u: nat, n: NodeId)
    requires t < |s.clients| && u < |s.clients| && t != u
    requires ClientsOk(s) && Exclusive(s) && Unique(s) && NodesOk(s) && n == s.clients[t].node
    requires s.clients[t].pc.ItemTry? || Owner(s.clients[t])
    ensures n in s.alive
    ensures Owner(s.clients[u]) ==> s.clients[u].node != n
    ensures s.clients[u].isNew ==> s.clients[u].node != n
  {
    var c, d := s.clients[t], s.clients[u];
    assert ClientOk(s, c) && ClientOk(s, d);
    assert ItemsApart(c, d);
    if Owner(c) { assert OwnerOk(s, t); }
    if Owner(d) { assert OwnerOk(s, u); }
    if c.pc.ItemTry? {
      assert n in s.slots[c.tgt].list;
      assert InTable(s, n);
      if d.isNew { TakenNotNew(s, t, u); }
    }
    if d.isNew {
      assert NewOk(s, u);
      assert d.node in s.slots[d.tgt].list;
      assert InTable(s, d.node);
    }
  }

  lemma {:induction false} LocalOwner(s: State, s': State, t: nat, a: Step)
    requires t < |s.clients| && LocalAction(a) && Does(s, s', t, a) && NodesOk(s) && Owner(s'.clients[t])
    ensures OwnerOk(s', t)
  {
    var c := s.clients[t];
    LocalChain(s, s', t, a);
    if Owner(c) { assert OwnerOk(s, t); }
    OwnerCases(s, t, c, a);
    var c' := s'.clients[t];
    assert !InTable(s, c.node);
    forall b | 0 <= b < |s'.slots| ensures c'.node !in s'.slots[b].list { assert s.slots[b] == s'.slots[b]; }
    if c'.pc.Delete? {
      forall u | 0 <= u < |s'.clients| ensures !HasAcc(s'.clients[u], c'.node) {
        if u != t { assert ItemsApart(c, s.clients[u]); }
      }
    }
  }

  lemma {:induction false} LocalOtherOwner(s: State, s': State, t: nat, a: Step, u: nat)
    requires t < |s.clients| && u < |s.clients| && u != t && LocalAction(a) && Does(s, s', t, a)
    requires ClientsOk(s) && Exclusive(s) && Unique(s) && NodesOk(s)
    ensures |s'.clients| == |s.clients|
    ensures Owner(s.clients[u]) ==> OwnerOk(s', u)
    ensures s.clients[u].isNew ==> NewOk(s', u)
  {
    var c, d := s.clients[t], s.clients[u];
    LocalChain(s, s', t, a);
    if Owner(c) { assert OwnerOk(s, t); }
    GainCases(s, t, c, a);
    if c.pc.ItemTry? || Owner(c) { GainSafe(s, t, u, c.node); }
    if Owner(d) {
      assert OwnerOk(s, u);
      forall b | 0 <= b < |s'.slots| ensures d.node !in s'.slots[b].list { assert s.slots[b] == s'.slots[b]; }
    }
    if d.isNew { assert NewOk(s, u); }
  }

  lemma {:induction false} LocalItemsApart(s: State, s': State, t: nat, a: Step, u: nat)
    requires t < |s.clients| && u < |s.clients| && u != t && LocalAction(a) && Does(s, s', t, a)
    requires NodesOk(s)
    ensures |s'.clients| == |s.clients|
    ensures ItemsApart(s'.clients[t], s'.clients[u]) && ItemsApart(s'.clients[u], s'.clients[t])
  {
    var c := s.clients[t];
    LocalChain(s, s', t, a);
    if Owner(c) { assert OwnerOk(s, t); }
    GainCases(s, t, c, a);
    OwnerCases(s, t, c, a);
    assert ItemsApart(c, s.clients[u]) && ItemsApart(s.clients[u], c);
  }

  lemma {:induction false} LocalAccAlive(s: State, s': State, t: nat, a: Step)
    requires t < |s.clients| && LocalAction(a) && Does(s, s', t, a) && ClientsOk(s) && NodesOk(s)
    ensures |s'.clients| == |s.clients|
    ensures s'.clients[t].acc.Acc? ==> s'.clients[t].acc.node in s'.alive
  {
    var c := s.clients[t];
    LocalChain(s, s', t, a);
    if Owner(c) { assert OwnerOk(s, t); }
    GainCases(s, t, c, a);
    assert ClientOk(s, c);
    if c.pc.ItemTry? { assert c.node in s.slots[c.tgt].list; }
  }

  lemma {:induction false} LocalNodes(s: State, s': State, t: nat, a: Step)
    requires t < |s.clients| && LocalAction(a) && Does(s, s', t, a)
    requires ClientsOk(s) && Exclusive(s) && Unique(s) && NodesOk(s)
    ensures NodesOk(s')
  {
    LocalChain(s, s', t, a);
    LocalAccAlive(s, s', t, a);
    forall u | 0 <= u < |s'.clients| && Owner(s'.clients[u]) ensures OwnerOk(s', u) {
      if u == t { LocalOwner(s, s', t, a); } else { LocalOtherOwner(s, s', t, a, u); }
    }
    forall u | 0 <= u < |s'.clients| && s'.clients[u].isNew ensures NewOk(s', u) {
      if u == t { NewCases(s, t, s.clients[t], a); } else { LocalOtherOwner(s, s', t, a, u); }
    }
    forall v, u | 0 <= v < |s'.clients| && 0 <= u < |s'.clients| && v != u
      ensures ItemsApart(s'.clients[v], s'.clients[u])
    {
      if v == t { LocalItemsApart(s, s', t, a, u); }
      else if u == t { LocalItemsApart(s, s', t, a, v); }
      else { assert ItemsApart(s.clients[v], s.clients[u]); }
    }
  }

  lemma {:induction false} LocalGrowth(s: State, s': State, t: nat, a: Step)
    requires t < |s.clients| && LocalAction(a) && Does(s, s', t, a) && NodesOk(s) && GrowthOk(s)
    ensures GrowthOk(s')
  {
    var c := s.clients[t];
    LocalChain(s, s', t, a);
    GrowCases(s, t, c, a);
    NewCases(s, t, c, a);
    PublishMoves(s, t, c, a);
    var c' := s'.clients[t];
    assert c'.grow == c.grow;
    assert GrowerOk(s, c);
    assert GrowerOk(s', c');
    forall u | 0 <= u < |s'.clients| ensures GrowerOk(s', s'.clients[u]) {
      assert u != t ==> GrowerOk(s, s.clients[u]);
    }
    if forall u :: 0 <= u < |s'.clients| ==> s'.clients[u].grow == 0 {
      forall u | 0 <= u < |s.clients| ensures s.clients[u].grow == 0 {
        assert s'.clients[u].grow == s.clients[u].grow;
      }
    }
  }

  /** No local step leaves the growth of a segment unfinished. */
  lemma {:induction false} PublishMoves(s: State, t: nat, c: Client, a: Step)
    requires t < |s.clients| && c == s.clients[t] && LocalAction(a) && Does(s, With(s, t, LocalTo(s, c, a)), t, a)
    ensures !c.pc.Publish? && !c.pc.Alloc?
  {}
}
