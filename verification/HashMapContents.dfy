/** What the table holds: which nodes each step adds and removes, and where a living node is. */
module HashMapContents {
  import opened HashMapProtocol
  import opened HashMapInvariant
  import opened HashMapLocks
  import opened HashMapTable
  import opened HashMapUpdates
  import opened HashMapSafety

  // ----- nodes enter and leave only by an insertion and an unlink

  /** Node `n` is in the table after step `a` of client `t`. */
  ghost predicate TableAfter(s: State, t: nat, a: Step, n: NodeId)
    requires t < |s.clients|
  {
    if a.Share? && a.h.InsertNode? then InTable(s, n) || n == a.h.n
    else if a.Share? && a.h.UnlinkNode? then InTable(s, n) && n != s.clients[t].node
    else InTable(s, n)
  }

  lemma {:induction false} SameLists(s: State, s': State, n: NodeId)
    requires |s.slots| <= |s'.slots|
    requires forall b :: 0 <= b < |s.slots| ==> s'.slots[b].list == s.slots[b].list
    requires forall b :: |s.slots| <= b < |s'.slots| ==> s'.slots[b].list == []
    ensures InTable(s', n) == InTable(s, n)
  {
    if InTable(s, n) {
      var b :| 0 <= b < |s.slots| && n in s.slots[b].list;
      assert n in s'.slots[b].list;
    }
    if InTable(s', n) {
      var b :| 0 <= b < |s'.slots| && n in s'.slots[b].list;
      assert n in s.slots[b].list;
    }
  }

  /** Lazy rehashing loses no node and invents none. */
  lemma {:induction false} MoveKeeps(s: State, s': State, t: nat, n: NodeId)
    requires t < |s.clients| && Moves(s, s', t, s.clients[t]) && ClientOk(s, s.clients[t])
    ensures InTable(s', n) == InTable(s, n)
  {
    MoveIsShape(s, s', t);
    var c := s.clients[t];
    var i, p, d := c.tgt, c.pos, c.chain[|c.chain| - 1];
    DropMembers(s.slots[i].list, p, n);
    if InTable(s', n) {
      var b :| 0 <= b < |s'.slots| && n in s'.slots[b].list;
      assert n in s.slots[b].list || n in s.slots[i].list;
    }
    if InTable(s, n) {
      var b :| 0 <= b < |s.slots| && n in s.slots[b].list;
      assert n in s'.slots[b].list || n in s'.slots[d].list;
    }
  }

  lemma {:induction false} InsertAdds(s: State, s': State, t: nat, m: NodeId, n: NodeId)
    requires t < |s.clients| && Inserts(s, s', t, s.clients[t], m) && ClientOk(s, s.clients[t])
    ensures InTable(s', n) == (InTable(s, n) || n == m)
  {
    InsertFacts(s, s', t, m);
    var i := s.clients[t].tgt;
    assert m in s'.slots[i].list;
    if InTable(s, n) {
      var b :| 0 <= b < |s.slots| && n in s.slots[b].list;
      assert n in s'.slots[b].list;
    }
    if InTable(s', n) && n != m {
      var b :| 0 <= b < |s'.slots| && n in s'.slots[b].list;
      assert n in s.slots[b].list;
    }
  }

  lemma {:induction false} UnlinkRemoves(s: State, s': State, t: nat, p: nat, n: NodeId)
    requires t < |s.clients| && Unlinks(s, s', t, s.clients[t], p) && ClientOk(s, s.clients[t])
    requires Unique(s) && Placed(s)
    ensures InTable(s', n) == (InTable(s, n) && n != s.clients[t].node)
  {
    UnlinkFacts(s, s', t, p);
    var c := s.clients[t];
    DropTable(s, s', c.tgt, p);
    DropMembers(s.slots[c.tgt].list, p, n);
    if InTable(s, n) && n != c.node {
      var b :| 0 <= b < |s.slots| && n in s.slots[b].list;
      assert n in s'.slots[b].list;
    }
    if InTable(s', n) {
      var b :| 0 <= b < |s'.slots| && n in s'.slots[b].list;
      assert n in s.slots[b].list;
    }
  }

  /** Every step refines the set of nodes: an insertion adds exactly its node, an unlink
      removes exactly the client's node, and nothing else changes the set; in particular lazy
      rehashing and growth keep every node. */
  lemma {:induction false} TableStep(s: State, s': State, t: nat, a: Step, n: NodeId)
    requires t < |s.clients| && Does(s, s', t, a) && Inv(s)
    ensures InTable(s', n) == TableAfter(s, t, a, n)
  {
    var c := s.clients[t];
    assert ClientOk(s, c);
    if LocalAction(a) {
      LocalChain(s, s', t, a);
      SameLists(s, s', n);
    } else {
      match a.h
      case Mark => MarkKeeps(s, s', t, n);
      case ScanMove => MoveKeeps(s, s', t, n);
      case InsertNode(m) => InsertAdds(s, s', t, m, n);
      case UnlinkNode(p) => UnlinkRemoves(s, s', t, p, n);
      case AllocSegment => AllocKeeps(s, s', t, n);
      case _ => SameLists(s, s', n);
    }
  }

  lemma {:induction false} MarkKeeps(s: State, s': State, t: nat, n: NodeId)
    requires t < |s.clients| && Marks(s, s', t, s.clients[t]) && TableOk(s)
    ensures InTable(s', n) == InTable(s, n)
  {
    assert forall b :: 0 <= b < |s.slots| ==> s'.slots[b].list == s.slots[b].list;
    SameLists(s, s', n);
  }

  lemma {:induction false} AllocKeeps(s: State, s': State, t: nat, n: NodeId)
    requires t < |s.clients| && Allocates(s, s', t, s.clients[t])
    ensures InTable(s', n) == InTable(s, n)
  {
    forall b | 0 <= b < |s.slots| ensures s'.slots[b] == s.slots[b] {}
    forall b | |s.slots| <= b < |s'.slots| ensures s'.slots[b].list == [] {}
    SameLists(s, s', n);
  }

  // ----- living nodes

  /** Some client has unlinked `n` and is going to delete it. */
  ghost predicate Owned(s: State, n: NodeId) {
    exists t :: 0 <= t < |s.clients| && Owner(s.clients[t]) && s.clients[t].node == n
  }

  /** Every living node is in the table, or was unlinked by a client that still has to delete
      it. */
  ghost predicate Living(s: State) { forall n :: n in s.alive ==> InTable(s, n) || Owned(s, n) }

  /** An owner keeps its node until it deletes it; the other clients stay as they are. */
  lemma {:induction false} OwnedStays(s: State, s': State, t: nat, a: Step, n: NodeId)
    requires t < |s.clients| && Does(s, s', t, a) && Owned(s, n) && n in s'.alive
    ensures Owned(s', n)
  {
    var u :| 0 <= u < |s.clients| && Owner(s.clients[u]) && s.clients[u].node == n;
    ClientsElse(s, s', t, a);
    if u == t { OwnerStays(s, s', t, a); }
    assert Owner(s'.clients[u]) && s'.clients[u].node == n;
  }

  lemma {:induction false} ClientsElse(s: State, s': State, t: nat, a: Step)
    requires t < |s.clients| && Does(s, s', t, a)
    ensures |s'.clients| == |s.clients| && s'.hash == s.hash
    ensures forall u :: 0 <= u < |s.clients| && u != t ==> s'.clients[u] == s.clients[u]
    ensures forall n :: n in s.key ==> n in s'.key && s'.key[n] == s.key[n]
  {
    match a
    case Acquire(_) =>
    case Work(_) =>
    case Item(_) =>
    case Share(_) =>
  }

  lemma {:induction false} OwnerStays(s: State, s': State, t: nat, a: Step)
    requires t < |s.clients| && Does(s, s', t, a) && Owner(s.clients[t])
    ensures |s'.clients| == |s.clients| && s'.key == s.key
    ensures s.clients[t].node in s'.alive ==> Owner(s'.clients[t]) && s'.clients[t].node == s.clients[t].node
  {
    match a
    case Acquire(_) =>
    case Work(_) =>
    case Item(_) =>
    case Share(_) =>
  }

  /** A step brings no node to life but the one it inserts. */
  lemma {:induction false} AliveStep(s: State, s': State, t: nat, a: Step, n: NodeId)
    requires t < |s.clients| && Does(s, s', t, a) && n in s'.alive
    ensures n in s.alive || (a.Share? && a.h == InsertNode(n))
  {
    match a
    case Acquire(_) =>
    case Work(_) =>
    case Item(_) =>
    case Share(_) =>
  }

  lemma {:induction false} LivingStep(s: State, s': State, t: nat, a: Step)
    requires t < |s.clients| && Does(s, s', t, a) && Inv(s) && Living(s)
    ensures Living(s')
  {
    forall n | n in s'.alive ensures InTable(s', n) || Owned(s', n) {
      AliveStep(s, s', t, a, n);
      TableStep(s, s', t, a, n);
      if n in s.alive && !InTable(s, n) {
        OwnedStays(s, s', t, a, n);
      } else if a.Share? && a.h.UnlinkNode? && n == s.clients[t].node {
        ClientsElse(s, s', t, a);
        assert Owner(s'.clients[t]) && s'.clients[t].node == n;
      }
    }
  }

  /** In every state of every run a living node is in the table or owned by the client that
      unlinked it. */
  lemma {:induction false} RunLiving(tr: seq<State>, i: nat)
    requires Run(tr) && i < |tr|
    ensures Living(tr[i])
  {
    if i > 0 {
      RunLiving(tr, i - 1);
      RunInv(tr, i - 1);
      assert Next(tr[i - 1], tr[i - 1 + 1]);
      LivingNext(tr[i - 1], tr[i]);
    }
  }

  lemma {:induction false} LivingNext(s: State, s': State)
    requires Next(s, s') && Inv(s) && Living(s)
    ensures Living(s')
  {
    var t: nat, a: Step :| t < |s.clients| && Does(s, s', t, a);
    LivingStep(s, s', t, a);
  }
}
