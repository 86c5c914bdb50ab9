/** Inserting, unlinking and deleting nodes, and enabling segments. */
module HashMapUpdates {
  import opened BucketTree
  import opened HashMapProtocol
  import opened HashMapInvariant
  import opened HashMapStability
  import opened HashMapLocalSteps
  import opened HashMapRehash
  import opened HashMapTable

  // ----- inserting

  ghost predicate ConsShape(s: State, s': State, i: nat, n: NodeId, k: Key) {
    && i < |s.slots| && !s.slots[i].req && n !in s.key
    && s'.slots == s.slots[i := Slot(false, [n] + s.slots[i].list)]
    && s'.key == s.key[n := k] && s'.hash == s.hash
  }

  lemma {:induction false} ConsUnique(s: State, s': State, i: nat, n: NodeId, k: Key)
    requires ConsShape(s, s', i, n, k) && Unique(s) && Placed(s)
    requires forall b, x :: 0 <= b < |s.slots| && x in s.slots[b].list ==> KeyOf(s, x) != k
    ensures Unique(s')
  {
    forall b, x | 0 <= b < |s.slots| && x in s.slots[b].list
      ensures KeyOf(s', x) == KeyOf(s, x) && KeyOf(s', x) != k
    {
      assert PlacedAt(s, x, b);
    }
    forall b | 0 <= b < |s'.slots| ensures DistinctKeys(s', s'.slots[b].list) {
      assert DistinctKeys(s, s.slots[b].list);
      forall p, q | 0 <= p < q < |s.slots[b].list|
          ensures KeyOf(s', s.slots[b].list[p]) != KeyOf(s', s.slots[b].list[q]) {}
      if b == i { ConsDistinct(s', n, s.slots[i].list); }
    }
    forall b, e | 0 <= b < |s'.slots| && 0 <= e < |s'.slots| && b != e
      ensures DisjointKeys(s', s'.slots[b].list, s'.slots[e].list)
    {
      assert DisjointKeys(s, s.slots[b].list, s.slots[e].list);
      forall x, y | x in s'.slots[b].list && y in s'.slots[e].list ensures KeyOf(s', x) != KeyOf(s', y) {
        assert x in s.slots[b].list || (b == i && x == n);
        assert y in s.slots[e].list || (e == i && y == n);
      }
    }
  }

  lemma {:induction false} ConsPlaced(s: State, s': State, i: nat, n: NodeId, k: Key)
    requires ConsShape(s, s', i, n, k) && Placed(s) && OnPath(i, s.hash(k)) && Deepest(s, i, s.hash(k))
    requires forall b, h :: Deepest(s', b, h) == Deepest(s, b, h)
    ensures Placed(s')
  {
    forall b, x | 0 <= b < |s'.slots| && x in s'.slots[b].list ensures PlacedAt(s', x, b) {
      if b == i && x == n {
        assert HashOf(s', n) == s.hash(k);
      } else {
        assert x in s.slots[b].list;
        assert PlacedAt(s, x, b);
        assert x in s.key && x != n;
        assert HashOf(s', x) == HashOf(s, x);
      }
    }
  }

  lemma {:induction false} InsertFacts(s: State, s': State, t: nat, n: NodeId)
    requires t < |s.clients| && Inserts(s, s', t, s.clients[t], n) && ClientOk(s, s.clients[t])
    ensures ConsShape(s, s', s.clients[t].tgt, n, s.clients[t].op.key)
    ensures |s'.clients| == |s.clients| && s'.clients[t].chain == s.clients[t].chain
    ensures forall u :: 0 <= u < |s.clients| ==> s'.clients[u].chain == s.clients[u].chain
    ensures forall b :: Settled(s', b) == Settled(s, b)
    ensures forall b, h :: Deepest(s', b, h) == Deepest(s, b, h)
  {
    SettledKept(s, s');
  }

  lemma {:induction false} InsertTable(s: State, s': State, t: nat, n: NodeId)
    requires t < |s.clients| && Inserts(s, s', t, s.clients[t], n) && ClientsOk(s)
    requires TableOk(s) && ParentsOk(s) && Placed(s) && Unique(s) && Exclusive(s)
    ensures TableOk(s') && ParentsOk(s') && Placed(s') && Unique(s')
  {
    var c := s.clients[t];
    assert ClientOk(s, c);
    InsertFacts(s, s', t, n);
    NowhereElse(s, t);
    ConsUnique(s, s', c.tgt, n, c.op.key);
    ConsPlaced(s, s', c.tgt, n, c.op.key);
  }

  lemma {:induction false} InsertEffect(s: State, s': State, t: nat, n: NodeId)
    requires t < |s.clients| && Inserts(s, s', t, s.clients[t], n) && ClientOk(s, s.clients[t])
    ensures Effect(s, s', t)
  {
    InsertFacts(s, s', t, n);
  }

  lemma {:induction false} InsertClient(s: State, s': State, t: nat, n: NodeId)
    requires t < |s.clients| && Inserts(s, s', t, s.clients[t], n) && ClientOk(s, s.clients[t])
    ensures ClientOk(s', s'.clients[t])
  {
    InsertFacts(s, s', t, n);
    var c' := s'.clients[t];
    assert c'.chain == [] && c'.pc.ItemTry?;
    assert ChainOk(s', c') && LockOk(s', c') && ScanOk(s', c');
    assert PathOk(s', c');
    assert n in ListOf(s', c'.tgt);
    assert SearchOk(s', c');
  }

  // ----- unlinking

  ghost predicate DropShape(s: State, s': State, i: nat, p: nat) {
    && i < |s.slots| && !s.slots[i].req && p < |s.slots[i].list|
    && s'.slots == s.slots[i := Slot(false, Drop(s.slots[i].list, p))]
    && s'.key == s.key && s'.hash == s.hash
  }

  lemma {:induction false} DropTable(s: State, s': State, i: nat, p: nat)
    requires DropShape(s, s', i, p) && Unique(s) && Placed(s)
    requires forall b, h :: Deepest(s', b, h) == Deepest(s, b, h)
    ensures Unique(s') && Placed(s')
    ensures forall b, x :: 0 <= b < |s.slots| && x in s'.slots[b].list
             ==> x in s.slots[b].list && KeyOf(s, x) != KeyOf(s, s.slots[i].list[p])
  {
    var l := s.slots[i].list;
    assert DistinctKeys(s, l) && l[p] in l;
    DropDistinct(s, l, p);
    forall b, x | 0 <= b < |s.slots| && x in s'.slots[b].list
      ensures x in s.slots[b].list && KeyOf(s, x) != KeyOf(s, l[p]) && PlacedAt(s', x, b)
    {
      assert PlacedAt(s, x, b);
      if b != i { assert DisjointKeys(s, l, s.slots[b].list); }
    }
    forall b | 0 <= b < |s'.slots| ensures DistinctKeys(s', s'.slots[b].list) {
      assert DistinctKeys(s, s.slots[b].list);
      assert DistinctKeys(s, s'.slots[b].list);
    }
    forall b, e | 0 <= b < |s'.slots| && 0 <= e < |s'.slots| && b != e
      ensures DisjointKeys(s', s'.slots[b].list, s'.slots[e].list)
    {
      assert DisjointKeys(s, s.slots[b].list, s.slots[e].list);
    }
  }

  lemma {:induction false} UnlinkFacts(s: State, s': State, t: nat, p: nat)
    requires t < |s.clients| && Unlinks(s, s', t, s.clients[t], p) && ClientOk(s, s.clients[t])
    ensures DropShape(s, s', s.clients[t].tgt, p)
    ensures |s'.clients| == |s.clients| && s'.clients[t].chain == s.clients[t].chain
    ensures forall u :: 0 <= u < |s.clients| ==> s'.clients[u].chain == s.clients[u].chain
    ensures forall b :: Settled(s', b) == Settled(s, b)
    ensures forall b, h :: Deepest(s', b, h) == Deepest(s, b, h)
  {
    SettledKept(s, s');
  }

  lemma {:induction false} UnlinkTable(s: State, s': State, t: nat, p: nat)
    requires t < |s.clients| && Unlinks(s, s', t, s.clients[t], p) && ClientOk(s, s.clients[t])
    requires TableOk(s) && ParentsOk(s) && Placed(s) && Unique(s)
    ensures TableOk(s') && ParentsOk(s') && Placed(s') && Unique(s')
  {
    UnlinkFacts(s, s', t, p);
    DropTable(s, s', s.clients[t].tgt, p);
  }

  lemma {:induction false} UnlinkEffect(s: State, s': State, t: nat, p: nat)
    requires t < |s.clients| && Unlinks(s, s', t, s.clients[t], p) && ClientOk(s, s.clients[t])
    ensures Effect(s, s', t)
  {
    UnlinkFacts(s, s', t, p);
  }

  /** Away from buckets, a client has nothing to keep but its mask. */
  lemma {:induction false} RestingClient(s: State, c: Client)
    requires c.tgt < |s.slots| && c.chain == [] && c.lock.Free? && 1 <= c.m <= s.level
    requires !Acquiring(c) && !Working(c) && !Waiting(c) && !c.pc.Load?
    requires Owner(c) ==> c.op.Erase? || c.op.Exclude?
    ensures ClientOk(s, c)
  {
    QuietPath(s, c);
  }

  lemma {:induction false} UnlinkClient(s: State, s': State, t: nat, p: nat)
    requires t < |s.clients| && Unlinks(s, s', t, s.clients[t], p) && ClientOk(s, s.clients[t])
    ensures ClientOk(s', s'.clients[t])
  {
    UnlinkFacts(s, s', t, p);
    RestingClient(s', s'.clients[t]);
  }

  // ----- deleting and growing

  lemma {:induction false} QuietStep(s: State, s': State, t: nat)
    requires t < |s.clients| && |s'.clients| == |s.clients| && s'.slots == s.slots && s'.key == s.key
        && s'.hash == s.hash
    requires s.level <= s'.level
    requires forall u :: 0 <= u < |s.clients| && u != t ==> s'.clients[u] == s.clients[u]
    requires s'.clients[t].chain == s.clients[t].chain
    requires ParentsOk(s) && Placed(s) && Unique(s)
    ensures ParentsOk(s') && Placed(s') && Unique(s') && Effect(s, s', t)
  {
    SettledKept(s, s');
    SameTable(s, s');
  }

  lemma {:induction false} AllocSettled(s: State, s': State, t: nat)
    requires t < |s.clients| && Allocates(s, s', t, s.clients[t])
    ensures forall b :: Settled(s', b) == Settled(s, b)
    ensures forall b, h :: Deepest(s', b, h) == Deepest(s, b, h)
  {
    assert forall u :: 0 <= u < |s.clients| ==> s'.clients[u].chain == s.clients[u].chain;
    forall b ensures InChain(s', b) == InChain(s, b) {
      if InChain(s', b) {
        var u :| 0 <= u < |s'.clients| && b in s'.clients[u].chain;
        assert b in s.clients[u].chain;
      }
      if InChain(s, b) {
        var u :| 0 <= u < |s.clients| && b in s.clients[u].chain;
        assert b in s'.clients[u].chain;
      }
    }
    forall b: nat ensures Settled(s', b) == Settled(s, b) {
      if b < |s.slots| { assert s'.slots[b] == s.slots[b]; }
    }
    forall b: nat, h: nat ensures Deepest(s', b, h) == Deepest(s, b, h) {
      forall d | b < d < |s'.slots| && OnPath(d, h) && Deepest(s, b, h) ensures !Settled(s', d) {
        assert Settled(s', d) == Settled(s, d);
      }
      forall d | b < d < |s.slots| && OnPath(d, h) && Deepest(s', b, h) ensures !Settled(s, d) {}
    }
  }

  lemma {:induction false} AllocTable(s: State, s': State, t: nat)
    requires t < |s.clients| && Allocates(s, s', t, s.clients[t]) && s.alloc <= NewLevel(s.clients[t].grow)
    requires TableOk(s) && ParentsOk(s) && Placed(s) && Unique(s)
    ensures TableOk(s') && ParentsOk(s') && Placed(s') && Unique(s')
  {
    AllocSettled(s, s', t);
    Pow2Mono(s.alloc, NewLevel(s.clients[t].grow));
    assert |s'.slots| == Pow2(s'.alloc);
    forall b | 0 <= b < |s.slots| ensures s'.slots[b] == s.slots[b] {}
    forall b | |s.slots| <= b < |s'.slots| ensures s'.slots[b] == Slot(true, []) {}
    forall b, n | 0 <= b < |s'.slots| && n in s'.slots[b].list ensures PlacedAt(s', n, b) {
      assert PlacedAt(s, n, b);
    }
    forall b | 0 <= b < |s'.slots| ensures DistinctKeys(s', s'.slots[b].list) {
      if b < |s.slots| { assert DistinctKeys(s, s.slots[b].list); }
    }
    forall b, d | 0 <= b < |s'.slots| && 0 <= d < |s'.slots| && b != d
      ensures DisjointKeys(s', s'.slots[b].list, s'.slots[d].list)
    {
      if b < |s.slots| && d < |s.slots| { assert DisjointKeys(s, s.slots[b].list, s.slots[d].list); }
    }
  }

  lemma {:induction false} AllocEffect(s: State, s': State, t: nat)
    requires t < |s.clients| && Allocates(s, s', t, s.clients[t])
    ensures Effect(s, s', t)
  {
    AllocSettled(s, s', t);
    forall b | 0 <= b < |s.slots| ensures s'.slots[b] == s.slots[b] {}
    forall b | |s.slots| <= b < |s'.slots| ensures s'.slots[b] == Slot(true, []) {}
  }
}
