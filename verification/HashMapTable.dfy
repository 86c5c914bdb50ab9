/** Steps that rewrite a bucket: moving, inserting and unlinking a node. */
module HashMapTable {
  import opened BucketTree
  import opened HashMapProtocol
  import opened HashMapInvariant
  import opened HashMapStability
  import opened HashMapRehash

  lemma {:induction false} DropMembers(l: seq<NodeId>, p: nat, x: NodeId)
    requires p < |l|
    ensures x in Drop(l, p) ==> exists q :: 0 <= q < |l| && q != p && l[q] == x
    ensures x in l && x != l[p] ==> x in Drop(l, p)
  {
    var r := Drop(l, p);
    if x in r {
      var i :| 0 <= i < |r| && r[i] == x;
      var q := if i < p then i else i + 1;
      assert l[q] == x;
    }
    if x in l && x != l[p] {
      var q :| 0 <= q < |l| && l[q] == x;
      assert r[if q < p then q else q - 1] == x;
    }
  }

  lemma {:induction false} DropDistinct(s: State, l: seq<NodeId>, p: nat)
    requires p < |l| && DistinctKeys(s, l)
    ensures DistinctKeys(s, Drop(l, p))
    ensures forall x :: x in Drop(l, p) ==> x in l && KeyOf(s, x) != KeyOf(s, l[p])
  {
    forall x | x in Drop(l, p) ensures x in l && KeyOf(s, x) != KeyOf(s, l[p]) {
      DropMembers(l, p, x);
      var q :| 0 <= q < |l| && q != p && l[q] == x;
      if q < p { assert KeyOf(s, l[q]) != KeyOf(s, l[p]); } else { assert KeyOf(s, l[p]) != KeyOf(s, l[q]); }
    }
  }

  /** The bucket a client works on is settled. */
  lemma {:induction false} WorkSettled(s: State, t: nat)
    requires t < |s.clients| && ClientOk(s, s.clients[t]) && Exclusive(s) && Working(s.clients[t])
    ensures Settled(s, s.clients[t].tgt)
  {
    var c := s.clients[t];
    if InChain(s, c.tgt) {
      var u :| 0 <= u < |s.clients| && c.tgt in s.clients[u].chain;
      if u != t { assert Apart(s.clients[u], c) && HoldsW(s.clients[u], c.tgt); }
    }
  }

  /** A bucket being filled that already has nodes is filled from a settled parent, which
      its client holds for writing. */
  lemma {:induction false} FillerHoldsParent(s: State, b: nat) returns (u: nat)
    requires ClientsOk(s) && Exclusive(s) && InChain(s, b) && ListOf(s, b) != []
    ensures u < |s.clients| && s.clients[u].pc.Scan? && b >= 2 && HoldsW(s.clients[u], Parent(b))
        && Settled(s, Parent(b))
  {
    u :| 0 <= u < |s.clients| && b in s.clients[u].chain;
    var e := s.clients[u];
    assert ClientOk(s, e);
    var j :| 0 <= j < |e.chain| && e.chain[j] == b;
    assert ListOf(s, e.chain[j]) != [];
    ScanParentSettled(s, u);
  }

  /** Where a hash code's nodes are: if the locked bucket is the deepest settled bucket of
      the path, every node of the table with that hash code is in it. */
  lemma {:induction false} Home(s: State, t: nat, x: NodeId, b: nat)
    requires t < |s.clients| && Working(s.clients[t])
    requires ClientsOk(s) && Exclusive(s) && Placed(s)
    requires b < |s.slots| && x in s.slots[b].list && HashOf(s, x) == H(s, s.clients[t])
    requires Deepest(s, s.clients[t].tgt, H(s, s.clients[t]))
    requires !s.slots[b].req
    ensures b == s.clients[t].tgt
  {
    var c := s.clients[t];
    assert ClientOk(s, c);
    assert PlacedAt(s, x, b);
    WorkSettled(s, t);
    if b > c.tgt {
      var u := FillerHoldsParent(s, b);
      assert u != t;
      assert Apart(s.clients[u], c);
      PathGap(c.tgt, b, H(s, c));
      ParentOnPath(b, H(s, c));
    }
  }

  /** Absence: no bucket holds a node with the client's key. */
  lemma {:induction false} NowhereElse(s: State, t: nat)
    requires t < |s.clients| && Working(s.clients[t])
    requires TableOk(s) && ClientsOk(s) && Exclusive(s) && Placed(s)
    requires Deepest(s, s.clients[t].tgt, H(s, s.clients[t]))
    requires !HasKey(s, s.clients[t].tgt, s.clients[t].op.key)
    ensures forall b, x :: 0 <= b < |s.slots| && x in s.slots[b].list ==> KeyOf(s, x) != s.clients[t].op.key
  {
    forall b, x | 0 <= b < |s.slots| && x in s.slots[b].list
      ensures KeyOf(s, x) != s.clients[t].op.key
    {
      if KeyOf(s, x) == s.clients[t].op.key {
        assert x in ListOf(s, b);
        Home(s, t, x, b);
      }
    }
  }

  // ----- settled buckets when only lists change

  lemma {:induction false} SettledKept(s: State, s': State)
    requires |s'.slots| == |s.slots| && |s'.clients| == |s.clients|
    requires forall b :: 0 <= b < |s.slots| ==> s'.slots[b].req == s.slots[b].req
    requires forall u :: 0 <= u < |s.clients| ==> s'.clients[u].chain == s.clients[u].chain
    ensures forall b :: Settled(s', b) == Settled(s, b)
    ensures forall b, h :: Deepest(s', b, h) == Deepest(s, b, h)
  {
    forall b ensures InChain(s', b) == InChain(s, b) {
      if InChain(s', b) {
        var u :| 0 <= u < |s'.clients| && b in s'.clients[u].chain;
        assert b in s.clients[u].chain;
      }
      if InChain(s, b) {
        var u :| 0 <= u < |s.clients| && b in s.clients[u].chain;
        assert b in s'.clients[u].chain;
      }
    }
  }

  // ----- moving

  ghost predicate MoveShape(s: State, s': State, i: nat, p: nat, d: nat) {
    && i < |s.slots| && d < |s.slots| && i != d && p < |s.slots[i].list| && |s'.slots| == |s.slots|
    && !s.slots[i].req && !s.slots[d].req
    && s'.slots == s.slots[i := Slot(false, Drop(s.slots[i].list, p))][
        d := Slot(false, [s.slots[i].list[p]] + s.slots[d].list)]
    && s' == s.(slots := s'.slots)
  }

  lemma {:induction false} MoveIsShape(s: State, s': State, t: nat)
    requires t < |s.clients| && Moves(s, s', t, s.clients[t]) && ClientOk(s, s.clients[t])
    ensures var c := s.clients[t]; MoveShape(s, s', c.tgt, c.pos, c.chain[|c.chain| - 1])
  {
    var c := s.clients[t];
    ChainAbove(s, c, |c.chain| - 1);
  }

  /** Where the nodes of a bucket were before the move. */
  lemma {:induction false} MoveOrigin(s: State, s': State, i: nat, p: nat, d: nat, b: nat, x: NodeId)
    requires MoveShape(s, s', i, p, d) && DistinctKeys(s, s.slots[i].list)
    requires b < |s'.slots| && x in s'.slots[b].list
    ensures (x in s.slots[b].list && (b == i ==> KeyOf(s, x) != KeyOf(s, s.slots[i].list[p])))
            || (b == d && x == s.slots[i].list[p])
  {
    DropDistinct(s, s.slots[i].list, p);
  }

  lemma {:induction false} MoveUnique(s: State, s': State, i: nat, p: nat, d: nat)
    requires MoveShape(s, s', i, p, d) && Unique(s)
    ensures Unique(s')
  {
    var l, k := s.slots[i].list, s.slots[d].list;
    assert DistinctKeys(s, l) && DistinctKeys(s, k) && DisjointKeys(s, l, k);
    DropDistinct(s, l, p);
    forall b | 0 <= b < |s'.slots| ensures DistinctKeys(s', s'.slots[b].list) {
      assert DistinctKeys(s, s.slots[b].list);
      if b == d { ConsDistinct(s, l[p], k); }
      assert DistinctKeys(s, s'.slots[b].list);
    }
    forall b, e | 0 <= b < |s'.slots| && 0 <= e < |s'.slots| && b != e
      ensures DisjointKeys(s', s'.slots[b].list, s'.slots[e].list)
    {
      MoveDisjoint(s, s', i, p, d, b, e);
    }
  }

  lemma {:induction false} ConsDistinct(s: State, n: NodeId, k: seq<NodeId>)
    requires DistinctKeys(s, k) && forall x :: x in k ==> KeyOf(s, n) != KeyOf(s, x)
    ensures DistinctKeys(s, [n] + k)
  {
    var r := [n] + k;
    forall p, q | 0 <= p < q < |r| ensures KeyOf(s, r[p]) != KeyOf(s, r[q]) {
      assert r[q] == k[q - 1] && k[q - 1] in k;
      if p > 0 { assert r[p] == k[p - 1]; }
    }
  }

  lemma {:induction false} MoveDisjoint(s: State, s': State, i: nat, p: nat, d: nat, b: nat, e: nat)
    requires MoveShape(s, s', i, p, d) && Unique(s) && b < |s.slots| && e < |s.slots| && b != e
    ensures DisjointKeys(s', s'.slots[b].list, s'.slots[e].list)
  {
    var l := s.slots[i].list;
    assert DistinctKeys(s, l) && l[p] in l;
    forall x, y | x in s'.slots[b].list && y in s'.slots[e].list
      ensures KeyOf(s', x) != KeyOf(s', y)
    {
      MoveOrigin(s, s', i, p, d, b, x);
      MoveOrigin(s, s', i, p, d, e, y);
      assert DisjointKeys(s, s.slots[b].list, s.slots[e].list);
      if b != i { assert DisjointKeys(s, s.slots[b].list, l); }
      if e != i { assert DisjointKeys(s, l, s.slots[e].list); }
    }
  }

  lemma {:induction false} MovePlaced(s: State, s': State, i: nat, p: nat, d: nat)
    requires MoveShape(s, s', i, p, d) && Placed(s) && i < d && OnPath(d, HashOf(s, s.slots[i].list[p]))
    ensures Placed(s')
  {
    SettledKept(s, s');
    forall b, n | 0 <= b < |s'.slots| && n in s'.slots[b].list ensures PlacedAt(s', n, b) {
      if b == i {
        DropMembers(s.slots[i].list, p, n);
        assert PlacedAt(s, n, i);
      } else if b == d && n == s.slots[i].list[p] {
        assert PlacedAt(s, n, i);
      } else {
        assert n in s.slots[b].list;
        assert PlacedAt(s, n, b);
      }
    }
  }

  lemma {:induction false} MoveTable(s: State, s': State, t: nat)
    requires t < |s.clients| && Moves(s, s', t, s.clients[t]) && ClientOk(s, s.clients[t])
    requires TableOk(s) && ParentsOk(s) && Placed(s) && Unique(s)
    ensures TableOk(s') && ParentsOk(s') && Placed(s') && Unique(s')
  {
    var c := s.clients[t];
    var d := c.chain[|c.chain| - 1];
    MoveIsShape(s, s', t);
    SettledKept(s, s');
    MoveUnique(s, s', c.tgt, c.pos, d);
    MovePlaced(s, s', c.tgt, c.pos, d);
  }

  lemma {:induction false} MoveEffect(s: State, s': State, t: nat)
    requires t < |s.clients| && Moves(s, s', t, s.clients[t]) && ClientOk(s, s.clients[t])
    ensures Effect(s, s', t)
  {
    MoveIsShape(s, s', t);
    SettledKept(s, s');
  }

  lemma {:induction false} MoveClient(s: State, s': State, t: nat)
    requires t < |s.clients| && Moves(s, s', t, s.clients[t]) && ClientOk(s, s.clients[t])
    ensures ClientOk(s', s'.clients[t])
  {
    var c := s.clients[t];
    var k := |c.chain| - 1;
    MoveIsShape(s, s', t);
    SettledKept(s, s');
    forall j | 0 <= j < k ensures ListOf(s', c.chain[j]) == [] {
      ChainAbove(s, c, j);
      assert c.chain[j] != c.tgt && c.chain[j] != c.chain[k];
    }
    assert ScanOk(s', c);
    assert PathOk(s', c);
  }
}
