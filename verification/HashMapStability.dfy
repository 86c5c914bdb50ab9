/** What one step may change, and why that cannot disturb the other clients. */
module HashMapStability {
  import opened BucketTree
  import opened HashMapProtocol
  import opened HashMapInvariant

  /** The footprint of a step of client `t`: it rewrites only buckets it has locked for
      writing, and it settles a bucket only while holding that bucket's parent. */
  ghost predicate Effect(s: State, s': State, t: nat)
    requires t < |s.clients|
  {
    && |s'.clients| == |s.clients|
    && (forall u :: 0 <= u < |s.clients| && u != t ==> s'.clients[u] == s.clients[u])
    && s'.hash == s.hash && s.level <= s'.level && |s.slots| <= |s'.slots|
    && (forall n :: n in s.key ==> n in s'.key && s'.key[n] == s.key[n])
    && (forall b :: 0 <= b < |s.slots| ==> s'.slots[b] == s.slots[b] || HoldsW(s.clients[t], b))
    && (forall b :: 0 <= b < |s'.slots| && !s'.slots[b].req ==> b < |s.slots|)
    && (forall b :: 0 <= b < |s.slots| && s'.slots[b].req ==> s.slots[b].req)
    && (forall b :: 0 <= b < |s'.slots| && Settled(s', b) && !Settled(s, b) ==> SettledBy(s, t, b))
  }

  ghost predicate SettledBy(s: State, t: nat, b: nat)
    requires t < |s.clients|
  {
    b >= 2 && Holds(s.clients[t], Parent(b)) && Settled(s, Parent(b))
  }

  /** A bucket that another client holds for writing stays the deepest of the path. */
  lemma {:induction false} DeepestStable(s: State, s': State, t: nat, u: nat, b: nat, h: nat)
    requires t < |s.clients| && u < |s.clients| && t != u
    requires Effect(s, s', t) && Exclusive(s)
    requires HoldsW(s.clients[u], b) && Deepest(s, b, h) && OnPath(b, h)
    ensures Deepest(s', b, h)
  {
    assert Apart(s.clients[u], s.clients[t]);
    forall d | b < d < |s'.slots| && OnPath(d, h)
      ensures !Settled(s', d)
    {
      if Settled(s', d) {
        assert d < |s.slots|;
        assert !Settled(s, d);
        assert SettledBy(s, t, d);
        PathGap(b, d, h);
        ParentOnPath(d, h);
      }
    }
  }

  lemma {:induction false} ListStable(s: State, s': State, t: nat, u: nat, b: nat)
    requires t < |s.clients| && u < |s.clients| && t != u
    requires Effect(s, s', t) && Exclusive(s)
    requires Holds(s.clients[u], b) && b < |s.slots|
    ensures s'.slots[b] == s.slots[b]
  {
    assert Apart(s.clients[t], s.clients[u]);
  }

  lemma {:induction false} KeysStable(s: State, s': State, t: nat, b: nat)
    requires t < |s.clients| && Effect(s, s', t) && Placed(s)
    ensures forall n :: n in ListOf(s, b) ==> n in s.key && KeyOf(s', n) == KeyOf(s, n) && HashOf(s', n) == HashOf(s, n)
  {
    forall n | n in ListOf(s, b)
      ensures n in s.key && KeyOf(s', n) == KeyOf(s, n) && HashOf(s', n) == HashOf(s, n)
    {
      assert PlacedAt(s, n, b);
    }
  }

  lemma {:induction false} ScanStable(s: State, s': State, t: nat, u: nat)
    requires t < |s.clients| && u < |s.clients| && t != u
    requires Effect(s, s', t) && Exclusive(s) && Placed(s) && ClientOk(s, s.clients[u])
    ensures ScanOk(s', s.clients[u])
  {
    var c := s.clients[u];
    if c.pc.Scan? {
      ListStable(s, s', t, u, c.tgt);
      KeysStable(s, s', t, c.tgt);
    }
    forall j | 0 <= j < |c.chain| && ListOf(s', c.chain[j]) != []
      ensures j == |c.chain| - 1 && c.pc.Scan? && c.lock.Write?
    {
      ListStable(s, s', t, u, c.chain[j]);
    }
  }

  lemma {:induction false} PathStable(s: State, s': State, t: nat, u: nat)
    requires t < |s.clients| && u < |s.clients| && t != u
    requires Effect(s, s', t) && Exclusive(s) && ClientOk(s, s.clients[u])
    ensures PathOk(s', s.clients[u])
  {
    var c := s.clients[u];
    if Working(c) && c.lock.Write? && Deepest(s, c.tgt, H(s, c)) {
      DeepestStable(s, s', t, u, c.tgt, H(s, c));
    }
  }

  lemma {:induction false} SearchStable(s: State, s': State, t: nat, u: nat)
    requires t < |s.clients| && u < |s.clients| && t != u
    requires Effect(s, s', t) && Exclusive(s) && Placed(s) && ClientOk(s, s.clients[u])
    ensures SearchOk(s', s.clients[u])
  {
    var c := s.clients[u];
    if Working(c) {
      ListStable(s, s', t, u, c.tgt);
      KeysStable(s, s', t, c.tgt);
    }
  }

  /** A step leaves every other client's obligations intact. */
  lemma {:induction false} ClientStable(s: State, s': State, t: nat, u: nat)
    requires t < |s.clients| && u < |s.clients| && t != u
    requires Effect(s, s', t) && Exclusive(s) && Placed(s) && ClientOk(s, s.clients[u])
    ensures ClientOk(s', s.clients[u])
  {
    ScanStable(s, s', t, u);
    PathStable(s, s', t, u);
    SearchStable(s, s', t, u);
    var c := s.clients[u];
    assert ChainOk(s', c);
    assert LockOk(s', c);
  }

  /** The locks the step took were free. */
  ghost predicate LockRule(s: State, t: nat, c': Client)
    requires t < |s.clients|
  {
    forall u :: 0 <= u < |s.clients| && u != t ==> Apart(c', s.clients[u]) && Apart(s.clients[u], c')
  }

  lemma {:induction false} ExclusiveStable(s: State, s': State, t: nat)
    requires t < |s.clients| && Effect(s, s', t) && Exclusive(s) && LockRule(s, t, s'.clients[t])
    ensures Exclusive(s')
  {}

  /** Steps that only change the client itself, with the same marked buckets. */
  lemma {:induction false} LocalEffect(s: State, s': State, t: nat, c': Client)
    requires t < |s.clients| && s' == With(s, t, c') && c'.chain == s.clients[t].chain
    ensures Effect(s, s', t)
    ensures forall b :: Settled(s', b) == Settled(s, b)
    ensures forall b, h :: Deepest(s', b, h) == Deepest(s, b, h)
  {
    forall b ensures InChain(s', b) == InChain(s, b) {
      if InChain(s', b) {
        var u :| 0 <= u < |s'.clients| && b in s'.clients[u].chain;
        assert b in s.clients[u].chain;
      }
      if InChain(s, b) {
        var u :| 0 <= u < |s.clients| && b in s.clients[u].chain;
        assert b in s'.clients[u].chain;
      }
    }
  }

  /** Such a step keeps everything that is said about the table alone. */
  lemma {:induction false} LocalTable(s: State, s': State, t: nat, c': Client)
    requires t < |s.clients| && s' == With(s, t, c') && c'.chain == s.clients[t].chain
    requires TableOk(s) && ParentsOk(s) && Placed(s) && Unique(s)
    ensures TableOk(s') && ParentsOk(s') && Placed(s') && Unique(s')
  {
    LocalEffect(s, s', t, c');
    forall b, n | 0 <= b < |s'.slots| && n in s'.slots[b].list
      ensures PlacedAt(s', n, b)
    {
      assert PlacedAt(s, n, b);
    }
    forall b | 0 <= b < |s'.slots| ensures DistinctKeys(s', s'.slots[b].list) {
      assert DistinctKeys(s, s.slots[b].list);
    }
    forall b, d | 0 <= b < |s'.slots| && 0 <= d < |s'.slots| && b != d
      ensures DisjointKeys(s', s'.slots[b].list, s'.slots[d].list)
    {
      assert DisjointKeys(s, s.slots[b].list, s.slots[d].list);
    }
  }
}
