/** The inductive invariant of the concurrent table and what a single step may do to
    the clients that did not take it. */
module HashMapInvariant {
  import opened BucketTree
  import opened HashMapProtocol

  predicate InChain(s: State, b: nat) {
    exists u :: 0 <= u < |s.clients| && b in s.clients[u].chain
  }

  /** Marked as rehashed, and nobody is still filling it. */
  predicate Settled(s: State, b: nat) {
    b < |s.slots| && !s.slots[b].req && !InChain(s, b)
  }

  /** No settled bucket further down the path of `h` than `b`. */
  predicate Deepest(s: State, b: nat, h: nat) {
    forall d :: b < d < |s.slots| && OnPath(d, h) ==> !Settled(s, d)
  }

  // ----- what holds of one client

  predicate Acquiring(c: Client) {
    (c.pc.Peek? || c.pc.Try? || c.pc.Recheck? || c.pc.Wait? || c.pc.Scan? || c.pc.ScanUpg?)
  }

  /** Points of the operations where the bucket lock is held. */
  predicate Working(c: Client) {
    (c.pc.Search? || c.pc.Upg? || c.pc.Research? || c.pc.Check? || c.pc.Check2? || c.pc.Absent? || c.pc.Ready?
        || c.pc.ItemTry? || c.pc.UpgErase? || c.pc.CheckErase? || c.pc.CheckErase2? || c.pc.Unlink?)
  }

  predicate Waiting(c: Client) { (c.pc.UpgWait? || c.pc.UpgEraseWait?) }

  /** Between the start of an operation and its decision. */
  predicate Busy(c: Client) { c.pc.Load? || Acquiring(c) || Working(c) || Waiting(c) }

  predicate Owner(c: Client) { (c.pc.ItemUpg? || c.pc.ItemWait? || c.pc.ItemRelease? || c.pc.Delete?) }

  /** The marked buckets form a path upwards ending at the bucket being acquired. */
  predicate ChainOk(s: State, c: Client) {
    && c.tgt < |s.slots|
    && (forall j :: 0 <= j < |c.chain| ==> 2 <= c.chain[j] < |s.slots| && !s.slots[c.chain[j]].req)
    && (forall j :: 0 <= j < |c.chain| - 1 ==> c.chain[j + 1] == Parent(c.chain[j]))
    && (c.chain != [] ==> Acquiring(c) && c.tgt == Parent(c.chain[|c.chain| - 1]))
  }

  predicate LockOk(s: State, c: Client) {
    && (!c.lock.Free? ==> c.pc.Recheck? || c.pc.Scan? || Working(c))
    && (c.pc.Scan? || Working(c) ==> !c.lock.Free? && !IsReq(s, c.tgt))
    && ((c.pc.Recheck? || c.pc.Ready? || c.pc.Unlink? || c.pc.Research? || c.pc.CheckErase? || c.pc.CheckErase2?)
        ==> c.lock.Write?)
    && (c.pc.Upg? || c.pc.UpgErase? ==> c.lock.Read?)
    && (c.op.Insert? && (c.pc.Check? || c.pc.Check2?) ==> c.lock.Write?)
    && (c.op.Exclude? && Working(c) ==> c.lock.Write?)
    && (Waiting(c) ==> !IsReq(s, c.tgt))
    && (c.pc.Scan? ==> c.chain != [])
    && (c.pc.ScanUpg? ==> c.chain != [] && !IsReq(s, c.tgt))
  }

  /** While filling a bucket, what was already scanned does not belong to it; and a
      bucket being filled is non-empty only during the scan under a write lock. */
  predicate ScanOk(s: State, c: Client) {
    && (c.pc.Scan? && c.chain != [] ==>
          && c.pos <= |ListOf(s, c.tgt)|
          && forall p :: 0 <= p < c.pos ==> !OnPath(c.chain[|c.chain| - 1], HashOf(s, ListOf(s, c.tgt)[p])))
    && (forall j :: 0 <= j < |c.chain| && ListOf(s, c.chain[j]) != [] ==>
          j == |c.chain| - 1 && c.pc.Scan? && c.lock.Write?)
  }

  /** The bucket locked for the operation is on the path, and is either the one the
      client's mask selects or is locked for writing with nothing settled below. */
  predicate PathOk(s: State, c: Client) {
    var h := H(s, c);
    && 1 <= c.m <= s.level
    && (Acquiring(c) ==> Low(h, c.m) == if c.chain == [] then c.tgt else c.chain[0])
    && (Waiting(c) ==> c.tgt == Low(h, c.m))
    && (Working(c) ==> OnPath(c.tgt, h))
    && ((c.pc.Search? || c.pc.Upg? || c.pc.Research? || c.pc.Check? || c.pc.UpgErase? || c.pc.CheckErase?) ==>
          c.tgt == Low(h, c.m) || (c.lock.Write? && Deepest(s, c.tgt, h)))
    && ((c.pc.Check2? || c.pc.CheckErase2?) ==>
          c.child < |s.slots| &&
          ((c.child >= 2 && OnPath(c.child, h) && Parent(c.child) == c.tgt) || (c.lock.Write? && Deepest(s, c.tgt, h))))
    && (c.pc.Ready? ==> Deepest(s, c.tgt, h))
  }

  /** What the client's search established about the locked bucket. */
  predicate SearchOk(s: State, c: Client) {
    && ((c.pc.Upg? || c.pc.Check? || c.pc.Check2? || c.pc.Ready?) ==>
          if c.op.Exclude? then c.acc.Acc? && c.acc.node !in ListOf(s, c.tgt) else !HasKey(s, c.tgt, c.op.key))
    && ((c.pc.ItemTry? || c.pc.UpgErase? || c.pc.Unlink?) ==> c.node in ListOf(s, c.tgt))
    && ((c.pc.Upg? || c.pc.UpgWait? || c.pc.Research? || c.pc.Ready?) ==> c.op.Insert?)
    && (c.pc.ItemTry? ==> c.op.Find? || c.op.Insert?)
    && ((c.pc.UpgErase? || c.pc.UpgEraseWait? || c.pc.CheckErase? || c.pc.CheckErase2?) ==> c.op.Erase?)
    && ((c.pc.Unlink? || c.pc.ItemUpg? || c.pc.ItemWait? || c.pc.ItemRelease? || c.pc.Delete?)
        ==> c.op.Erase? || c.op.Exclude?)
    && (c.pc.Unlink? && c.op.Exclude? ==> HasAcc(c, c.node))
    && (c.op.Erase? && Busy(c) ==> c.acc.NoAcc?)
    && (c.op.Exclude? && Busy(c) ==> c.acc.Acc? && c.acc.node in s.key && KeyOf(s, c.acc.node) == c.op.key)
  }

  predicate ClientOk(s: State, c: Client) {
    ChainOk(s, c) && LockOk(s, c) && ScanOk(s, c) && PathOk(s, c) && SearchOk(s, c)
  }

  ghost predicate ClientsOk(s: State) {
    forall t :: 0 <= t < |s.clients| ==> ClientOk(s, s.clients[t])
  }

  // ----- what holds between clients and of the table

  ghost predicate Apart(c: Client, u: Client) {
    forall b :: HoldsW(c, b) ==> !Holds(u, b)
  }

  /** A write-locked bucket is locked by nobody else. */
  ghost predicate Exclusive(s: State) {
    forall t, u :: 0 <= t < |s.clients| && 0 <= u < |s.clients| && t != u ==> Apart(s.clients[t], s.clients[u])
  }

  /** A client waits for an unrehashed bucket only while another is about to rehash it. */
  ghost predicate WaitOk(s: State) {
    forall t :: 0 <= t < |s.clients| && s.clients[t].pc.Wait? && IsReq(s, s.clients[t].tgt) ==>
      exists u :: 0 <= u < |s.clients| && s.clients[u].pc.Recheck? && s.clients[u].tgt == s.clients[t].tgt
  }

  predicate TableOk(s: State) {
    && 1 <= s.level <= s.alloc && |s.slots| == Pow2(s.alloc) && |s.slots| >= 2
    && !s.slots[0].req && !s.slots[1].req
    && (forall b :: 0 <= b < |s.slots| && !s.slots[b].req ==> b < Pow2(s.level))
    && forall b :: 0 <= b < |s.slots| && s.slots[b].req ==> s.slots[b].list == []
  }

  /** A bucket is settled only after its parent. */
  predicate ParentsOk(s: State) {
    forall b :: 2 <= b < |s.slots| && Settled(s, b) ==> Settled(s, Parent(b))
  }

  predicate PlacedAt(s: State, n: NodeId, b: nat) {
    n in s.key && OnPath(b, HashOf(s, n)) && Deepest(s, b, HashOf(s, n))
  }

  /** Every node is in the deepest settled bucket of its path, or in one being filled below it. */
  predicate Placed(s: State) {
    forall b, n :: 0 <= b < |s.slots| && n in s.slots[b].list ==> PlacedAt(s, n, b)
  }

  predicate DistinctKeys(s: State, l: seq<NodeId>) {
    forall p, q :: 0 <= p < q < |l| ==> KeyOf(s, l[p]) != KeyOf(s, l[q])
  }

  predicate DisjointKeys(s: State, l: seq<NodeId>, k: seq<NodeId>) {
    forall x, y :: x in l && y in k ==> KeyOf(s, x) != KeyOf(s, y)
  }

  /** No two nodes of the table have equal keys. */
  predicate Unique(s: State) {
    && (forall b :: 0 <= b < |s.slots| ==> DistinctKeys(s, s.slots[b].list))
    && (forall b, d :: 0 <= b < |s.slots| && 0 <= d < |s.slots| && b != d
         ==> DisjointKeys(s, s.slots[b].list, s.slots[d].list))
  }

  predicate InTable(s: State, n: NodeId) {
    exists b :: 0 <= b < |s.slots| && n in s.slots[b].list
  }

  /** Nodes in the table and nodes reachable through an accessor are alive; an unlinked
      node has one owner, and once that owner is past the item lock nobody holds it. */
  ghost predicate NodesOk(s: State) {
    && (forall b, n :: 0 <= b < |s.slots| && n in s.slots[b].list ==> n in s.alive)
    && (forall n :: n in s.alive ==> n in s.key)
    && (forall t :: 0 <= t < |s.clients| && s.clients[t].acc.Acc? ==> s.clients[t].acc.node in s.alive)
    && (forall t :: 0 <= t < |s.clients| && Owner(s.clients[t]) ==> OwnerOk(s, t))
    && (forall t, u :: 0 <= t < |s.clients| && 0 <= u < |s.clients| && t != u
         ==> ItemsApart(s.clients[t], s.clients[u]))
    && (forall t :: 0 <= t < |s.clients| && s.clients[t].isNew ==> NewOk(s, t))
  }

  ghost predicate OwnerOk(s: State, t: nat)
    requires t < |s.clients|
  {
    var c := s.clients[t];
    && c.node in s.alive && !InTable(s, c.node)
    && (c.pc.ItemUpg? ==> HasAcc(c, c.node))
    && (c.pc.ItemWait? ==> c.acc.NoAcc?)
    && (c.pc.ItemRelease? ==> c.acc == Acc(c.node, true))
    && (c.pc.Delete? ==> c.acc.NoAcc? && forall u :: 0 <= u < |s.clients| ==> !HasAcc(s.clients[u], c.node))
  }

  predicate ItemsApart(c: Client, u: Client) {
    && (Owner(c) && Owner(u) ==> c.node != u.node)
    && (c.acc.Acc? && u.acc.Acc? && c.acc.node == u.acc.node ==> !c.acc.write && !u.acc.write)
  }

  /** A node just inserted is still behind the inserter's write lock, and nobody holds it. */
  ghost predicate NewOk(s: State, t: nat)
    requires t < |s.clients|
  {
    var c := s.clients[t];
    && c.pc.ItemTry? && c.lock.Write?
    && forall u :: 0 <= u < |s.clients| ==> !HasAcc(s.clients[u], c.node)
  }

  /** Growth: at most one client is enabling a segment, and it is the next one. */
  ghost predicate GrowthOk(s: State) {
    && (s.level == 1 || s.level >= 8)
    && (forall t :: 0 <= t < |s.clients| ==> GrowerOk(s, s.clients[t]))
    && (forall t, u :: 0 <= t < |s.clients| && 0 <= u < |s.clients| && t != u ==>
          s.clients[t].grow == 0 || s.clients[u].grow == 0)
    && ((forall t :: 0 <= t < |s.clients| ==> s.clients[t].grow == 0)
        ==> s.alloc == s.level && s.segs == Segments(s.level))
  }

  predicate GrowerOk(s: State, c: Client) {
    if c.grow == 0 then !c.pc.Alloc? && !c.pc.Publish?
    else
      && c.grow == s.level
      && (if c.pc.Publish? then s.alloc == NewLevel(s.level) && s.segs == Segments(s.alloc)
          else (c.pc.ItemTry? || c.pc.Alloc?) && s.alloc == s.level && s.segs == Segments(s.level) + {s.level})
      && (c.pc.ItemTry? ==> c.isNew)
  }

  ghost predicate Inv(s: State) {
    && TableOk(s) && ClientsOk(s) && Exclusive(s) && WaitOk(s)
    && ParentsOk(s) && Placed(s) && Unique(s) && NodesOk(s) && GrowthOk(s)
  }

  lemma {:induction false} InitInv(s: State)
    requires Init(s)
    ensures Inv(s)
  {
    assert Pow2(1) == 2;
    forall t | 0 <= t < |s.clients| ensures IdleClient(s.clients[t]) { assert s.clients[t] in s.clients; }
  }
}
