/** Copying and comparing whole maps: internal_copy and operator==. */
module SerialCopy {
  import opened BucketTree
  import opened SerialTable
  import opened SerialRehash
  import opened SerialWalk
  import opened SerialMap

  predicate AllEmpty<K(==), V(==)>(bs: seq<Bucket<K, V>>) { forall b :: 0 <= b < |bs| ==> bs[b] == List([]) }

  /** A list of nodes that lists the entries of `m`, each once. */
  ghost predicate Lists<K(!new), V(!new)>(ns: seq<Node<K, V>>, m: map<K, V>) {
    DistinctKeys(ns) && |ns| == |m| && forall n :: n in ns <==> n.key in m && m[n.key] == n.val
  }

  /** Spreading the entries of `m` over empty buckets stores `m`. */
  lemma {:induction false} SpreadStores<K(!new), V(!new)>(
      hash: K -> nat, base: seq<Bucket<K, V>>, level: nat, ns: seq<Node<K, V>>, m: map<K, V>)
    requires Shaped(base, level) && AllEmpty(base) && Lists(ns, m)
    ensures Stores(hash, Spread(hash, base, level, ns), level, m)
  {
    var bs := Spread(hash, base, level, ns);
    forall b | 0 <= b < |bs| ensures bs[b] == List(Collected(hash, level, ns, b)) {
      SpreadAt(hash, base, level, ns, b);
      assert Collected(hash, level, ns, b) + [] == Collected(hash, level, ns, b);
    }
    forall b | 0 <= b < |bs| ensures BucketOk(hash, bs, level, m, b) {
      CollectedSpec(hash, level, ns, b);
      forall n | n in bs[b].nodes ensures NodeOk(hash, bs, level, m, b, n) {}
    }
    forall k | k in m ensures Node(k, m[k]) in bs[Home(bs, level, hash(k))].nodes {
      CollectedSpec(hash, level, ns, Low(hash(k), level));
      assert Node(k, m[k]) in ns;
    }
  }

  lemma {:induction false} CopyStores<K(!new), V(!new)>(
      hash: K -> nat, bs: seq<Bucket<K, V>>, level: nat, m: map<K, V>, base: seq<Bucket<K, V>>, level': nat)
    requires Stores(hash, bs, level, m) && Shaped(base, level') && AllEmpty(base)
    ensures Stores(hash, Spread(hash, base, level', AllNodes(bs)), level', m) && |AllNodes(bs)| == |m|
  {
    VisitsOnce(hash, bs, level, m);
    SpreadStores(hash, base, level', AllNodes(bs), m);
  }

  /** Reserving in an empty map adds empty buckets. */
  lemma {:induction false} ReservedEmpty<K, V>(bs: seq<Bucket<K, V>>, level: nat, n: nat)
    requires |bs| == Pow2(level) && AllEmpty(bs)
    ensures AllEmpty(Reserved(bs, level, n, List([])).0)
    ensures n <= Pow2(level) ==> Reserved(bs, level, n, List([])) == (bs, level)
    decreases n - Pow2(level)
  {
    if n > Pow2(level) {
      Pow2Mono(level, NextLevel(level));
      ReservedEmpty(Enlarged(bs, level, List([])), NextLevel(level), n);
    }
  }

  /** Add a copy of a node without searching for its key. */
  method Put<K(==, !new), V(==, !new)>(
      dst: HashMap<K, V>, b: nat, n: Node<K, V>, ghost base: seq<Bucket<K, V>>, ghost done: seq<Node<K, V>>)
    requires |base| == |dst.buckets| == Pow2(dst.level) && b == Low(dst.hash(n.key), dst.level) && b < |dst.buckets|
    requires dst.buckets == Spread(dst.hash, base, dst.level, done)
    modifies dst`buckets, dst`size
    ensures dst.buckets == Spread(dst.hash, base, dst.level, done + [n]) && dst.size == old(dst.size) + 1
  {
    SpreadSnoc(dst.hash, base, dst.level, done, n);
    dst.buckets := AddFront(dst.buckets, b, n);
    dst.size := dst.size + 1;
  }

  /** The nodes of one bucket, in a table of the same size without pending buckets. */
  method CopyList<K(==, !new), V(==, !new)>(
      dst: HashMap<K, V>, k: nat, list: seq<Node<K, V>>, ghost base: seq<Bucket<K, V>>, ghost before: seq<Node<K, V>>)
    requires |base| == |dst.buckets| == Pow2(dst.level) && k < |base|
    requires dst.buckets == Spread(dst.hash, base, dst.level, before) && dst.size == |before|
    requires forall j :: 0 <= j < |list| ==> Low(dst.hash(list[j].key), dst.level) == k
    modifies dst`buckets, dst`size
    ensures dst.buckets == Spread(dst.hash, base, dst.level, before + list) && dst.size == |before + list|
  {
    var j := 0;
    assert before + list[..0] == before;
    while j < |list|
      invariant j <= |list| && |dst.buckets| == |base| && dst.size == |before| + j
      invariant dst.buckets == Spread(dst.hash, base, dst.level, before + list[..j])
    {
      Put(dst, k, list[j], base, before + list[..j]);
      assert (before + list[..j]) + [list[j]] == before + list[..j + 1];
      j := j + 1;
    }
    assert list[..j] == list;
  }

  lemma {:induction false} ListAtHash<K(!new), V(!new)>(
      hash: K -> nat, bs: seq<Bucket<K, V>>, level: nat, m: map<K, V>, k: nat)
    requires Stores(hash, bs, level, m) && AllRehashed(bs) && k < |bs|
    ensures forall j :: 0 <= j < |bs[k].nodes| ==> Low(hash(bs[k].nodes[j].key), level) == k
    ensures NodesIn(bs, 0, k) + bs[k].nodes == NodesIn(bs, 0, k + 1)
  {
    forall j | 0 <= j < |bs[k].nodes| ensures Low(hash(bs[k].nodes[j].key), level) == k {
      AtMaskedHash(hash, bs, level, m, k, j);
    }
    NodesSplit(bs, 0, k, k + 1);
    assert NodesIn(bs, k, k + 1) == bs[k].nodes + NodesIn(bs, k + 1, k + 1) == bs[k].nodes;
  }

  /** The optimized version of internal_copy, for tables of the same size: bucket by bucket. */
  method CopyBuckets<K(==, !new), V(==, !new)>(dst: HashMap<K, V>, src: HashMap<K, V>, ghost base: seq<Bucket<K, V>>)
    requires dst != src && dst.hash == src.hash && src.Valid() && dst.level == src.level == 1 && dst.size == 0
    requires dst.buckets == base && |base| == 2
    modifies dst`buckets, dst`size
    ensures dst.buckets == Spread(dst.hash, base, dst.level, AllNodes(src.buckets))
        && dst.size == |AllNodes(src.buckets)|
  {
    var k := 0;
    while k < |src.buckets|
      invariant k <= |src.buckets| == |dst.buckets| == 2
      invariant dst.buckets == Spread(dst.hash, base, dst.level, NodesIn(src.buckets, 0, k))
          && dst.size == |NodesIn(src.buckets, 0, k)|
    {
      ListAtHash(src.hash, src.buckets, src.level, src.contents, k);
      CopyList(dst, k, src.buckets[k].nodes, base, NodesIn(src.buckets, 0, k));
      k := k + 1;
    }
  }

  /** One node met by the iterator. */
  method CopyOne<K(==, !new), V(==, !new)>(
      dst: HashMap<K, V>, bs: seq<Bucket<K, V>>, it: Iter, ghost base: seq<Bucket<K, V>>, ghost done: seq<Node<K, V>>)
    returns (next: Iter)
    requires |dst.buckets| == |base| == Pow2(dst.level) && Walked(bs, done, it) && it.index < |bs|
    requires dst.buckets == Spread(dst.hash, base, dst.level, done) && dst.size == |done|
    modifies dst`buckets, dst`size
    ensures |done| < |AllNodes(bs)| && Walked(bs, done + [At(bs, it)], next)
    ensures |dst.buckets| == |base| && dst.buckets == Spread(dst.hash, base, dst.level, done + [At(bs, it)])
        && dst.size == |done| + 1
  {
    var n := At(bs, it);
    next := SerialWalk.Next(bs, it);
    WalkedNext(bs, done, it, next);
    Put(dst, Low(dst.hash(n.key), dst.level), n, base, done);
  }

  /** internal_copy over iterators. */
  method CopyNodes<K(==, !new), V(==, !new)>(dst: HashMap<K, V>, src: HashMap<K, V>, ghost base: seq<Bucket<K, V>>)
    requires dst != src && dst.hash == src.hash && dst.size == 0 && dst.buckets == base && |base| == Pow2(dst.level)
    modifies dst`buckets, dst`size
    ensures dst.buckets == Spread(dst.hash, base, dst.level, AllNodes(src.buckets))
        && dst.size == |AllNodes(src.buckets)|
  {
    var it := Begin(src.buckets);
    ghost var done: seq<Node<K, V>> := [];
    assert [] + Ahead(src.buckets, it) == AllNodes(src.buckets);
    while it.index < |src.buckets|
      invariant |dst.buckets| == |base| && Walked(src.buckets, done, it)
      invariant dst.buckets == Spread(dst.hash, base, dst.level, done) && dst.size == |done|
      decreases |AllNodes(src.buckets)| - |done|
    {
      ghost var n := At(src.buckets, it);
      it := CopyOne(dst, src.buckets, it, base, done);
      done := done + [n];
    }
    WalkedAll(src.buckets, done, it);
  }

  /** internal_copy into an empty map. */
  method Copy<K(==, !new), V(==, !new)>(dst: HashMap<K, V>, src: HashMap<K, V>) returns (ghost base: seq<Bucket<K, V>>)
    requires dst != src && dst.Valid() && src.Valid() && dst.hash == src.hash
    requires dst.level == 1 && dst.size == 0 && AllEmpty(dst.buckets)
    modifies dst`buckets, dst`level, dst`size
    ensures dst.size == |AllNodes(src.buckets)|
    ensures Pow2(dst.level) >= src.size && (dst.level == 1 || dst.level >= 8)
    ensures Shaped(base, dst.level) && AllEmpty(base)
        && dst.buckets == Spread(dst.hash, base, dst.level, AllNodes(src.buckets))
  {
    ReservedEmpty(dst.buckets, dst.level, src.size);
    var same := dst.level == src.level;
    dst.Reserve(src.size);
    base := dst.buckets;
    if same {
      CopyBuckets(dst, src, base);
    } else {
      CopyNodes(dst, src, base);
    }
  }

  /** Assignment: afterwards the map has the contents the other had; assigning a map to itself
      changes nothing. */
  method Assign<K(==, !new), V(==, !new)>(dst: HashMap<K, V>, src: HashMap<K, V>)
    requires dst.Valid() && src.Valid() && dst.hash == src.hash
    modifies dst
    ensures dst.Valid() && dst.contents == src.contents == old(src.contents)
    ensures dst == src ==> unchanged(dst)
  {
    if dst == src {
      return;
    }
    dst.Clear();
    ghost var base := Copy(dst, src);
    CopyStores(src.hash, src.buckets, src.level, src.contents, base, dst.level);
    dst.contents := src.contents;
  }

  lemma {:induction false} SameContents<K, V>(a: map<K, V>, b: map<K, V>)
    requires |a| == |b| && forall k :: k in a ==> k in b && b[k] == a[k]
    ensures a == b
  {
    assert a.Keys <= b.Keys && |a.Keys| == |a| && |b.Keys| == |b|;
    SubsetFull(a.Keys, b.Keys);
  }

  lemma {:induction false} SubsetFull<K>(a: set<K>, b: set<K>)
    requires a <= b && |a| == |b|
    ensures a == b
  {
    assert |b - a| == |b| - |a|;
  }

  /** operator==: equal if and only if the contents are. */
  method Equals<K(==, !new), V(==, !new)>(a: HashMap<K, V>, b: HashMap<K, V>) returns (r: bool)
    requires a.Valid() && b.Valid()
    ensures r <==> a.contents == b.contents
  {
    if a.size != b.size {
      return false;
    }
    r := Included(a, b);
    if r { SameContents(a.contents, b.contents); }
  }

  /** The loop of operator==: every entry of `a` is in `b`. */
  method Included<K(==, !new), V(==, !new)>(a: HashMap<K, V>, b: HashMap<K, V>) returns (r: bool)
    requires a.Valid() && b.Valid()
    ensures r <==> forall k :: k in a.contents ==> k in b.contents && b.contents[k] == a.contents[k]
  {
    VisitsOnce(a.hash, a.buckets, a.level, a.contents);
    var it := Begin(a.buckets);
    ghost var done: seq<Node<K, V>> := [];
    assert [] + Ahead(a.buckets, it) == AllNodes(a.buckets);
    while it.index < |a.buckets|
      invariant Walked(a.buckets, done, it)
      invariant forall n :: n in done ==> n.key in b.contents && b.contents[n.key] == n.val
      decreases |AllNodes(a.buckets)| - |done|
    {
      var n := At(a.buckets, it);
      WalkedAll(a.buckets, done, it);
      var found, _, _ := b.EqualRange(n.key);
      if found == None || found.value != n.val {
        return false;
      }
      var next := SerialWalk.Next(a.buckets, it);
      WalkedNext(a.buckets, done, it, next);
      it := next;
      done := done + [n];
    }
    WalkedAll(a.buckets, done, it);
    forall k | k in a.contents ensures k in b.contents && b.contents[k] == a.contents[k] {
      assert Node(k, a.contents[k]) in done;
    }
    return true;
  }
}
