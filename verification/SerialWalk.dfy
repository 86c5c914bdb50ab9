/** Walking over a table: iterators, ranges and what they visit. */
module SerialWalk {
  import opened SerialTable

  function NodesOf<K, V>(b: Bucket<K, V>): seq<Node<K, V>> { if b.List? then b.nodes else [] }

  /** The nodes of the buckets from `lo` up to `hi`, in order. */
  function NodesIn<K, V>(bs: seq<Bucket<K, V>>, lo: nat, hi: nat): seq<Node<K, V>>
    requires lo <= hi <= |bs|
    decreases hi - lo
  {
    if lo == hi then [] else NodesOf(bs[lo]) + NodesIn(bs, lo + 1, hi)
  }

  lemma {:induction false} NodesSplit<K, V>(bs: seq<Bucket<K, V>>, lo: nat, mid: nat, hi: nat)
    requires lo <= mid <= hi <= |bs|
    ensures NodesIn(bs, lo, hi) == NodesIn(bs, lo, mid) + NodesIn(bs, mid, hi)
    decreases mid - lo
  {
    if lo < mid { NodesSplit(bs, lo + 1, mid, hi); }
  }

  lemma {:induction false} NodesMember<K, V>(bs: seq<Bucket<K, V>>, lo: nat, hi: nat, n: Node<K, V>)
    requires lo <= hi <= |bs|
    ensures n in NodesIn(bs, lo, hi) <==> exists b :: lo <= b < hi && n in NodesOf(bs[b])
    decreases hi - lo
  {
    if lo < hi { NodesMember(bs, lo + 1, hi, n); }
  }

  // ----- every node once

  /** All nodes of the table, in the order of iteration. */
  function AllNodes<K, V>(bs: seq<Bucket<K, V>>): seq<Node<K, V>> { NodesIn(bs, 0, |bs|) }

  /** In a table that stores `m`, half rehashed or not, the walk meets exactly the entries of
      `m`. */
  lemma {:induction false} WalkMeets<K(!new), V(!new)>(
      hash: K -> nat, bs: seq<Bucket<K, V>>, level: nat, m: map<K, V>, n: Node<K, V>)
    requires Stores(hash, bs, level, m)
    ensures n in AllNodes(bs) <==> n.key in m && m[n.key] == n.val
  {
    NodesMember(bs, 0, |bs|, n);
    if n in AllNodes(bs) {
      var b :| 0 <= b < |bs| && n in NodesOf(bs[b]);
      assert BucketOk(hash, bs, level, m, b);
      assert NodeOk(hash, bs, level, m, b, n);
    }
    if n.key in m && m[n.key] == n.val {
      assert n in NodesOf(bs[Home(bs, level, hash(n.key))]);
    }
  }

  lemma {:induction false} WalkDistinct<K(!new), V(!new)>(
      hash: K -> nat, bs: seq<Bucket<K, V>>, level: nat, m: map<K, V>, lo: nat)
    requires Stores(hash, bs, level, m) && lo <= |bs|
    ensures DistinctKeys(NodesIn(bs, lo, |bs|))
    decreases |bs| - lo
  {
    if lo < |bs| {
      WalkDistinct(hash, bs, level, m, lo + 1);
      var first, rest := NodesOf(bs[lo]), NodesIn(bs, lo + 1, |bs|);
      assert BucketOk(hash, bs, level, m, lo);
      forall i, j | 0 <= i < |first| && 0 <= j < |rest| ensures first[i].key != rest[j].key {
        assert first[i] in first && rest[j] in rest;
        NodesMember(bs, lo + 1, |bs|, rest[j]);
        var b :| lo + 1 <= b < |bs| && rest[j] in NodesOf(bs[b]);
        assert BucketOk(hash, bs, level, m, b);
        assert NodeOk(hash, bs, level, m, lo, first[i]) && NodeOk(hash, bs, level, m, b, rest[j]);
      }
    }
  }

  ghost function KeysOf<K, V>(ns: seq<Node<K, V>>): set<K> { set n | n in ns :: n.key }

  lemma {:induction false} DistinctCount<K, V>(ns: seq<Node<K, V>>)
    requires DistinctKeys(ns)
    ensures |KeysOf(ns)| == |ns|
  {
    if ns != [] {
      var k := |ns| - 1;
      DistinctCount(ns[..k]);
      assert ns == ns[..k] + [ns[k]];
      assert KeysOf(ns) == KeysOf(ns[..k]) + {ns[k].key};
      assert ns[k].key !in KeysOf(ns[..k]);
    }
  }

  /** Iteration visits every entry exactly once: as many nodes as entries, no key twice, and
      precisely the entries. */
  lemma {:induction false} VisitsOnce<K(!new), V(!new)>(hash: K -> nat, bs: seq<Bucket<K, V>>, level: nat, m: map<K, V>)
    requires Stores(hash, bs, level, m)
    ensures DistinctKeys(AllNodes(bs)) && |AllNodes(bs)| == |m|
    ensures forall n :: n in AllNodes(bs) <==> n.key in m && m[n.key] == n.val
  {
    WalkDistinct(hash, bs, level, m, 0);
    forall n: Node<K, V> ensures n in AllNodes(bs) <==> n.key in m && m[n.key] == n.val {
      WalkMeets(hash, bs, level, m, n);
    }
    DistinctCount(AllNodes(bs));
    assert KeysOf(AllNodes(bs)) == m.Keys by {
      forall k | k in m ensures k in KeysOf(AllNodes(bs)) { assert Node(k, m[k]) in AllNodes(bs); }
    }
    assert |m.Keys| == |m|;
  }

  // ----- iterators

  /** An iterator: a bucket index and a position in its list; past the last bucket is the end. */
  datatype Iter = Iter(index: nat, pos: nat)

  predicate Points<K, V>(bs: seq<Bucket<K, V>>, it: Iter) {
    if it.index < |bs| then it.pos < |NodesOf(bs[it.index])| else it == Iter(|bs|, 0)
  }

  /** What is still to be visited. */
  function Ahead<K, V>(bs: seq<Bucket<K, V>>, it: Iter): seq<Node<K, V>>
    requires Points(bs, it)
  {
    if it.index < |bs| then NodesOf(bs[it.index])[it.pos..] + NodesIn(bs, it.index + 1, |bs|) else []
  }

  /** advance_to_next_bucket. */
  method NextBucket<K, V>(bs: seq<Bucket<K, V>>, index: nat) returns (it: Iter)
    requires index <= |bs|
    ensures Points(bs, it) && index <= it.index && it.pos == 0
    ensures forall b :: index <= b < it.index ==> NodesOf(bs[b]) == []
    ensures Ahead(bs, it) == NodesIn(bs, index, |bs|)
  {
    var k := index;
    while k < |bs|
      invariant index <= k <= |bs| && NodesIn(bs, k, |bs|) == NodesIn(bs, index, |bs|)
      invariant forall b :: index <= b < k ==> NodesOf(bs[b]) == []
    {
      if bs[k].List? && bs[k].nodes != [] {
        assert NodesOf(bs[k])[0..] == NodesOf(bs[k]);
        return Iter(k, 0);
      }
      k := k + 1;
    }
    return Iter(|bs|, 0);
  }

  /** begin(). */
  method Begin<K, V>(bs: seq<Bucket<K, V>>) returns (it: Iter)
    ensures Points(bs, it) && Ahead(bs, it) == AllNodes(bs)
  {
    it := NextBucket(bs, 0);
  }

  /** operator++: the node the iterator points at is done, everything after it is ahead. */
  method Next<K, V>(bs: seq<Bucket<K, V>>, it: Iter) returns (next: Iter)
    requires Points(bs, it) && it.index < |bs|
    ensures Points(bs, next)
    ensures Ahead(bs, it) == [At(bs, it)] + Ahead(bs, next)
  {
    var list := NodesOf(bs[it.index]);
    assert list[it.pos..] == [list[it.pos]] + list[it.pos + 1..];
    if it.pos + 1 < |list| {
      return Iter(it.index, it.pos + 1);
    }
    next := NextBucket(bs, it.index + 1);
  }

  /** `done` was visited and the iterator stands at what follows. */
  predicate Walked<K(==), V(==)>(bs: seq<Bucket<K, V>>, done: seq<Node<K, V>>, it: Iter) {
    Points(bs, it) && done + Ahead(bs, it) == AllNodes(bs)
  }

  function At<K, V>(bs: seq<Bucket<K, V>>, it: Iter): Node<K, V>
    requires Points(bs, it) && it.index < |bs|
  {
    NodesOf(bs[it.index])[it.pos]
  }

  lemma {:induction false} WalkedNext<K, V>(bs: seq<Bucket<K, V>>, done: seq<Node<K, V>>, it: Iter, next: Iter)
    requires Walked(bs, done, it) && it.index < |bs| && Points(bs, next)
        && Ahead(bs, it) == [At(bs, it)] + Ahead(bs, next)
    ensures Walked(bs, done + [At(bs, it)], next) && |done| < |AllNodes(bs)|
  {
    assert (done + [At(bs, it)]) + Ahead(bs, next) == done + ([At(bs, it)] + Ahead(bs, next));
  }

  lemma {:induction false} WalkedAll<K, V>(bs: seq<Bucket<K, V>>, done: seq<Node<K, V>>, it: Iter)
    requires Walked(bs, done, it)
    ensures it.index >= |bs| ==> done == AllNodes(bs)
    ensures forall n :: n in done ==> n in AllNodes(bs)
    ensures it.index < |bs| ==> At(bs, it) in AllNodes(bs)
  {
    assert forall n :: n in done ==> n in done + Ahead(bs, it);
    if it.index < |bs| { assert Ahead(bs, it)[0] == At(bs, it); }
  }

  // ----- ranges

  /** A range between two iterators at bucket starts. */
  predicate GoodRange<K, V>(bs: seq<Bucket<K, V>>, lo: nat, hi: nat) {
    lo <= hi <= |bs| && Starts(bs, lo) && Starts(bs, hi)
  }

  /** The end, or a bucket with nodes. */
  predicate Starts<K, V>(bs: seq<Bucket<K, V>>, b: nat) { b == |bs| || (b < |bs| && NodesOf(bs[b]) != []) }

  /** set_midpoint: half way between the indices, or the end if the range is small. */
  method Midpoint<K, V>(bs: seq<Bucket<K, V>>, lo: nat, hi: nat, grain: nat) returns (mid: nat)
    requires GoodRange(bs, lo, hi) && grain >= 1
    ensures lo <= mid <= hi && Starts(bs, mid) && (mid == lo ==> lo == hi)
    ensures hi - lo <= grain ==> mid == hi
    ensures hi - lo > grain ==>
              lo + (hi - lo) / 2 <= mid && forall b :: lo + (hi - lo) / 2 <= b < mid ==> NodesOf(bs[b]) == []
  {
    if hi - lo <= grain {
      return hi;
    }
    var it := NextBucket(bs, lo + (hi - lo) / 2);
    mid := it.index;
  }

  /** Splitting a divisible range at its midpoint: two ranges, neither empty, each with a
      shorter span of indices, whose nodes together are the nodes of the range. */
  lemma {:induction false} SplitPartitions<K, V>(bs: seq<Bucket<K, V>>, lo: nat, mid: nat, hi: nat)
    requires GoodRange(bs, lo, hi) && lo < mid < hi && Starts(bs, mid)
    ensures GoodRange(bs, lo, mid) && GoodRange(bs, mid, hi)
    ensures NodesIn(bs, lo, mid) != [] && NodesIn(bs, mid, hi) != []
    ensures NodesIn(bs, lo, hi) == NodesIn(bs, lo, mid) + NodesIn(bs, mid, hi)
  {
    NodesSplit(bs, lo, mid, hi);
  }

  /** A tree of splits. */
  datatype Splits = Leaf | Split(mid: nat, left: Splits, right: Splits)

  predicate Divides<K, V>(bs: seq<Bucket<K, V>>, lo: nat, hi: nat, t: Splits)
    decreases t
  {
    match t
    case Leaf => GoodRange(bs, lo, hi)
    case Split(mid, l, r) =>
      GoodRange(bs, lo, hi) && lo < mid < hi && Starts(bs, mid) && Divides(bs, lo, mid, l) && Divides(bs, mid, hi, r)
  }

  /** The nodes of the leaves, each with the range it came from. */
  function Leaves<K, V>(bs: seq<Bucket<K, V>>, lo: nat, hi: nat, t: Splits): seq<seq<Node<K, V>>>
    requires Divides(bs, lo, hi, t)
    decreases t
  {
    match t
    case Leaf => [NodesIn(bs, lo, hi)]
    case Split(mid, l, r) => Leaves(bs, lo, mid, l) + Leaves(bs, mid, hi, r)
  }

  function Flatten<K, V>(parts: seq<seq<Node<K, V>>>): seq<Node<K, V>> {
    if parts == [] then [] else parts[0] + Flatten(parts[1..])
  }

  lemma {:induction false} FlattenAppend<K, V>(a: seq<seq<Node<K, V>>>, b: seq<seq<Node<K, V>>>)
    ensures Flatten(a + b) == Flatten(a) + Flatten(b)
  {
    if a == [] {
      assert a + b == b;
    } else {
      assert (a + b)[1..] == a[1..] + b;
      FlattenAppend(a[1..], b);
    }
  }

  /** However a range that is not empty is split, the leaves are not empty and together visit
      its nodes once, in order. */
  lemma {:induction false} SplitsPartition<K, V>(bs: seq<Bucket<K, V>>, lo: nat, hi: nat, t: Splits)
    requires Divides(bs, lo, hi, t) && lo < hi
    ensures Flatten(Leaves(bs, lo, hi, t)) == NodesIn(bs, lo, hi)
    ensures forall i :: 0 <= i < |Leaves(bs, lo, hi, t)| ==> Leaves(bs, lo, hi, t)[i] != []
    decreases t
  {
    match t
    case Leaf =>
      assert Flatten([NodesIn(bs, lo, hi)]) == NodesIn(bs, lo, hi) + Flatten<K, V>([]);
    case Split(mid, l, r) =>
      SplitsPartition(bs, lo, mid, l);
      SplitsPartition(bs, mid, hi, r);
      FlattenAppend(Leaves(bs, lo, mid, l), Leaves(bs, mid, hi, r));
      SplitPartitions(bs, lo, mid, hi);
  }
}
