/** The bucket table of one map as a value: lists of nodes, or buckets still waiting to be
    filled from their parents (concurrent_hash_map.h with a single thread). */
module SerialTable {
  import opened BucketTree

  datatype Node<K, V> = Node(key: K, val: V)

  /** A bucket whose node_list is rehash_req, or one with its nodes. */
  datatype Bucket<K, V> = Pending | List(nodes: seq<Node<K, V>>)

  /** A table under the mask 2^level - 1. */
  predicate Shaped<K, V>(bs: seq<Bucket<K, V>>, level: nat) {
    level >= 1 && |bs| == Pow2(level) && |bs| >= 2 && bs[0].List? && bs[1].List?
  }

  predicate Rooted<K, V>(bs: seq<Bucket<K, V>>) { |bs| >= 2 && bs[0].List? && bs[1].List? }

  /** The nearest ancestor of `b`, or `b` itself, that is not pending. */
  function Root<K, V>(bs: seq<Bucket<K, V>>, b: nat): (r: nat)
    requires Rooted(bs) && b < |bs|
    ensures r <= b && bs[r].List?
    decreases b
  {
    if bs[b].List? then b else Root(bs, Parent(b))
  }

  /** Where the nodes with hash code `h` are. */
  function Home<K, V>(bs: seq<Bucket<K, V>>, level: nat, h: nat): (r: nat)
    requires Shaped(bs, level)
    ensures r < |bs| && bs[r].List?
  {
    Root(bs, Low(h, level))
  }

  ghost predicate DistinctKeys<K, V>(ns: seq<Node<K, V>>) {
    forall i, j :: 0 <= i < j < |ns| ==> ns[i].key != ns[j].key
  }

  ghost predicate NodeOk<K, V>(hash: K -> nat, bs: seq<Bucket<K, V>>, level: nat, m: map<K, V>, b: nat, n: Node<K, V>)
    requires Shaped(bs, level)
  {
    Home(bs, level, hash(n.key)) == b && n.key in m && m[n.key] == n.val
  }

  ghost predicate BucketOk<K(!new), V(!new)>(hash: K -> nat, bs: seq<Bucket<K, V>>, level: nat, m: map<K, V>, b: nat)
    requires Shaped(bs, level) && b < |bs|
  {
    bs[b].List? ==> DistinctKeys(bs[b].nodes) && forall n :: n in bs[b].nodes ==> NodeOk(hash, bs, level, m, b, n)
  }

  /** The table stores exactly `m`: every node is at its home and every key is there once. */
  ghost predicate Stores<K(!new), V(!new)>(hash: K -> nat, bs: seq<Bucket<K, V>>, level: nat, m: map<K, V>) {
    && Shaped(bs, level)
    && (forall b :: 0 <= b < |bs| ==> BucketOk(hash, bs, level, m, b))
    && (forall k :: k in m ==> Node(k, m[k]) in bs[Home(bs, level, hash(k))].nodes)
  }

  // ----- searching

  /** search_bucket: the position of the key, or the end of the list. */
  function Search<K(==), V>(ns: seq<Node<K, V>>, k: K): (i: nat)
    ensures i <= |ns| && (i < |ns| ==> ns[i].key == k)
    ensures forall j :: 0 <= j < i ==> ns[j].key != k
  {
    if ns == [] || ns[0].key == k then 0
    else
      assert forall j :: 1 <= j < |ns| ==> ns[j] == ns[1..][j - 1];
      1 + Search(ns[1..], k)
  }

  /** The home bucket decides: the key is in its list if and only if it is in the map. */
  lemma {:induction false} SearchHome<K(!new), V(!new)>(
      hash: K -> nat, bs: seq<Bucket<K, V>>, level: nat, m: map<K, V>, k: K)
    requires Stores(hash, bs, level, m)
    ensures var ns := bs[Home(bs, level, hash(k))].nodes;
            var i := Search(ns, k);
            if k in m then i < |ns| && ns[i] == Node(k, m[k]) else i == |ns|
  {
    var b := Home(bs, level, hash(k));
    var ns := bs[b].nodes;
    var i := Search(ns, k);
    assert BucketOk(hash, bs, level, m, b);
    if k in m { var j :| 0 <= j < |ns| && ns[j] == Node(k, m[k]); }
    if i < |ns| { assert ns[i] in ns && NodeOk(hash, bs, level, m, b, ns[i]); }
  }

  // ----- splitting a pending bucket off its parent

  lemma {:induction false} PathOfParent(h: nat, b: nat)
    requires b >= 2 && h >= 2 && b != h
    ensures OnPath(h, b) <==> OnPath(h, Parent(b))
  {
    var c := Parent(b);
    LowSmall(b, Len(b));
    if Len(h) < Len(b) {
      ParentIsLow(b, b);
      LowLow(b, Len(h), Len(b) - 1);
    } else {
      Pow2Mono(Len(b), Len(h));
      LowSmall(b, Len(h));
      LowSmall(c, Len(h));
      Pow2Mono(Len(b) - 1, Len(h) - 1);
    }
  }

  /** Once `h` is no longer pending, it is the root of what lies below it up to other
      rehashed buckets. */
  lemma {:induction false} SplitRoot<K, V>(bs: seq<Bucket<K, V>>, bs': seq<Bucket<K, V>>, h: nat, b: nat)
    requires Rooted(bs) && 2 <= h < |bs| && bs[h].Pending? && bs[Parent(h)].List? && b < |bs|
    requires |bs'| == |bs| && bs'[h].List? && forall c :: 0 <= c < |bs| && c != h ==> (bs'[c].List? <==> bs[c].List?)
    ensures Rooted(bs') && Root(bs', b) == if Root(bs, b) == Parent(h) && OnPath(h, b) then h else Root(bs, b)
    decreases b
  {
    if b == h {
      LowSmall(h, Len(h));
    } else if bs[b].List? {
      if b == Parent(h) {
        Pow2Mono(Len(h) - 1, Len(h));
        LowSmall(b, Len(h));
      }
    } else {
      SplitRoot(bs, bs', h, Parent(b));
      PathOfParent(h, b);
    }
  }

  /** A list divided by whether a node belongs below `h`. */
  ghost predicate Divides<K(!new), V(!new)>(
      hash: K -> nat, ns: seq<Node<K, V>>, h: nat, keep: seq<Node<K, V>>, moved: seq<Node<K, V>>) {
    && DistinctKeys(keep) && DistinctKeys(moved)
    && (forall n :: n in keep ==> n in ns && !OnPath(h, hash(n.key)))
    && (forall n :: n in moved ==> n in ns && OnPath(h, hash(n.key)))
    && (forall n :: n in ns ==> n in keep || n in moved)
  }

  lemma {:induction false} OnPathLow(h: nat, x: nat, level: nat)
    requires level >= 1 && h < Pow2(level)
    ensures OnPath(h, Low(x, level)) <==> OnPath(h, x)
  {
    LenLeast(h, level);
    LowLow(x, Len(h), level);
  }

  /** rehash_bucket moves the right nodes: what is stored does not change. */
  lemma {:induction false} SplitStores<K(!new), V(!new)>(
      hash: K -> nat, bs: seq<Bucket<K, V>>, level: nat, m: map<K, V>,
                                                         h: nat, keep: seq<Node<K, V>>, moved: seq<Node<K, V>>)
    requires Stores(hash, bs, level, m) && 2 <= h < |bs| && bs[h].Pending? && bs[Parent(h)].List?
    requires Divides(hash, bs[Parent(h)].nodes, h, keep, moved)
    ensures Stores(hash, bs[Parent(h) := List(keep)][h := List(moved)], level, m)
  {
    var p := Parent(h);
    var bs' := bs[p := List(keep)][h := List(moved)];
    forall b | 0 <= b < |bs'| ensures BucketOk(hash, bs', level, m, b) {
      assert BucketOk(hash, bs, level, m, b) && BucketOk(hash, bs, level, m, p);
      if bs'[b].List? {
        forall n | n in bs'[b].nodes ensures NodeOk(hash, bs', level, m, b, n) {
          SplitHome(hash, bs, bs', level, h, n.key);
          assert NodeOk(hash, bs, level, m, if b == h then p else b, n);
        }
      }
    }
    forall k | k in m ensures Node(k, m[k]) in bs'[Home(bs', level, hash(k))].nodes {
      SplitHome(hash, bs, bs', level, h, k);
    }
  }

  lemma {:induction false} SplitHome<K, V>(
      hash: K -> nat, bs: seq<Bucket<K, V>>, bs': seq<Bucket<K, V>>, level: nat, h: nat, k: K)
    requires Shaped(bs, level) && 2 <= h < |bs| && bs[h].Pending? && bs[Parent(h)].List?
    requires |bs'| == |bs| && bs'[h].List? && forall c :: 0 <= c < |bs| && c != h ==> (bs'[c].List? <==> bs[c].List?)
    ensures Shaped(bs', level)
    ensures Home(bs', level, hash(k)) == if Home(bs, level, hash(k)) == Parent(h) && OnPath(h, hash(k)) then h
        else Home(bs, level, hash(k))
  {
    SplitRoot(bs, bs', h, Low(hash(k), level));
    OnPathLow(h, hash(k), level);
  }

  // ----- more buckets

  /** The segments allocated together: the mask grows from 1 to 255, then doubles. */
  function NextLevel(level: nat): nat { if level < 8 then 8 else level + 1 }

  /** enable_segment: new buckets, pending, or empty if the map is. */
  function Enlarged<K, V>(bs: seq<Bucket<K, V>>, level: nat, fill: Bucket<K, V>): (r: seq<Bucket<K, V>>)
    requires |bs| == Pow2(level)
    ensures |r| == Pow2(NextLevel(level)) && bs <= r && forall b :: |bs| <= b < |r| ==> r[b] == fill
  {
    Pow2Mono(level, NextLevel(level));
    bs + seq(Pow2(NextLevel(level)) - |bs|, _ => fill)
  }

  lemma {:induction false} RootPrefix<K, V>(bs: seq<Bucket<K, V>>, bs': seq<Bucket<K, V>>, b: nat)
    requires Rooted(bs) && bs <= bs' && b < |bs|
    ensures Rooted(bs') && Root(bs', b) == Root(bs, b)
    decreases b
  {
    if bs[b].Pending? { RootPrefix(bs, bs', Parent(b)); }
  }

  /** Pending new buckets leave every home where it was. */
  lemma {:induction false} HomeEnlarged<K, V>(bs: seq<Bucket<K, V>>, bs': seq<Bucket<K, V>>, level: nat, j: nat, h: nat)
    requires Shaped(bs, level) && bs <= bs' && level <= j && Pow2(j) <= |bs'|
    requires forall b :: |bs| <= b < |bs'| ==> bs'[b].Pending?
    ensures Root(bs', Low(h, j)) == Home(bs, level, h)
    decreases j
  {
    if j == level {
      RootPrefix(bs, bs', Low(h, level));
    } else {
      Pow2Mono(j - 1, j);
      HomeEnlarged(bs, bs', level, j - 1, h);
      if Low(h, j) != Low(h, j - 1) {
        Pow2Mono(level, j - 1);
        NextBit(h, j);
      }
    }
  }

  /** A mask bit that matters leads to the child. */
  lemma {:induction false} NextBit(h: nat, j: nat)
    requires j >= 2 && Low(h, j) != Low(h, j - 1)
    ensures 2 <= Pow2(j - 1) <= Low(h, j) && Parent(Low(h, j)) == Low(h, j - 1)
  {
    var b := Low(h, j);
    LowStep(h, j - 1);
    Pow2Mono(1, j - 1);
    MaskOnPath(h, j);
    LenLeast(b, j);
    if Len(b) < j { Pow2Mono(Len(b), j - 1); }
    ParentIsLow(b, h);
  }

  lemma {:induction false} EnlargedStores<K(!new), V(!new)>(
      hash: K -> nat, bs: seq<Bucket<K, V>>, level: nat, m: map<K, V>, fill: Bucket<K, V>)
    requires Stores(hash, bs, level, m) && (fill == Pending || (fill == List([]) && m == map[]))
    ensures Stores(hash, Enlarged(bs, level, fill), NextLevel(level), m)
  {
    var bs', level' := Enlarged(bs, level, fill), NextLevel(level);
    Pow2Mono(level, level');
    assert bs'[0] == bs[0] && bs'[1] == bs[1];
    forall b | 0 <= b < |bs'| ensures BucketOk(hash, bs', level', m, b) {
      if b < |bs| && bs[b].List? {
        assert bs'[b] == bs[b] && BucketOk(hash, bs, level, m, b);
        forall n | n in bs[b].nodes ensures NodeOk(hash, bs', level', m, b, n) {
          assert NodeOk(hash, bs, level, m, b, n);
          HomeEnlarged(bs, bs', level, level', hash(n.key));
        }
      }
    }
    forall k | k in m ensures Node(k, m[k]) in bs'[Home(bs', level', hash(k))].nodes {
      HomeEnlarged(bs, bs', level, level', hash(k));
    }
  }

  // ----- adding and removing a node

  lemma {:induction false} SameLists<K, V>(bs: seq<Bucket<K, V>>, bs': seq<Bucket<K, V>>, b: nat)
    requires Rooted(bs) && |bs'| == |bs| && b < |bs| && forall c :: 0 <= c < |bs| ==> (bs'[c].List? <==> bs[c].List?)
    ensures Rooted(bs') && Root(bs', b) == Root(bs, b)
    decreases b
  {
    if bs[b].Pending? { SameLists(bs, bs', Parent(b)); }
  }

  lemma {:induction false} AddStores<K(!new), V(!new)>(
      hash: K -> nat, bs: seq<Bucket<K, V>>, level: nat, m: map<K, V>, n: Node<K, V>)
    requires Stores(hash, bs, level, m) && n.key !in m
    ensures var b := Home(bs, level, hash(n.key));
            Stores(hash, bs[b := List([n] + bs[b].nodes)], level, m[n.key := n.val])
  {
    var b := Home(bs, level, hash(n.key));
    var bs', m' := bs[b := List([n] + bs[b].nodes)], m[n.key := n.val];
    forall c | 0 <= c < |bs'| ensures BucketOk(hash, bs', level, m', c) {
      assert BucketOk(hash, bs, level, m, c);
      if bs'[c].List? {
        forall x | x in bs'[c].nodes ensures NodeOk(hash, bs', level, m', c, x) {
          SameLists(bs, bs', Low(hash(x.key), level));
          if x in bs[c].nodes { assert NodeOk(hash, bs, level, m, c, x); }
        }
        if c == b { AddDistinct(bs[b].nodes, n, m); }
      }
    }
    forall k | k in m' ensures Node(k, m'[k]) in bs'[Home(bs', level, hash(k))].nodes {
      SameLists(bs, bs', Low(hash(k), level));
    }
  }

  lemma {:induction false} AddDistinct<K, V>(ns: seq<Node<K, V>>, n: Node<K, V>, m: map<K, V>)
    requires DistinctKeys(ns) && n.key !in m && forall x :: x in ns ==> x.key in m
    ensures DistinctKeys([n] + ns)
  {
    assert forall i :: 0 <= i < |ns| ==> ns[i] in ns;
  }

  /** The table without the node at position `i` of bucket `b`. */
  function Unlinked<K, V>(bs: seq<Bucket<K, V>>, b: nat, i: nat): seq<Bucket<K, V>>
    requires b < |bs| && bs[b].List? && i < |bs[b].nodes|
  {
    bs[b := List(bs[b].nodes[..i] + bs[b].nodes[i + 1..])]
  }

  lemma {:induction false} RemoveStores<K(!new), V(!new)>(
      hash: K -> nat, bs: seq<Bucket<K, V>>, level: nat, m: map<K, V>, k: K, b: nat, i: nat)
    requires Stores(hash, bs, level, m) && k in m && b == Home(bs, level, hash(k)) && i == Search(bs[b].nodes, k)
    ensures i < |bs[b].nodes| && Stores(hash, Unlinked(bs, b, i), level, m - {k})
  {
    SearchHome(hash, bs, level, m, k);
    var ns := bs[b].nodes;
    var bs', m' := Unlinked(bs, b, i), m - {k};
    assert BucketOk(hash, bs, level, m, b);
    RemoveNode(ns, i);
    forall c | 0 <= c < |bs'| ensures BucketOk(hash, bs', level, m', c) {
      assert BucketOk(hash, bs, level, m, c);
      if bs'[c].List? {
        forall x | x in bs'[c].nodes ensures NodeOk(hash, bs', level, m', c, x) {
          SameLists(bs, bs', Low(hash(x.key), level));
          assert x in bs[c].nodes && NodeOk(hash, bs, level, m, c, x);
        }
      }
    }
    forall x | x in m' ensures Node(x, m'[x]) in bs'[Home(bs', level, hash(x))].nodes {
      SameLists(bs, bs', Low(hash(x), level));
      assert Node(x, m[x]) != ns[i];
    }
  }

  lemma {:induction false} RemoveNode<K, V>(ns: seq<Node<K, V>>, i: nat)
    requires i < |ns| && DistinctKeys(ns)
    ensures DistinctKeys(ns[..i] + ns[i + 1..])
    ensures forall n :: n in ns[..i] + ns[i + 1..] <==> n in ns && n != ns[i]
    ensures forall n :: n in ns[..i] + ns[i + 1..] ==> n.key != ns[i].key
  {
    var r := ns[..i] + ns[i + 1..];
    forall n | n in r ensures n in ns && n != ns[i] && n.key != ns[i].key {
      var j :| 0 <= j < |r| && r[j] == n;
      assert r[j] == ns[if j < i then j else j + 1];
    }
    forall n | n in ns && n != ns[i] ensures n in r {
      var j :| 0 <= j < |ns| && ns[j] == n;
      assert r[if j < i then j else j - 1] == n;
    }
  }
}
