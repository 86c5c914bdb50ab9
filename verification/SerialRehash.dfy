/** The serial rehash of a whole table: rehash() and mark_rehashed_levels. */
module SerialRehash {
  import opened BucketTree
  import opened SerialTable

  // ----- marking

  /** `p` lies below `h` and everything from `p` up to, but without, `h` is pending. */
  predicate Under<K, V>(bs: seq<Bucket<K, V>>, h: nat, p: nat)
    requires p < |bs|
    decreases p
  {
    p > h && p >= 2 && bs[p].Pending? && (Parent(p) == h || Under(bs, h, Parent(p)))
  }

  /** The loop of mark_rehashed_levels over the segments from `s` on. */
  function MarkFrom<K, V>(bs: seq<Bucket<K, V>>, level: nat, h: nat, s: nat): (r: seq<Bucket<K, V>>)
    requires |bs| == Pow2(level) && h < Pow2(s)
    ensures |r| == |bs|
    decreases level - s
  {
    if s >= level then bs
    else
      Pow2Mono(s + 1, level);
      var c := h + Pow2(s);
      MarkFrom(if bs[c].Pending? then MarkFrom(bs[c := List([])], level, c, s + 1) else bs, level, h, s + 1)
  }

  function Mark<K, V>(bs: seq<Bucket<K, V>>, level: nat, h: nat): seq<Bucket<K, V>>
    requires |bs| == Pow2(level)
  {
    MarkFrom(bs, level, h, Len(h))
  }

  lemma {:induction false} UnderAgree<K, V>(bs: seq<Bucket<K, V>>, bs': seq<Bucket<K, V>>, h: nat, p: nat)
    requires p < |bs| == |bs'|
    requires forall q :: h < q <= p && OnPath(q, p) ==> (bs[q].Pending? <==> bs'[q].Pending?)
    ensures Under(bs, h, p) <==> Under(bs', h, p)
    decreases p
  {
    if p > h && p >= 2 {
      LowSmall(p, Len(p));
      var c := Parent(p);
      forall q | h < q <= c && OnPath(q, c) ensures bs[q].Pending? <==> bs'[q].Pending? {
        if q >= 2 { PathOfParent(q, p); } else { OneOnPath(q, p); }
      }
      UnderAgree(bs, bs', h, c);
    }
  }

  /** Bucket 1 is on the path of a bucket if and only if it is on the path of its parent. */
  lemma {:induction false} OneOnPath(q: nat, p: nat)
    requires p >= 2 && q < 2
    ensures OnPath(q, p) <==> OnPath(q, Parent(p))
  {
    LowSmall(p, Len(p));
    ParentIsLow(p, p);
    LowLow(p, 1, Len(p) - 1);
  }

  lemma {:induction false} PathOfParentAny(h: nat, b: nat)
    requires b >= 2 && b != h
    ensures OnPath(h, b) <==> OnPath(h, Parent(b))
  {
    if h >= 2 { PathOfParent(h, b); } else { OneOnPath(h, b); }
  }

  /** Between `h` and what lies below its child `c` there is `c`. */
  lemma {:induction false} UnderThrough<K, V>(bs: seq<Bucket<K, V>>, h: nat, c: nat, p: nat)
    requires c < p < |bs| && c >= 2 && c > h && Parent(c) == h && OnPath(c, p)
    ensures Under(bs, h, p) <==> bs[c].Pending? && Under(bs, c, p)
    decreases p
  {
    LowSmall(p, Len(p));
    PathGap(c, p, p);
    PathOfParent(c, p);
    if Parent(p) != c { UnderThrough(bs, h, c, Parent(p)); }
  }

  lemma {:induction false} UnderOnPath<K, V>(bs: seq<Bucket<K, V>>, h: nat, p: nat)
    requires p < |bs| && Under(bs, h, p)
    ensures OnPath(h, p)
    decreases p
  {
    PathOfParentAny(h, p);
    if Parent(p) == h { LowSmall(h, Len(h)); } else { UnderOnPath(bs, h, Parent(p)); }
  }

  /** With `h` rehashed, below it means rooted in it. */
  lemma {:induction false} UnderIsRooted<K, V>(bs: seq<Bucket<K, V>>, h: nat, p: nat)
    requires Rooted(bs) && p < |bs| && h < |bs| && bs[h].List?
    ensures Under(bs, h, p) <==> bs[p].Pending? && Root(bs, p) == h
    decreases p
  {
    if bs[p].Pending? { UnderIsRooted(bs, h, Parent(p)); }
  }

  /** The child of `h` in segment `s`. */
  lemma {:induction false} Child(h: nat, s: nat)
    requires Len(h) <= s && h < Pow2(s)
    ensures var c := h + Pow2(s);
            c >= 2 && c < Pow2(s + 1) && Len(c) == s + 1 && Parent(c) == h
  {
    var c := h + Pow2(s);
    Pow2Mono(1, s);
    LenLeast(c, s + 1);
    if Len(c) <= s { Pow2Mono(Len(c), s); }
  }

  /** mark_rehashed_levels marks exactly what lies below `h` across pending buckets. */
  lemma {:induction false} MarkFromSpec<K, V>(bs: seq<Bucket<K, V>>, level: nat, h: nat, s: nat, p: nat)
    requires |bs| == Pow2(level) && Len(h) <= s <= level && h < Pow2(s) && p < |bs|
    ensures MarkFrom(bs, level, h, s)[p] == if Under(bs, h, p) && Low(p, s) == h then List([]) else bs[p]
    decreases level - s
  {
    LowSmall(p, level);
    if s < level {
      Pow2Mono(s + 1, level);
      Child(h, s);
      var c := h + Pow2(s);
      if bs[c].Pending? {
        MarkPending(bs, level, h, s, p);
      } else {
        MarkFromSpec(bs, level, h, s + 1, p);
        SkipChild(bs, h, s, p);
      }
    }
  }

  /** A chain that runs through `c` needs `c` pending. */
  lemma {:induction false} UnderPasses<K, V>(bs: seq<Bucket<K, V>>, h: nat, c: nat, p: nat)
    requires p < |bs| && c >= 2 && c > h && Parent(c) == h && Low(p, Len(c)) == c
    ensures c <= p
    ensures Under(bs, h, p) <==> bs[c].Pending? && (p == c || Under(bs, c, p))
  {
    if p != c { UnderThrough(bs, h, c, p); }
  }

  /** Nothing lies below `h` across a child that is not pending. */
  lemma {:induction false} SkipChild<K, V>(bs: seq<Bucket<K, V>>, h: nat, s: nat, p: nat)
    requires Len(h) <= s && h < Pow2(s) && h + Pow2(s) < |bs| && p < |bs| && bs[h + Pow2(s)].List?
    ensures Under(bs, h, p) && Low(p, s) == h <==> Under(bs, h, p) && Low(p, s + 1) == h
  {
    Child(h, s);
    LowStep(p, s);
    if Low(p, s + 1) == h + Pow2(s) { UnderPasses(bs, h, h + Pow2(s), p); }
    LowMono(p, s, s + 1);
  }

  lemma {:induction false} MarkPending<K, V>(bs: seq<Bucket<K, V>>, level: nat, h: nat, s: nat, p: nat)
    requires |bs| == Pow2(level) && Len(h) <= s < level && h < Pow2(s) && p < |bs|
    requires h + Pow2(s) < |bs| && bs[h + Pow2(s)].Pending?
    ensures MarkFrom(bs, level, h, s)[p] == if Under(bs, h, p) && Low(p, s) == h then List([]) else bs[p]
    decreases level - s, 0
  {
    var c := h + Pow2(s);
    Child(h, s);
    var bs0 := bs[c := List([])];
    var a := MarkFrom(bs0, level, c, s + 1);
    assert MarkFrom(bs, level, h, s) == MarkFrom(a, level, h, s + 1);
    forall q | 0 <= q < |bs| ensures a[q] == if Under(bs0, c, q) && Low(q, s + 1) == c then List([]) else bs0[q] {
      MarkFromSpec(bs0, level, c, s + 1, q);
    }
    MarkFromSpec(a, level, h, s + 1, p);
    MarkJoin(bs, a, MarkFrom(a, level, h, s + 1), h, s, p);
  }

  /** Marked below the child `c` first, then below the children further on. */
  lemma {:induction false} MarkJoin<K, V>(
      bs: seq<Bucket<K, V>>, a: seq<Bucket<K, V>>, r: seq<Bucket<K, V>>, h: nat, s: nat, p: nat)
    requires Len(h) <= s && h < Pow2(s) && h + Pow2(s) < |bs| == |a| == |r| && p < |bs| && bs[h + Pow2(s)].Pending?
    requires var bs0 := bs[h + Pow2(s) := List([])];
             forall q :: 0 <= q < |bs| ==> a[q] == if Under(bs0, h + Pow2(s), q) && Low(q, s + 1) == h + Pow2(s)
                 then List([]) else bs0[q]
    requires r[p] == if Under(a, h, p) && Low(p, s + 1) == h then List([]) else a[p]
    ensures r[p] == if Under(bs, h, p) && Low(p, s) == h then List([]) else bs[p]
  {
    var c := h + Pow2(s);
    Child(h, s);
    LowSmall(c, s + 1);
    LowStep(p, s);
    if Low(p, s + 1) == h {
      MarkBeside(bs, a, h, c, s, p);
    } else if Low(p, s + 1) == c {
      MarkBelow(bs, h, c, p);
    }
  }

  lemma {:induction false} MarkBelow<K, V>(bs: seq<Bucket<K, V>>, h: nat, c: nat, p: nat)
    requires p < |bs| && 2 <= c < |bs| && c > h && Parent(c) == h && Low(p, Len(c)) == c && bs[c].Pending?
    ensures Under(bs, h, p) <==> p == c || Under(bs[c := List([])], c, p)
  {
    UnderPasses(bs, h, c, p);
    UnderAgree(bs, bs[c := List([])], c, p);
  }

  /** Marking below one child does not touch what is not below it. */
  lemma {:induction false} MarkBeside<K, V>(bs: seq<Bucket<K, V>>, a: seq<Bucket<K, V>>, h: nat, c: nat, s: nat, p: nat)
    requires p < |bs| == |a| && Low(p, s + 1) == h && c != h
    requires forall q :: 0 <= q < |bs| && Low(q, s + 1) != c ==> a[q] == bs[q]
    requires h < Pow2(s) && c == h + Pow2(s)
    ensures a[p] == bs[p] && (Under(a, h, p) <==> Under(bs, h, p))
  {
    forall q | h < q <= p && OnPath(q, p) ensures bs[q].Pending? <==> a[q].Pending? {
      if Len(q) <= s + 1 { LowMono(p, Len(q), s + 1); } else { LowLow(p, s + 1, Len(q)); }
    }
    UnderAgree(bs, a, h, p);
  }

  lemma {:induction false} MarkSpec<K, V>(bs: seq<Bucket<K, V>>, level: nat, h: nat, p: nat)
    requires Shaped(bs, level) && h < |bs| && p < |bs| && bs[h].List?
    ensures |Mark(bs, level, h)| == |bs|
    ensures Mark(bs, level, h)[p] == if bs[p].Pending? && Root(bs, p) == h then List([]) else bs[p]
  {
    LenLeast(h, level);
    MarkFromSpec(bs, level, h, Len(h), p);
    UnderIsRooted(bs, h, p);
    if Under(bs, h, p) { UnderOnPath(bs, h, p); }
  }

  // ----- distributing nodes

  /** Insert every node at the front of the bucket its whole masked hash code names. */
  function Spread<K, V>(hash: K -> nat, bs: seq<Bucket<K, V>>, level: nat, ns: seq<Node<K, V>>): (r: seq<Bucket<K, V>>)
    requires |bs| == Pow2(level)
    ensures |r| == |bs|
  {
    if ns == [] then bs
    else
      var n := ns[|ns| - 1];
      AddFront(Spread(hash, bs, level, ns[..|ns| - 1]), Low(hash(n.key), level), n)
  }

  /** add_to_bucket. */
  function AddFront<K, V>(bs: seq<Bucket<K, V>>, b: nat, n: Node<K, V>): (r: seq<Bucket<K, V>>)
    requires b < |bs|
    ensures |r| == |bs|
  {
    bs[b := List([n] + if bs[b].List? then bs[b].nodes else [])]
  }

  lemma {:induction false} SpreadSnoc<K, V>(
      hash: K -> nat, bs: seq<Bucket<K, V>>, level: nat, ns: seq<Node<K, V>>, n: Node<K, V>)
    requires |bs| == Pow2(level)
    ensures Spread(hash, bs, level, ns + [n]) == AddFront(Spread(hash, bs, level, ns), Low(hash(n.key), level), n)
  {
    assert (ns + [n])[..|ns|] == ns;
  }

  /** What bucket `b` gets, last first. */
  function Collected<K, V>(hash: K -> nat, level: nat, ns: seq<Node<K, V>>, b: nat): seq<Node<K, V>> {
    if ns == [] then []
    else (if Low(hash(ns[|ns| - 1].key), level) == b then [ns[|ns| - 1]]
        else []) + Collected(hash, level, ns[..|ns| - 1], b)
  }

  lemma {:induction false} SpreadAt<K, V>(
      hash: K -> nat, bs: seq<Bucket<K, V>>, level: nat, ns: seq<Node<K, V>>, b: nat)
    requires |bs| == Pow2(level) && b < |bs|
    requires forall i :: 0 <= i < |ns| ==> bs[Low(hash(ns[i].key), level)].List?
    ensures Spread(hash, bs, level, ns)[b] == if bs[b].List? then List(Collected(hash, level, ns, b) + bs[b].nodes)
        else bs[b]
  {
    if ns == [] {
      if bs[b].List? { assert [] + bs[b].nodes == bs[b].nodes; }
    } else {
      var k := |ns| - 1;
      var front, n := ns[..k], ns[k];
      SpreadAt(hash, bs, level, front, b);
      assert ns[k] == n && bs[Low(hash(n.key), level)].List?;
      if Low(hash(n.key), level) == b {
        assert [n] + (Collected(hash, level, front, b) + bs[b].nodes) == ([n] + Collected(hash, level, front, b))
            + bs[b].nodes;
      } else {
        assert [] + Collected(hash, level, front, b) == Collected(hash, level, front, b);
      }
    }
  }

  lemma {:induction false} CollectedSpec<K(!new), V(!new)>(hash: K -> nat, level: nat, ns: seq<Node<K, V>>, b: nat)
    requires DistinctKeys(ns)
    ensures DistinctKeys(Collected(hash, level, ns, b))
    ensures forall n :: n in Collected(hash, level, ns, b) <==> n in ns && Low(hash(n.key), level) == b
  {
    if ns != [] {
      var k := |ns| - 1;
      var front, last := ns[..k], ns[k];
      CollectedSpec(hash, level, front, b);
      assert ns == front + [last];
      var c := Collected(hash, level, front, b);
      if Low(hash(last.key), level) == b {
        forall i | 0 <= i < |c| ensures c[i].key != last.key {
          assert c[i] in front;
        }
      }
    }
  }

  // ----- one root

  /** Distributing the nodes of the root `r`, after everything rooted in it was marked. */
  function Redistribute<K, V>(hash: K -> nat, bs: seq<Bucket<K, V>>, level: nat, r: nat): seq<Bucket<K, V>>
    requires Shaped(bs, level) && r < |bs| && bs[r].List?
  {
    Resettle(hash, Mark(bs, level, r), level, r, bs[r].nodes)
  }

  /** The list of `r` is emptied node by node; those that stay are kept in their order. */
  function Resettle<K, V>(
      hash: K -> nat, bs: seq<Bucket<K, V>>, level: nat, r: nat, ns: seq<Node<K, V>>): (s: seq<Bucket<K, V>>)
    requires |bs| == Pow2(level) && r < |bs|
    ensures |s| == |bs|
  {
    Spread(hash, bs[r := List(Staying(hash, level, r, ns))], level, Leaving(hash, level, r, ns))
  }

  function Staying<K, V>(hash: K -> nat, level: nat, r: nat, ns: seq<Node<K, V>>): seq<Node<K, V>> {
    if ns == [] then []
    else Staying(hash, level, r, ns[..|ns| - 1]) + if Low(hash(ns[|ns| - 1].key), level) == r then [ns[|ns| - 1]]
        else []
  }

  function Leaving<K, V>(hash: K -> nat, level: nat, r: nat, ns: seq<Node<K, V>>): seq<Node<K, V>> {
    if ns == [] then []
    else Leaving(hash, level, r, ns[..|ns| - 1]) + if Low(hash(ns[|ns| - 1].key), level) == r then []
        else [ns[|ns| - 1]]
  }

  lemma {:induction false} StayOrLeave<K(!new), V(!new)>(hash: K -> nat, level: nat, r: nat, ns: seq<Node<K, V>>)
    requires DistinctKeys(ns)
    ensures DistinctKeys(Staying(hash, level, r, ns)) && DistinctKeys(Leaving(hash, level, r, ns))
    ensures forall n :: n in Staying(hash, level, r, ns) <==> n in ns && Low(hash(n.key), level) == r
    ensures forall n :: n in Leaving(hash, level, r, ns) <==> n in ns && Low(hash(n.key), level) != r
  {
    if ns != [] {
      var k := |ns| - 1;
      var front, last := ns[..k], ns[k];
      StayOrLeave(hash, level, r, front);
      assert ns == front + [last];
      SnocDistinct(Staying(hash, level, r, front), front, last);
      SnocDistinct(Leaving(hash, level, r, front), front, last);
    }
  }

  lemma {:induction false} SnocDistinct<K, V>(some: seq<Node<K, V>>, front: seq<Node<K, V>>, last: Node<K, V>)
    requires DistinctKeys(some) && DistinctKeys(front + [last]) && forall n :: n in some ==> n in front
    ensures DistinctKeys(some + [last])
  {
    forall i | 0 <= i < |some| ensures some[i].key != last.key {
      assert some[i] in front;
      var j :| 0 <= j < |front| && front[j] == some[i];
      assert (front + [last])[j] == some[i] && (front + [last])[|front|] == last;
    }
  }

  /** Marking what is rooted in `r` makes each such bucket its own root. */
  lemma {:induction false} MarkedRoot<K, V>(bs: seq<Bucket<K, V>>, bs': seq<Bucket<K, V>>, r: nat, b: nat)
    requires Rooted(bs) && |bs'| == |bs| && b < |bs|
    requires forall c :: 0 <= c < |bs| ==> (bs'[c].List? <==> bs[c].List? || Root(bs, c) == r)
    ensures Rooted(bs') && Root(bs', b) == if bs[b].Pending? && Root(bs, b) == r then b else Root(bs, b)
    decreases b
  {
    if bs[b].Pending? && Root(bs, b) != r { MarkedRoot(bs, bs', r, Parent(b)); }
  }

  /** What a bucket holds after the nodes of `r` were distributed. */
  predicate Gets<K(==), V(==)>(
      hash: K -> nat, bs: seq<Bucket<K, V>>, bs': seq<Bucket<K, V>>, level: nat, r: nat, b: nat)
    requires Shaped(bs, level) && r < |bs| && bs[r].List? && |bs'| == |bs| && b < |bs|
  {
    var leaving := Leaving(hash, level, r, bs[r].nodes);
    bs'[b] == if b == r then List(Staying(hash, level, r, bs[r].nodes))
              else if bs[b].Pending? && Root(bs, b) == r then List(Collected(hash, level, leaving, b))
              else bs[b]
  }

  lemma {:induction false} NoneCollected<K(!new), V(!new)>(hash: K -> nat, level: nat, ns: seq<Node<K, V>>, b: nat)
    requires forall n :: n in ns ==> Low(hash(n.key), level) != b
    ensures Collected(hash, level, ns, b) == []
  {
    if ns != [] {
      assert ns[|ns| - 1] in ns;
      NoneCollected(hash, level, ns[..|ns| - 1], b);
    }
  }

  /** Where a node of `r` that does not stay belongs. */
  lemma {:induction false} LeavesBelow<K(!new), V(!new)>(
      hash: K -> nat, bs: seq<Bucket<K, V>>, level: nat, m: map<K, V>, r: nat, n: Node<K, V>)
    requires Stores(hash, bs, level, m) && r < |bs| && bs[r].List? && n in Leaving(hash, level, r, bs[r].nodes)
    ensures n in bs[r].nodes && Home(bs, level, hash(n.key)) == r && bs[Low(hash(n.key), level)].Pending?
        && Root(bs, Low(hash(n.key), level)) == r
  {
    assert BucketOk(hash, bs, level, m, r);
    StayOrLeave(hash, level, r, bs[r].nodes);
    assert NodeOk(hash, bs, level, m, r, n);
  }

  /** Every bucket a node leaves for was marked. */
  lemma {:induction false} LeavesMarked<K(!new), V(!new)>(
      hash: K -> nat, bs: seq<Bucket<K, V>>, level: nat, m: map<K, V>, r: nat, i: nat)
    requires Stores(hash, bs, level, m) && r < |bs| && bs[r].List? && i < |Leaving(hash, level, r, bs[r].nodes)|
    ensures |Mark(bs, level, r)| == |bs|
    ensures var b := Low(hash(Leaving(hash, level, r, bs[r].nodes)[i].key), level);
            b != r && Mark(bs, level, r)[b].List?
  {
    var leaving := Leaving(hash, level, r, bs[r].nodes);
    assert leaving[i] in leaving;
    LeavesBelow(hash, bs, level, m, r, leaving[i]);
    MarkSpec(bs, level, r, Low(hash(leaving[i].key), level));
  }

  lemma {:induction false} RedistributeAt<K(!new), V(!new)>(
      hash: K -> nat, bs: seq<Bucket<K, V>>, level: nat, m: map<K, V>, r: nat, b: nat)
    requires Stores(hash, bs, level, m) && r < |bs| && bs[r].List? && b < |bs|
    ensures |Redistribute(hash, bs, level, r)| == |bs| && Gets(hash, bs, Redistribute(hash, bs, level, r), level, r, b)
  {
    var ns := bs[r].nodes;
    var leaving := Leaving(hash, level, r, ns);
    assert BucketOk(hash, bs, level, m, r);
    StayOrLeave(hash, level, r, ns);
    var marked := Mark(bs, level, r);
    MarkSpec(bs, level, r, b);
    var start := marked[r := List(Staying(hash, level, r, ns))];
    forall i | 0 <= i < |leaving| ensures start[Low(hash(leaving[i].key), level)].List? {
      LeavesMarked(hash, bs, level, m, r, i);
    }
    SpreadAt(hash, start, level, leaving, b);
    if b == r || (bs[b].List? && b != r) {
      forall n | n in leaving ensures Low(hash(n.key), level) != b { LeavesBelow(hash, bs, level, m, r, n); }
      NoneCollected(hash, level, leaving, b);
      assert [] + start[b].nodes == start[b].nodes;
    } else {
      assert Collected(hash, level, leaving, b) + [] == Collected(hash, level, leaving, b);
    }
  }

  lemma {:induction false} RedistributeHome<K(!new), V(!new)>(
      hash: K -> nat, bs: seq<Bucket<K, V>>, level: nat, m: map<K, V>, r: nat, h: nat)
    requires Stores(hash, bs, level, m) && r < |bs| && bs[r].List?
    ensures var bs' := Redistribute(hash, bs, level, r);
            Shaped(bs', level) && Home(bs', level, h) == if Home(bs, level, h) == r then Low(h, level)
                else Home(bs, level, h)
  {
    var bs' := Redistribute(hash, bs, level, r);
    forall c | 0 <= c < |bs|
        ensures |bs'| == |bs| && Gets(hash, bs, bs', level, r, c)
        && (bs'[c].List? <==> bs[c].List? || Root(bs, c) == r) {
      RedistributeAt(hash, bs, level, m, r, c);
    }
    assert bs'[0].List? && bs'[1].List?;
    MarkedRoot(bs, bs', r, Low(h, level));
  }

  /** Distributing the nodes of one root keeps what is stored; everything rooted in it is then
      rehashed, and nothing else changes. */
  lemma {:induction false} RedistributeStores<K(!new), V(!new)>(
      hash: K -> nat, bs: seq<Bucket<K, V>>, level: nat, m: map<K, V>, r: nat)
    requires Stores(hash, bs, level, m) && r < |bs| && bs[r].List?
    ensures Stores(hash, Redistribute(hash, bs, level, r), level, m)
  {
    var bs' := Redistribute(hash, bs, level, r);
    RedistributeHome(hash, bs, level, m, r, 0);
    forall b | 0 <= b < |bs'| ensures BucketOk(hash, bs', level, m, b) {
      RedistributeBucket(hash, bs, level, m, r, b);
    }
    forall k | k in m ensures Node(k, m[k]) in bs'[Home(bs', level, hash(k))].nodes {
      RedistributeKey(hash, bs, level, m, r, k);
    }
  }

  lemma {:induction false} RedistributeBucket<K(!new), V(!new)>(
      hash: K -> nat, bs: seq<Bucket<K, V>>, level: nat, m: map<K, V>, r: nat, b: nat)
    requires Stores(hash, bs, level, m) && r < |bs| && bs[r].List? && b < |bs|
    ensures var bs' := Redistribute(hash, bs, level, r);
            Shaped(bs', level) && BucketOk(hash, bs', level, m, b)
  {
    var bs' := Redistribute(hash, bs, level, r);
    RedistributeHome(hash, bs, level, m, r, 0);
    RedistributeAt(hash, bs, level, m, r, b);
    assert BucketOk(hash, bs, level, m, r) && BucketOk(hash, bs, level, m, b);
    var ns := bs[r].nodes;
    var leaving := Leaving(hash, level, r, ns);
    StayOrLeave(hash, level, r, ns);
    CollectedSpec(hash, level, leaving, b);
    if bs'[b].List? {
      forall n | n in bs'[b].nodes ensures NodeOk(hash, bs', level, m, b, n) {
        RedistributeHome(hash, bs, level, m, r, hash(n.key));
        assert NodeOk(hash, bs, level, m, if b == r || bs[b].Pending? then r else b, n);
      }
    }
  }

  lemma {:induction false} RedistributeKey<K(!new), V(!new)>(
      hash: K -> nat, bs: seq<Bucket<K, V>>, level: nat, m: map<K, V>, r: nat, k: K)
    requires Stores(hash, bs, level, m) && r < |bs| && bs[r].List? && k in m
    ensures var bs' := Redistribute(hash, bs, level, r);
            Shaped(bs', level) && Node(k, m[k]) in bs'[Home(bs', level, hash(k))].nodes
  {
    var bs' := Redistribute(hash, bs, level, r);
    var b := Low(hash(k), level);
    RedistributeHome(hash, bs, level, m, r, hash(k));
    RedistributeAt(hash, bs, level, m, r, Home(bs', level, hash(k)));
    assert BucketOk(hash, bs, level, m, r);
    StayOrLeave(hash, level, r, bs[r].nodes);
    CollectedSpec(hash, level, Leaving(hash, level, r, bs[r].nodes), b);
  }

  // ----- the scan of the last segment

  /** Some pending bucket between `lo` and `b` has the root of `p`. */
  ghost predicate Hit<K, V>(start: seq<Bucket<K, V>>, lo: nat, b: nat, p: nat)
    requires Rooted(start) && p < |start| && b <= |start|
  {
    exists d :: lo <= d < b && start[d].Pending? && Root(start, d) == Root(start, p)
  }

  /** After the scan went from `lo` to `b`: the pending buckets are those whose roots were not
      met, and these have the roots they had. */
  ghost predicate Scanned<K, V>(start: seq<Bucket<K, V>>, cur: seq<Bucket<K, V>>, lo: nat, b: nat) {
    && Rooted(start) && Rooted(cur) && |cur| == |start| && b <= |start|
    && (forall p :: 0 <= p < |start| ==> (cur[p].Pending? <==> start[p].Pending? && !Hit(start, lo, b, p)))
    && (forall p :: 0 <= p < |start| && cur[p].Pending? ==> Root(cur, p) == Root(start, p))
  }

  lemma {:induction false} ScanSkip<K, V>(start: seq<Bucket<K, V>>, cur: seq<Bucket<K, V>>, lo: nat, b: nat)
    requires Scanned(start, cur, lo, b) && lo <= b < |start| && cur[b].List?
    ensures Scanned(start, cur, lo, b + 1)
  {
    forall p | 0 <= p < |start| ensures Hit(start, lo, b + 1, p) && start[p].Pending?
        <==> Hit(start, lo, b, p) && start[p].Pending? {
      if Hit(start, lo, b + 1, p) && start[p].Pending? {
        var d :| lo <= d < b + 1 && start[d].Pending? && Root(start, d) == Root(start, p);
        if d == b {
          var e :| lo <= e < b && start[e].Pending? && Root(start, e) == Root(start, b);
          assert Hit(start, lo, b, p);
        }
      }
    }
  }

  lemma {:induction false} ScanRehash<K, V>(
      start: seq<Bucket<K, V>>, cur: seq<Bucket<K, V>>, next: seq<Bucket<K, V>>, lo: nat, b: nat)
    requires Scanned(start, cur, lo, b) && lo <= b < |start| && cur[b].Pending? && |next| == |cur|
    requires forall c :: 0 <= c < |cur| ==> (next[c].List? <==> cur[c].List? || Root(cur, c) == Root(cur, b))
    ensures Scanned(start, next, lo, b + 1)
  {
    assert next[0].List? && next[1].List?;
    forall p | 0 <= p < |start|
      ensures next[p].Pending? <==> start[p].Pending? && !Hit(start, lo, b + 1, p)
      ensures next[p].Pending? ==> Root(next, p) == Root(start, p)
    {
      MarkedRoot(cur, next, Root(cur, b), p);
      if start[p].Pending? && !Hit(start, lo, b, p) && Root(start, p) == Root(start, b) {
        assert start[b].Pending? && Hit(start, lo, b + 1, p);
      }
    }
  }

  /** Whatever is below a pending bucket is pending. */
  predicate Closed<K, V>(bs: seq<Bucket<K, V>>) {
    forall b :: 2 <= b < |bs| && bs[Parent(b)].Pending? ==> bs[b].Pending?
  }

  /** If the pending buckets are closed under descendants, the scan of the last segment meets
      the roots of all of them. */
  lemma {:induction false} ClosedScan<K, V>(start: seq<Bucket<K, V>>, cur: seq<Bucket<K, V>>, level: nat)
    requires Shaped(start, level) && Closed(start) && Scanned(start, cur, Pow2(level - 1), |start|)
    ensures forall p :: 0 <= p < |start| ==> cur[p].List?
  {
    forall p | 0 <= p < |start| ensures cur[p].List? {
      if start[p].Pending? {
        var d := LastBelow(start, level, p);
        assert Hit(start, Pow2(level - 1), |start|, p);
      }
    }
  }

  /** A pending bucket of the last segment with the same root. */
  lemma {:induction false} LastBelow<K, V>(start: seq<Bucket<K, V>>, level: nat, p: nat) returns (d: nat)
    requires Shaped(start, level) && Closed(start) && p < |start| && start[p].Pending?
    ensures Pow2(level - 1) <= d < |start| && start[d].Pending? && Root(start, d) == Root(start, p)
  {
    d := p;
    if p < Pow2(level - 1) {
      LenLeast(p, level - 1);
      Child(p, level - 1);
      d := p + Pow2(level - 1);
    }
  }

  predicate AllRehashed<K, V>(bs: seq<Bucket<K, V>>) { forall b :: 0 <= b < |bs| ==> bs[b].List? }

  /** Without pending buckets, every node is in the bucket its whole masked hash code names. */
  lemma {:induction false} AtMaskedHash<K(!new), V(!new)>(
      hash: K -> nat, bs: seq<Bucket<K, V>>, level: nat, m: map<K, V>, b: nat, i: nat)
    requires Stores(hash, bs, level, m) && AllRehashed(bs) && b < |bs| && i < |bs[b].nodes|
    ensures b == Low(hash(bs[b].nodes[i].key), level)
  {
    assert BucketOk(hash, bs, level, m, b);
    assert bs[b].nodes[i] in bs[b].nodes;
    assert NodeOk(hash, bs, level, m, b, bs[b].nodes[i]);
  }

  lemma {:induction false} SpreadKeepsLists<K, V>(
      hash: K -> nat, bs: seq<Bucket<K, V>>, level: nat, ns: seq<Node<K, V>>, b: nat)
    requires |bs| == Pow2(level) && b < |bs| && bs[b].List?
    ensures Spread(hash, bs, level, ns)[b].List?
  {
    if ns != [] { SpreadKeepsLists(hash, bs, level, ns[..|ns| - 1], b); }
  }

  lemma {:induction false} RedistributeShaped<K, V>(hash: K -> nat, bs: seq<Bucket<K, V>>, level: nat, r: nat)
    requires Shaped(bs, level) && r < |bs| && bs[r].List?
    ensures Shaped(Redistribute(hash, bs, level, r), level)
  {
    MarkSpec(bs, level, r, 0);
    MarkSpec(bs, level, r, 1);
    var start := Mark(bs, level, r)[r := List(Staying(hash, level, r, bs[r].nodes))];
    SpreadKeepsLists(hash, start, level, Leaving(hash, level, r, bs[r].nodes), 0);
    SpreadKeepsLists(hash, start, level, Leaving(hash, level, r, bs[r].nodes), 1);
  }

  /** rehash() at bucket `b`. */
  function ScanStep<K, V>(hash: K -> nat, bs: seq<Bucket<K, V>>, level: nat, b: nat): (r: seq<Bucket<K, V>>)
    requires Shaped(bs, level) && b < |bs|
    ensures Shaped(r, level)
  {
    if bs[b].Pending? then
      RedistributeShaped(hash, bs, level, Root(bs, b));
      Redistribute(hash, bs, level, Root(bs, b))
    else bs
  }

  /** The scan of rehash() from bucket `b` on. */
  function ScanFrom<K, V>(hash: K -> nat, bs: seq<Bucket<K, V>>, level: nat, b: nat): (r: seq<Bucket<K, V>>)
    requires Shaped(bs, level)
    ensures Shaped(r, level)
    decreases Pow2(level) - b
  {
    if b >= Pow2(level) then bs else ScanFrom(hash, ScanStep(hash, bs, level, b), level, b + 1)
  }

  lemma {:induction false} RootsMarked<K(!new), V(!new)>(
      hash: K -> nat, bs: seq<Bucket<K, V>>, level: nat, m: map<K, V>, r: nat)
    requires Stores(hash, bs, level, m) && r < |bs| && bs[r].List?
    ensures var bs' := Redistribute(hash, bs, level, r);
            |bs'| == |bs| && forall c :: 0 <= c < |bs| ==> (bs'[c].List? <==> bs[c].List? || Root(bs, c) == r)
  {
    var bs' := Redistribute(hash, bs, level, r);
    RedistributeAt(hash, bs, level, m, r, 0);
    forall c | 0 <= c < |bs| ensures bs'[c].List? <==> bs[c].List? || Root(bs, c) == r {
      RedistributeAt(hash, bs, level, m, r, c);
    }
  }

  lemma {:induction false} StepStores<K(!new), V(!new)>(
      hash: K -> nat, bs: seq<Bucket<K, V>>, level: nat, m: map<K, V>, b: nat)
    requires Stores(hash, bs, level, m) && b < |bs|
    ensures Stores(hash, ScanStep(hash, bs, level, b), level, m)
  {
    if bs[b].Pending? { RedistributeStores(hash, bs, level, m, Root(bs, b)); }
  }

  lemma {:induction false} StepScans<K(!new), V(!new)>(
      hash: K -> nat, start: seq<Bucket<K, V>>, cur: seq<Bucket<K, V>>, level: nat, m: map<K, V>, lo: nat, b: nat)
    requires Stores(hash, cur, level, m) && Scanned(start, cur, lo, b) && lo <= b < |start|
    ensures Scanned(start, ScanStep(hash, cur, level, b), lo, b + 1)
  {
    if cur[b].Pending? {
      RootsMarked(hash, cur, level, m, Root(cur, b));
      ScanRehash(start, cur, ScanStep(hash, cur, level, b), lo, b);
    } else {
      ScanSkip(start, cur, lo, b);
    }
  }

  lemma {:induction false} ScanFromStores<K(!new), V(!new)>(
      hash: K -> nat, bs: seq<Bucket<K, V>>, level: nat, m: map<K, V>, b: nat)
    requires Stores(hash, bs, level, m)
    ensures Stores(hash, ScanFrom(hash, bs, level, b), level, m)
    decreases Pow2(level) - b
  {
    if b < Pow2(level) {
      StepStores(hash, bs, level, m, b);
      ScanFromStores(hash, ScanStep(hash, bs, level, b), level, m, b + 1);
    }
  }

  /** `end` is what the scan makes of `cur` from bucket `b` on. */
  lemma {:induction false} ScanFromScans<K(!new), V(!new)>(
      hash: K -> nat, start: seq<Bucket<K, V>>, cur: seq<Bucket<K, V>>, level: nat, m: map<K, V>,
                                                           lo: nat, b: nat, end: seq<Bucket<K, V>>)
    requires Stores(hash, cur, level, m) && Scanned(start, cur, lo, b) && lo <= b <= |start|
    requires end == ScanFrom(hash, cur, level, b)
    ensures Scanned(start, end, lo, |start|)
    decreases Pow2(level) - b
  {
    if b < Pow2(level) {
      var next := ScanStep(hash, cur, level, b);
      ScanFromNext(hash, cur, level, b, end);
      StepStores(hash, cur, level, m, b);
      StepScans(hash, start, cur, level, m, lo, b);
      ScanFromScans(hash, start, next, level, m, lo, b + 1, end);
    }
  }

  lemma {:induction false} ScanFromNext<K, V>(
      hash: K -> nat, bs: seq<Bucket<K, V>>, level: nat, b: nat, end: seq<Bucket<K, V>>)
    requires Shaped(bs, level) && b < |bs| && end == ScanFrom(hash, bs, level, b)
    ensures end == ScanFrom(hash, ScanStep(hash, bs, level, b), level, b + 1)
  {}

  lemma {:induction false} ScanStart<K, V>(bs: seq<Bucket<K, V>>, lo: nat)
    requires Rooted(bs) && lo <= |bs|
    ensures Scanned(bs, bs, lo, lo)
  {
    forall p | 0 <= p < |bs| ensures !Hit(bs, lo, lo, p) {}
  }

  /** What rehash() achieves with its scan of the last segment: nothing stored is lost. The
      pending buckets left are exactly those whose roots have no pending bucket of the last
      segment below them when the scan starts; so there are none if the pending buckets were
      closed under descendants then. */
  lemma {:induction false} RehashSpec<K(!new), V(!new)>(
      hash: K -> nat, start: seq<Bucket<K, V>>, level: nat, m: map<K, V>)
    requires Stores(hash, start, level, m)
    ensures var end := ScanFrom(hash, start, level, Pow2(level - 1));
            Stores(hash, end, level, m) && Scanned(start, end, Pow2(level - 1), |start|)
                && (Closed(start) ==> AllRehashed(end))
  {
    var lo := Pow2(level - 1);
    Pow2Mono(level - 1, level);
    ScanStart(start, lo);
    ScanFromScans(hash, start, start, level, m, lo, lo, ScanFrom(hash, start, level, lo));
    ScanFromStores(hash, start, level, m, lo);
    if Closed(start) { ClosedScan(start, ScanFrom(hash, start, level, lo), level); }
  }

  /** Every pending bucket has a pending bucket of the last segment with the same root. */
  ghost predicate Covered<K, V>(bs: seq<Bucket<K, V>>, level: nat)
    requires Shaped(bs, level)
  {
    forall p :: 0 <= p < |bs| && bs[p].Pending? ==> Hit(bs, Pow2(level - 1), |bs|, p)
  }

  /** Exactly when rehash() leaves no bucket pending; then every node is at its whole masked
      hash code. */
  lemma {:induction false} RehashCompletes<K(!new), V(!new)>(
      hash: K -> nat, start: seq<Bucket<K, V>>, level: nat, m: map<K, V>)
    requires Stores(hash, start, level, m)
    ensures var end := ScanFrom(hash, start, level, Pow2(level - 1));
            && (AllRehashed(end) <==> Covered(start, level))
            && (AllRehashed(end) ==>
                  forall b, i :: 0 <= b < |end| && 0 <= i < |end[b].nodes| ==> Low(hash(end[b].nodes[i].key), level) == b)
    ensures Closed(start) ==> Covered(start, level)
  {
    var end := ScanFrom(hash, start, level, Pow2(level - 1));
    RehashSpec(hash, start, level, m);
    ScannedExactly(start, end, level);
    if AllRehashed(end) {
      forall b, i | 0 <= b < |end| && 0 <= i < |end[b].nodes| ensures Low(hash(end[b].nodes[i].key), level) == b {
        AtMaskedHash(hash, end, level, m, b, i);
      }
    }
  }

  lemma {:induction false} ScannedExactly<K, V>(start: seq<Bucket<K, V>>, end: seq<Bucket<K, V>>, level: nat)
    requires Shaped(start, level) && Scanned(start, end, Pow2(level - 1), |start|)
    ensures AllRehashed(end) <==> Covered(start, level)
  {}

  /** The closure is kept when a bucket is split off a rehashed parent, and when pending
      buckets are added. */
  lemma {:induction false} SplitClosed<K, V>(bs: seq<Bucket<K, V>>, bs': seq<Bucket<K, V>>, h: nat)
    requires Closed(bs) && 2 <= h < |bs| && bs[Parent(h)].List? && |bs'| == |bs| && bs'[h].List?
    requires forall c :: 0 <= c < |bs| && c != h ==> (bs'[c].List? <==> bs[c].List?)
    ensures Closed(bs')
  {}

  lemma {:induction false} EnlargedClosed<K, V>(bs: seq<Bucket<K, V>>, level: nat)
    requires Closed(bs) && |bs| == Pow2(level)
    ensures Closed(Enlarged(bs, level, Pending))
  {
    var bs' := Enlarged(bs, level, Pending);
    forall b | 2 <= b < |bs'| && bs'[Parent(b)].Pending? ensures bs'[b].Pending? {
      if b < |bs| { assert bs'[b] == bs[b] && bs'[Parent(b)] == bs[Parent(b)]; }
    }
  }

  // ----- reserving first

  /** The table after reserve. */
  function Reserved<K, V>(bs: seq<Bucket<K, V>>, level: nat, n: nat, fill: Bucket<K, V>): (seq<Bucket<K, V>>, nat)
    requires |bs| == Pow2(level)
    decreases n - Pow2(level)
  {
    if n > Pow2(level) then
      Pow2Mono(level, NextLevel(level));
      Reserved(Enlarged(bs, level, fill), NextLevel(level), n, fill)
    else (bs, level)
  }

  /** The last segment of a table that was enlarged consists of new buckets. */
  lemma {:induction false} ReservedShape<K, V>(bs: seq<Bucket<K, V>>, level: nat, n: nat, fill: Bucket<K, V>)
    requires Shaped(bs, level) && n > Pow2(level)
    ensures var (start, l) := Reserved(bs, level, n, fill);
            && Shaped(start, l) && l > level && bs <= start
            && (forall b :: Pow2(level) <= b < |start| ==> start[b] == fill) && Pow2(level) <= Pow2(l - 1)
    decreases n - Pow2(level)
  {
    var bs', level' := Enlarged(bs, level, fill), NextLevel(level);
    Pow2Mono(level, level');
    Pow2Mono(level, level' - 1);
    assert bs'[0] == bs[0] && bs'[1] == bs[1];
    if n > Pow2(level') {
      ReservedShape(bs', level', n, fill);
      var start := Reserved(bs', level', n, fill).0;
      forall b | Pow2(level) <= b < |start| ensures start[b] == fill {
        if b < |bs'| { assert start[b] == bs'[b]; }
      }
    }
  }

  /** Pending new buckets cover everything: each bucket has a child in the last segment. */
  lemma {:induction false} NewPendingCovers<K, V>(start: seq<Bucket<K, V>>, level: nat)
    requires Shaped(start, level) && forall b :: Pow2(level - 1) <= b < |start| ==> start[b].Pending?
    ensures Covered(start, level)
  {
    forall p | 0 <= p < |start| && start[p].Pending? ensures Hit(start, Pow2(level - 1), |start|, p) {
      var d := p;
      if p < Pow2(level - 1) {
        LenLeast(p, level - 1);
        Child(p, level - 1);
        d := p + Pow2(level - 1);
      }
      assert start[d].Pending? && Root(start, d) == Root(start, p);
    }
  }

  /** Empty new buckets cover nothing. */
  lemma {:induction false} NewEmptyCovers<K, V>(start: seq<Bucket<K, V>>, level: nat)
    requires Shaped(start, level) && forall b :: Pow2(level - 1) <= b < |start| ==> start[b].List?
    ensures Covered(start, level) <==> AllRehashed(start)
  {
    var lo, hi := Pow2(level - 1), |start|;
    forall p | 0 <= p < |start| ensures !Hit(start, lo, hi, p) {}
  }

  /** Before rehash(n): will it leave no bucket pending? If the table is large enough, the last
      segment has to cover the pending buckets; if not, the map has to hold something, so that
      the new buckets are pending, or nothing must be pending. */
  ghost predicate WillComplete<K, V>(bs: seq<Bucket<K, V>>, level: nat, size: nat, n: nat)
    requires Shaped(bs, level)
  {
    if n <= Pow2(level) then Covered(bs, level) else size > 0 || AllRehashed(bs)
  }

  function Fill<K, V>(size: nat): Bucket<K, V> { if size == 0 then List([]) else Pending }

  lemma {:induction false} ReservedCovered<K, V>(bs: seq<Bucket<K, V>>, level: nat, size: nat, n: nat)
    requires Shaped(bs, level)
    ensures var (start, l) := Reserved(bs, level, n, Fill(size));
            Shaped(start, l) && (Covered(start, l) <==> WillComplete(bs, level, size, n))
  {
    if n > Pow2(level) {
      ReservedShape(bs, level, n, Fill(size));
      var (start, l) := Reserved(bs, level, n, Fill<K, V>(size));
      if size > 0 {
        NewPendingCovers(start, l);
      } else {
        NewEmptyCovers(start, l);
        forall b | 0 <= b < |bs| ensures start[b] == bs[b] {}
        assert AllRehashed(start) <==> AllRehashed(bs);
      }
    }
  }

  /** rehash(n) leaves no bucket pending if and only if WillComplete says so beforehand. */
  lemma {:induction false} RehashAnswer<K(!new), V(!new)>(
    hash: K -> nat, bs: seq<Bucket<K, V>>, level: nat, size: nat, n: nat, start: seq<Bucket<K, V>>, l: nat, m: map<K,
        V>)
    requires Shaped(bs, level) && (start, l) == Reserved(bs, level, n, Fill(size)) && Stores(hash, start, l, m)
    ensures AllRehashed(ScanFrom(hash, start, l, Pow2(l - 1))) <==> WillComplete(bs, level, size, n)
  {
    ReservedCovered(bs, level, size, n);
    RehashCompletes(hash, start, l, m);
  }

  lemma {:induction false} ReservedStores<K(!new), V(!new)>(
    hash: K -> nat, bs: seq<Bucket<K, V>>, level: nat, n: nat, m: map<K, V>, fill: Bucket<K, V>)
    requires Stores(hash, bs, level, m) && (fill == Pending || (fill == List([]) && m == map[]))
    ensures var (start, l) := Reserved(bs, level, n, fill); Stores(hash, start, l, m)
    decreases n - Pow2(level)
  {
    if n > Pow2(level) {
      Pow2Mono(level, NextLevel(level));
      EnlargedStores(hash, bs, level, m, fill);
      ReservedStores(hash, Enlarged(bs, level, fill), NextLevel(level), n, m, fill);
    }
  }

  /** With nothing pending in the last segment the scan does nothing. */
  lemma {:induction false} ScanLeaves<K(!new), V(!new)>(
    hash: K -> nat, start: seq<Bucket<K, V>>, level: nat, m: map<K, V>, p: nat)
    requires Stores(hash, start, level, m) && p < |start| && start[p].Pending?
    requires forall b :: Pow2(level - 1) <= b < |start| ==> start[b].List?
    ensures ScanFrom(hash, start, level, Pow2(level - 1))[p].Pending?
  {
    RehashSpec(hash, start, level, m);
    assert !Hit(start, Pow2(level - 1), |start|, p);
  }

  /** The child of a pending bucket is rehashed. */
  lemma {:induction false} NotClosed<K, V>(start: seq<Bucket<K, V>>, level: nat, p: nat)
    requires Shaped(start, level) && p < Pow2(level - 1) && p < |start| && start[p].Pending?
    requires forall b :: Pow2(level - 1) <= b < |start| ==> start[b].List?
    ensures !Closed(start)
  {
    LenLeast(p, level - 1);
    Child(p, level - 1);
    var c := p + Pow2(level - 1);
    assert start[c].List? && start[Parent(c)].Pending?;
  }

  /** In an emptied map, reserving puts rehashed buckets below the pending ones, and the scan
      of rehash() then leaves every one of those pending. */
  lemma {:induction false} EmptiedStaysPending<K(!new), V(!new)>(
    hash: K -> nat, bs: seq<Bucket<K, V>>, level: nat, n: nat, p: nat)
    requires Stores(hash, bs, level, map[]) && n > Pow2(level) && p < |bs| && bs[p].Pending?
    ensures var (start, l) := Reserved(bs, level, n, List([]));
            && Shaped(start, l) && !Closed(start) && |start| > p
            && ScanFrom(hash, start, l, Pow2(l - 1))[p].Pending?
  {
    ReservedShape(bs, level, n, List([]));
    ReservedStores(hash, bs, level, n, map[], List([]));
    var (start, l) := Reserved(bs, level, n, List([]));
    assert start[p] == bs[p];
    ScanLeaves(hash, start, l, map[], p);
    NotClosed(start, l, p);
  }
}
