/** concurrent_hash_map used by one thread: a class that refines a plain map. */
module SerialMap {
  import opened BucketTree
  import opened SerialTable
  import opened SerialRehash

  datatype Option<V> = None | Some(value: V)

  class HashMap<K(==, !new), V(==, !new)> {
    const hash: K -> nat
    var level: nat                        // the mask is 2^level - 1
    var buckets: seq<Bucket<K, V>>
    var size: nat
    ghost var contents: map<K, V>

    ghost predicate Valid()
      reads this
    {
      && Stores(hash, buckets, level, contents)
      && size == |contents| <= Pow2(level) && (level == 1 || level >= 8)
    }

    constructor (hash: K -> nat)
      ensures Valid() && contents == map[] && this.hash == hash && level == 1
    {
      this.hash := hash;
      level, size := 1, 0;
      buckets := [List([]), List([])];
      contents := map[];
    }

    // ----- lazy rehashing

    /** The loop of rehash_bucket: the nodes of the parent that belong below `h` move to `h`. */
    method Split(h: nat)
      requires Stores(hash, buckets, level, contents) && 2 <= h < |buckets| && buckets[h].Pending?
          && buckets[Parent(h)].List?
      modifies this`buckets
      ensures Stores(hash, buckets, level, contents) && |buckets| == |old(buckets)| && buckets[h].List?
      ensures forall c :: 0 <= c < |buckets| && c != h ==> (buckets[c].List? <==> old(buckets)[c].List?)
    {
      var p := Parent(h);
      var keep, moved := buckets[p].nodes, [];
      ghost var ns := keep;
      assert BucketOk(hash, buckets, level, contents, p);
      var i := 0;
      while i < |keep|
        invariant buckets == old(buckets) && 0 <= i <= |keep| && DistinctKeys(keep) && DistinctKeys(moved)
        invariant forall j :: 0 <= j < i ==> !OnPath(h, hash(keep[j].key))
        invariant forall n :: n in moved ==> OnPath(h, hash(n.key))
        invariant forall n :: n in keep || n in moved <==> n in ns
        invariant forall a, b :: a in keep && b in moved ==> a.key != b.key
        decreases |keep| - i
      {
        var n := keep[i];
        if Low(hash(n.key), Len(h)) == h {
          RemoveNode(keep, i);
          MovedDistinct(keep, moved, n);
          keep := keep[..i] + keep[i + 1..];
          moved := [n] + moved;
        } else {
          i := i + 1;
        }
      }
      forall n | n in keep ensures !OnPath(h, hash(n.key)) { var j :| 0 <= j < |keep| && keep[j] == n; }
      SplitStores(hash, buckets, level, contents, h, keep, moved);
      buckets := buckets[p := List(keep)][h := List(moved)];
    }

    /** bucket_accessor::acquire and rehash_bucket: afterwards bucket `b` has its own list. (The
        source marks the bucket before it turns to the parent, to keep other threads out.) */
    method Acquire(b: nat)
      requires Stores(hash, buckets, level, contents) && b < |buckets|
      modifies this`buckets
      ensures Stores(hash, buckets, level, contents) && |buckets| == |old(buckets)| && buckets[b].List?
      ensures forall c :: 0 <= c < |buckets| && old(buckets)[c].List? ==> buckets[c].List?
      ensures forall c :: b < c < |buckets| ==> (buckets[c].List? <==> old(buckets)[c].List?)
      ensures Lazily(old(buckets), buckets, b)
      ensures Closed(old(buckets)) ==> Closed(buckets)
      decreases b
    {
      if buckets[b].Pending? {
        Acquire(Parent(b));
        ghost var was := buckets;
        Split(b);
        if Closed(was) { SplitClosed(was, buckets, b); }
        SameAbove(was, buckets, b);
      }
    }

    // ----- operations

    /** find: answers as the plain map does. */
    method Find(k: K) returns (r: Option<V>)
      requires Valid()
      modifies this`buckets
      ensures Valid() && (Closed(old(buckets)) ==> Closed(buckets))
      ensures r == if k in contents then Some(contents[k]) else None
    {
      var b := Low(hash(k), level);
      Acquire(b);
      SearchHome(hash, buckets, level, contents, k);
      var i := Search(buckets[b].nodes, k);
      r := if i < |buckets[b].nodes| then Some(buckets[b].nodes[i].val) else None;
    }

    /** enable_segment in a map that is not empty. */
    method Grow()
      requires Stores(hash, buckets, level, contents)
      modifies this`buckets, this`level
      ensures Stores(hash, buckets, level, contents) && level == NextLevel(old(level)) && old(buckets) <= buckets
      ensures Lazily(old(buckets), buckets, 0)
      ensures Closed(old(buckets)) ==> Closed(buckets)
    {
      GrownAbove(buckets, level);
      EnlargedStores(hash, buckets, level, contents, Pending);
      if Closed(buckets) { EnlargedClosed(buckets, level); }
      buckets := Enlarged(buckets, level, Pending);
      level := NextLevel(level);
    }

    /** insert: a new key is added, an old one is left alone; the table grows with its load. */
    method Insert(k: K, v: V) returns (added: bool)
      requires Valid()
      modifies this
      ensures Valid() && (Closed(old(buckets)) ==> Closed(buckets))
      ensures added <==> k !in old(contents)
      ensures contents == if added then old(contents)[k := v] else old(contents)
      ensures level == if added && size >= Pow2(old(level)) - 1 then NextLevel(old(level)) else old(level)
      ensures Lazily(old(buckets), buckets, Low(hash(k), old(level)))
    {
      var b := Low(hash(k), level);
      Acquire(b);
      SearchHome(hash, buckets, level, contents, k);
      added := Search(buckets[b].nodes, k) == |buckets[b].nodes|;
      if added {
        Add(k, v, b);
        if size >= Pow2(level) - 1 {
          Pow2Mono(level, NextLevel(level));
          Grow();
        }
      }
    }

    /** insert_new_node, without the growth. */
    method Add(k: K, v: V, b: nat)
      requires Stores(hash, buckets, level, contents) && size == |contents| && k !in contents
      requires b == Low(hash(k), level) && b < |buckets| && buckets[b].List?
      modifies this`buckets, this`size, this`contents
      ensures Stores(hash, buckets, level, contents) && size == |contents| == old(size) + 1
          && contents == old(contents)[k := v]
      ensures Lazily(old(buckets), buckets, b)
      ensures Closed(old(buckets)) ==> Closed(buckets)
    {
      AddStores(hash, buckets, level, contents, Node(k, v));
      if Closed(buckets) { SameClosed(buckets, b, [Node(k, v)] + buckets[b].nodes); }
      SameAbove(buckets, buckets[b := List([Node(k, v)] + buckets[b].nodes)], b);
      size := size + 1;
      buckets := buckets[b := List([Node(k, v)] + buckets[b].nodes)];
      contents := contents[k := v];
    }

    /** erase. */
    method Erase(k: K) returns (erased: bool)
      requires Valid()
      modifies this
      ensures Valid() && (Closed(old(buckets)) ==> Closed(buckets)) && level == old(level)
      ensures erased <==> k in old(contents)
      ensures contents == old(contents) - {k}
      ensures Lazily(old(buckets), buckets, Low(hash(k), level))
    {
      var b := Low(hash(k), level);
      Acquire(b);
      SearchHome(hash, buckets, level, contents, k);
      var i := Search(buckets[b].nodes, k);
      erased := i < |buckets[b].nodes|;
      assert !erased ==> contents - {k} == contents;
      if erased { Remove(k, b, i); }
    }

    /** Unlink the node at position `i` of bucket `b`. */
    method Remove(k: K, b: nat, i: nat)
      requires Stores(hash, buckets, level, contents) && size == |contents| && k in contents
      requires b == Home(buckets, level, hash(k)) && i == Search(buckets[b].nodes, k)
      modifies this`buckets, this`size, this`contents
      ensures Stores(hash, buckets, level, contents) && size == |contents| == old(size) - 1
          && contents == old(contents) - {k}
      ensures Lazily(old(buckets), buckets, b)
      ensures Closed(old(buckets)) ==> Closed(buckets)
    {
      RemoveStores(hash, buckets, level, contents, k, b, i);
      RemoveSize(contents, k);
      UnlinkedClosed(buckets, b, i);
      SameAbove(buckets, Unlinked(buckets, b, i), b);
      buckets := Unlinked(buckets, b, i);
      contents := contents - {k};
      size := size - 1;
    }

    /** internal_equal_range: climbs over pending buckets without changing anything. */
    method EqualRange(k: K) returns (r: Option<V>, b: nat, i: nat)
      requires Valid()
      ensures r == if k in contents then Some(contents[k]) else None
      ensures r.Some? ==>
                b < |buckets| && buckets[b].List? && i < |buckets[b].nodes| &&
                buckets[b].nodes[i] == Node(k, contents[k])
    {
      b := Low(hash(k), level);
      while buckets[b].Pending?
        invariant b < |buckets| && Root(buckets, b) == Home(buckets, level, hash(k))
        decreases b
      {
        b := Parent(b);
      }
      SearchHome(hash, buckets, level, contents, k);
      i := Search(buckets[b].nodes, k);
      r := if i < |buckets[b].nodes| then Some(buckets[b].nodes[i].val) else None;
    }

    // ----- the whole table

    /** reserve: more segments until there are `n` buckets; they are pending unless the map is
        empty. */
    method Reserve(n: nat)
      requires Valid()
      modifies this`buckets, this`level
      ensures Valid() && n <= Pow2(level)
      ensures (buckets, level) == Reserved(old(buckets), old(level), n, Fill(size))
    {
      var fill := Fill<K, V>(size);
      while n > Pow2(level)
        invariant Valid()
        invariant Reserved(buckets, level, n, fill) == Reserved(old(buckets), old(level), n, fill)
        decreases n - Pow2(level)
      {
        EnableSegment(fill);
      }
    }

    /** enable_segment. */
    method EnableSegment(fill: Bucket<K, V>)
      requires Valid() && (fill == Pending || (fill == List([]) && size == 0))
      modifies this`buckets, this`level
      ensures Valid() && buckets == Enlarged(old(buckets), old(level), fill) && level == NextLevel(old(level))
          && Pow2(level) > Pow2(old(level))
    {
      EnlargedStores(hash, buckets, level, contents, fill);
      Pow2Mono(level, NextLevel(level));
      buckets := Enlarged(buckets, level, fill);
      level := NextLevel(level);
    }

    /** One node of `r`: it stays, or it is moved to the front of its bucket. */
    method MoveNode(r: nat, i: nat) returns (next: nat)
      requires |buckets| == Pow2(level) && r < |buckets| && buckets[r].List? && i < |buckets[r].nodes|
      modifies this`buckets
      ensures var list := old(buckets)[r].nodes;
              var c := Low(hash(list[i].key), level);
              if c != r
              then buckets == AddFront(old(buckets)[r := List(list[..i] + list[i + 1..])], c, list[i]) && next == i
              else buckets == old(buckets) && next == i + 1
    {
      var list := buckets[r].nodes;
      var c := Low(hash(list[i].key), level);
      if c != r {
        buckets := buckets[r := List(list[..i] + list[i + 1..])];
        buckets := AddFront(buckets, c, list[i]);
        return i;
      }
      return i + 1;
    }

    /** MoveNode as a step of the whole distribution. */
    method SettleStep(ghost marked: seq<Bucket<K, V>>, r: nat, ghost ns: seq<Node<K, V>>, i: nat, ghost done: nat)
      returns (next: nat)
      requires |marked| == |buckets| == Pow2(level) && r < |buckets| && buckets[r].List? && i < |buckets[r].nodes|
      requires done <= |ns| && i == |Staying(hash, level, r, ns[..done])|
      requires buckets == Settling(hash, marked, level, r, ns, done)
      modifies this`buckets
      ensures done < |ns| && |buckets| == |marked| && next == |Staying(hash, level, r, ns[..done + 1])|
      ensures buckets == Settling(hash, marked, level, r, ns, done + 1) && buckets[r].List?
    {
      SettleNext(hash, marked, level, r, ns, done);
      next := MoveNode(r, i);
    }

    /** The inner loop of rehash(): the nodes of the root `r` that belong elsewhere are moved to
        the buckets named by their whole masked hash codes. */
    method Redistribute(r: nat)
      requires Shaped(buckets, level) && r < |buckets| && buckets[r].List?
      modifies this`buckets
      ensures buckets == SerialRehash.Redistribute(hash, old(buckets), level, r)
    {
      ghost var marked := Mark(buckets, level, r);
      var ns := buckets[r].nodes;
      MarkSpec(buckets, level, r, r);
      buckets := Mark(buckets, level, r);
      var i := 0;
      ghost var done := 0;
      SettleStart(hash, marked, level, r, ns);
      while i < |buckets[r].nodes|
        invariant |marked| == |buckets| == Pow2(level) && level == old(level) && r < |buckets| && buckets[r].List?
        invariant done <= |ns| && i == |Staying(hash, level, r, ns[..done])|
        invariant buckets == Settling(hash, marked, level, r, ns, done)
        decreases |ns| - done
      {
        i := SettleStep(marked, r, ns, i, done);
        done := done + 1;
      }
      SettleEnd(hash, marked, level, r, ns, done);
    }

    /** The outer loop of rehash(): only the last segment is scanned. */
    method ScanLast()
      requires Shaped(buckets, level)
      modifies this`buckets
      ensures Shaped(buckets, level) && buckets == ScanFrom(hash, old(buckets), level, Pow2(level - 1))
    {
      var b := Pow2(level - 1);
      ghost var all := ScanFrom(hash, buckets, level, b);
      while b < |buckets|
        invariant Shaped(buckets, level) && ScanFrom(hash, buckets, level, b) == all
        decreases Pow2(level) - b
      {
        ScanBucket(b, all);
        b := b + 1;
      }
    }

    /** rehash() at one bucket: if it is pending, the nodes of its root are distributed. */
    method ScanBucket(b: nat, ghost all: seq<Bucket<K, V>>)
      requires Shaped(buckets, level) && b < |buckets| && ScanFrom(hash, buckets, level, b) == all
      modifies this`buckets
      ensures Shaped(buckets, level) && ScanFrom(hash, buckets, level, b + 1) == all
    {
      if buckets[b].Pending? {
        var r := Climb(b);
        Redistribute(r);
      }
      assert buckets == ScanStep(hash, old(buckets), level, b);
    }

    /** The do-while loop of rehash() that looks for the root of a pending bucket. */
    method Climb(b: nat) returns (r: nat)
      requires Shaped(buckets, level) && b < |buckets| && buckets[b].Pending?
      ensures r < |buckets| && r == Root(buckets, b) && buckets[r].List?
    {
      r := Parent(b);
      while buckets[r].Pending?
        invariant r < |buckets| && Root(buckets, r) == Root(buckets, b)
        decreases r
      {
        r := Parent(r);
      }
    }

    /** The scan keeps what is stored. */
    method Scan()
      requires Valid()
      modifies this`buckets
      ensures Valid() && buckets == ScanFrom(hash, old(buckets), level, Pow2(level - 1))
    {
      ghost var start := buckets;
      ScanLast();
      ScanFromStores(hash, start, level, contents, Pow2(level - 1));
    }

    /** The scan of a table reserved from `bs`. */
    method ScanReserved(ghost bs: seq<Bucket<K, V>>, ghost l: nat, n: nat)
      requires Valid() && Shaped(bs, l) && (buckets, level) == Reserved(bs, l, n, Fill(size))
      modifies this`buckets
      ensures Valid() && buckets == ScanFrom(hash, old(buckets), level, Pow2(level - 1))
      ensures AllRehashed(buckets) <==> WillComplete(bs, l, size, n)
    {
      RehashAnswer(hash, bs, l, size, n, buckets, level, contents);
      Scan();
    }

    /** rehash(n): what is stored does not change; the table is the one ScanFrom computes from
        the reserved one, `start`. No bucket is left pending if and only if WillComplete said so
        of the table, its size and `n` before the call. */
    method Rehash(n: nat) returns (ghost start: seq<Bucket<K, V>>)
      requires Valid()
      modifies this`buckets, this`level
      ensures Valid() && n <= Pow2(level)
      ensures (start, level) == Reserved(old(buckets), old(level), n, Fill(size))
      ensures Shaped(start, level) && buckets == ScanFrom(hash, start, level, Pow2(level - 1))
      ensures AllRehashed(buckets) <==> WillComplete(old(buckets), old(level), size, n)
    {
      Reserve(n);
      start := buckets;
      ScanReserved(old(buckets), old(level), n);
    }

    /** clear. */
    method Clear()
      requires Valid()
      modifies this
      ensures Valid() && contents == map[] && level == 1 && buckets == [List([]), List([])]
    {
      level, size := 1, 0;
      buckets := [List([]), List([])];
      contents := map[];
    }
  }

  // ----- laziness

  /** Every bucket from `b` on is pending. */
  ghost predicate PendingFrom<K, V>(bs: seq<Bucket<K, V>>, b: nat)
    decreases |bs| - b
  {
    b < |bs| ==> bs[b].Pending? && PendingFrom(bs, b + 1)
  }

  /** Nothing above `b` was rehashed, and buckets that are new are pending. */
  ghost predicate Lazily<K, V>(bs: seq<Bucket<K, V>>, bs': seq<Bucket<K, V>>, b: nat) {
    forall c: nat :: b < c && PendingFrom(bs, c) ==> PendingFrom(bs', c)
  }

  lemma {:induction false} PendingFromAll<K, V>(bs: seq<Bucket<K, V>>, b: nat)
    ensures PendingFrom(bs, b) <==> forall c :: b <= c < |bs| ==> bs[c].Pending?
    decreases |bs| - b
  {
    if b < |bs| { PendingFromAll(bs, b + 1); }
  }

  lemma {:induction false} SameAbove<K, V>(bs: seq<Bucket<K, V>>, bs': seq<Bucket<K, V>>, b: nat)
    requires |bs'| == |bs| && forall c :: b < c < |bs| ==> (bs'[c].List? <==> bs[c].List?)
    ensures Lazily(bs, bs', b)
  {
    forall c: nat | b < c && PendingFrom(bs, c) ensures PendingFrom(bs', c) {
      PendingFromAll(bs, c);
      PendingFromAll(bs', c);
    }
  }

  lemma {:induction false} GrownAbove<K, V>(bs: seq<Bucket<K, V>>, level: nat)
    requires |bs| == Pow2(level)
    ensures Lazily(bs, Enlarged(bs, level, Pending), 0)
  {
    var bs' := Enlarged(bs, level, Pending);
    forall c: nat | 0 < c && PendingFrom(bs, c) ensures PendingFrom(bs', c) {
      PendingFromAll(bs, c);
      PendingFromAll(bs', c);
    }
  }

  /** One entry inserted into a new map and erased again: the buckets the insertion added are
      pending. */
  method InsertErase() returns (m: HashMap<nat, nat>)
    ensures fresh(m) && m.Valid() && m.contents == map[] && m.level == 8 && PendingFrom(m.buckets, 2)
  {
    m := new HashMap<nat, nat>((_: nat) => 0);
    LowSmall(0, 1);
    LowSmall(0, 8);
    assert PendingFrom(m.buckets, 2);
    var added := m.Insert(0, 0);
    var erased := m.Erase(0);
  }

  /** rehash(512) then leaves them pending. */
  method InsertEraseRehash() returns (m: HashMap<nat, nat>)
    ensures m.Valid() && m.contents == map[] && m.level == 9 && |m.buckets| == 512
    ensures forall p :: 2 <= p < 256 ==> m.buckets[p].Pending?
  {
    m := InsertErase();
    ghost var bs := m.buckets;
    ghost var start := m.Rehash(512);
    assert Pow2(8) == 256 && Pow2(9) == 512;
    forall p | 2 <= p < 256 ensures m.buckets[p].Pending? {
      PendingFromAll(bs, 2);
      EmptiedStaysPending(m.hash, bs, 8, 512, p);
    }
  }

  /** The table while the nodes of `r` are being moved, the first `done` of them being done. */
  function Settling<K, V>(
      hash: K -> nat, marked: seq<Bucket<K, V>>, level: nat, r: nat, ns: seq<Node<K, V>>,
      done: nat): (s: seq<Bucket<K, V>>)
    requires |marked| == Pow2(level) && r < |marked| && done <= |ns|
    ensures |s| == |marked|
  {
    Spread(hash, marked, level, Leaving(hash, level, r, ns[..done]))[
        r := List(Staying(hash, level, r, ns[..done]) + ns[done..])]
  }

  lemma {:induction false} SettleStart<K, V>(
      hash: K -> nat, marked: seq<Bucket<K, V>>, level: nat, r: nat, ns: seq<Node<K, V>>)
    requires |marked| == Pow2(level) && r < |marked| && marked[r] == List(ns)
    ensures Settling(hash, marked, level, r, ns, 0) == marked
    ensures Staying(hash, level, r, ns[..0]) == []
  {
    assert ns[..0] == [] && [] + ns[0..] == ns;
  }

  /** One node: it stays, or it goes to the front of another bucket. */
  lemma {:induction false} SettleNext<K, V>(
      hash: K -> nat, marked: seq<Bucket<K, V>>, level: nat, r: nat, ns: seq<Node<K, V>>, done: nat)
    requires |marked| == Pow2(level) && r < |marked| && done <= |ns|
    requires |Staying(hash, level, r, ns[..done])| < |Staying(hash, level, r, ns[..done]) + ns[done..]|
    ensures done < |ns|
    ensures var bs := Settling(hash, marked, level, r, ns, done);
            var i := |Staying(hash, level, r, ns[..done])|;
            var list := bs[r].nodes;
            var c := Low(hash(list[i].key), level);
            if c != r
            then Settling(hash, marked, level, r, ns, done + 1) ==
                 AddFront(bs[r := List(list[..i] + list[i + 1..])], c, list[i])
                 && |Staying(hash, level, r, ns[..done + 1])| == i
            else Settling(hash, marked, level, r, ns, done + 1) == bs
                 && |Staying(hash, level, r, ns[..done + 1])| == i + 1
  {
    SettleOne(hash, level, r, ns, done);
    var n, i := ns[done], |Staying(hash, level, r, ns[..done])|;
    var list := Staying(hash, level, r, ns[..done]) + ns[done..];
    assert list[i] == n && Settling(hash, marked, level, r, ns, done)[r].nodes == list;
    if Low(hash(n.key), level) != r {
      SettleLeave(hash, marked, level, r, ns, done);
    } else {
      SettleStay(hash, marked, level, r, ns, done);
    }
  }

  lemma {:induction false} SettleOne<K, V>(hash: K -> nat, level: nat, r: nat, ns: seq<Node<K, V>>, done: nat)
    requires done < |ns|
    ensures var stays := Low(hash(ns[done].key), level) == r;
            && Staying(hash, level, r, ns[..done + 1]) == Staying(hash, level, r, ns[..done]) + (if stays
                then [ns[done]] else [])
            && Leaving(hash, level, r, ns[..done + 1]) == Leaving(hash, level, r, ns[..done]) + (if stays then []
                else [ns[done]])
            && ns[done..] == [ns[done]] + ns[done + 1..]
  {
    assert ns[..done + 1][..done] == ns[..done];
  }

  lemma {:induction false} SettleLeave<K, V>(
      hash: K -> nat, marked: seq<Bucket<K, V>>, level: nat, r: nat, ns: seq<Node<K, V>>, done: nat)
    requires |marked| == Pow2(level) && r < |marked| && done < |ns| && Low(hash(ns[done].key), level) != r
    ensures var list := Staying(hash, level, r, ns[..done]) + ns[done..];
            var i := |Staying(hash, level, r, ns[..done])|;
            Settling(hash, marked, level, r, ns, done + 1)
              == AddFront(Settling(hash, marked, level, r, ns, done)[r := List(list[..i] + list[i + 1..])],
                  Low(hash(ns[done].key), level), ns[done])
  {
    SettleOne(hash, level, r, ns, done);
    var staying := Staying(hash, level, r, ns[..done]);
    var list := staying + ns[done..];
    assert list[..|staying|] + list[|staying| + 1..] == staying + ns[done + 1..];
    SpreadSnoc(hash, marked, level, Leaving(hash, level, r, ns[..done]), ns[done]);
    assert staying + [] == staying;
  }

  lemma {:induction false} SettleStay<K, V>(
      hash: K -> nat, marked: seq<Bucket<K, V>>, level: nat, r: nat, ns: seq<Node<K, V>>, done: nat)
    requires |marked| == Pow2(level) && r < |marked| && done < |ns| && Low(hash(ns[done].key), level) == r
    ensures Settling(hash, marked, level, r, ns, done + 1) == Settling(hash, marked, level, r, ns, done)
  {
    SettleOne(hash, level, r, ns, done);
    var staying, leaving := Staying(hash, level, r, ns[..done]), Leaving(hash, level, r, ns[..done]);
    assert (staying + [ns[done]]) + ns[done + 1..] == staying + ns[done..];
    assert leaving + [] == leaving;
  }

  /** Nodes that leave `r` do not mind what `r` holds. */
  lemma {:induction false} SpreadBeside<K, V>(
      hash: K -> nat, bs: seq<Bucket<K, V>>, level: nat, ns: seq<Node<K, V>>, r: nat, x: Bucket<K, V>)
    requires |bs| == Pow2(level) && r < |bs| && forall i :: 0 <= i < |ns| ==> Low(hash(ns[i].key), level) != r
    ensures Spread(hash, bs[r := x], level, ns) == Spread(hash, bs, level, ns)[r := x]
  {
    if ns != [] { SpreadBeside(hash, bs, level, ns[..|ns| - 1], r, x); }
  }

  lemma {:induction false} LeavingElsewhere<K, V>(hash: K -> nat, level: nat, r: nat, ns: seq<Node<K, V>>, i: nat)
    requires i < |Leaving(hash, level, r, ns)|
    ensures Low(hash(Leaving(hash, level, r, ns)[i].key), level) != r
  {
    if i < |Leaving(hash, level, r, ns[..|ns| - 1])| { LeavingElsewhere(hash, level, r, ns[..|ns| - 1], i); }
  }

  lemma {:induction false} SettleEnd<K, V>(
      hash: K -> nat, marked: seq<Bucket<K, V>>, level: nat, r: nat, ns: seq<Node<K, V>>, done: nat)
    requires |marked| == Pow2(level) && r < |marked| && done <= |ns|
    requires |Staying(hash, level, r, ns[..done])| >= |Staying(hash, level, r, ns[..done]) + ns[done..]|
    ensures Settling(hash, marked, level, r, ns, done) == Resettle(hash, marked, level, r, ns)
  {
    assert done == |ns| && ns[..done] == ns && ns[done..] == [];
    var leaving, staying := Leaving(hash, level, r, ns), Staying(hash, level, r, ns);
    assert staying + [] == staying;
    forall i | 0 <= i < |leaving| ensures Low(hash(leaving[i].key), level) != r {
      LeavingElsewhere(hash, level, r, ns, i);
    }
    SpreadBeside(hash, marked, level, leaving, r, List(staying));
  }

  lemma {:induction false} UnlinkedClosed<K, V>(bs: seq<Bucket<K, V>>, b: nat, i: nat)
    requires b < |bs| && bs[b].List? && i < |bs[b].nodes|
    ensures Closed(bs) ==> Closed(Unlinked(bs, b, i))
  {}

  lemma {:induction false} RemoveSize<K, V>(m: map<K, V>, k: K)
    requires k in m
    ensures |m - {k}| == |m| - 1
  {
    assert (m - {k}).Keys == m.Keys - {k};
    assert |m.Keys| == |m| && |(m - {k}).Keys| == |m - {k}|;
  }

  lemma {:induction false} SameClosed<K, V>(bs: seq<Bucket<K, V>>, b: nat, ns: seq<Node<K, V>>)
    requires Closed(bs) && b < |bs| && bs[b].List?
    ensures Closed(bs[b := List(ns)])
  {}

  lemma {:induction false} MovedDistinct<K, V>(keep: seq<Node<K, V>>, moved: seq<Node<K, V>>, n: Node<K, V>)
    requires DistinctKeys(moved) && n in keep && forall a, b :: a in keep && b in moved ==> a.key != b.key
    ensures DistinctKeys([n] + moved)
  {
    assert forall i :: 0 <= i < |moved| ==> moved[i] in moved;
  }
}
