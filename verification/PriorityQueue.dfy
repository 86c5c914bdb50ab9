/** concurrent_priority_queue::handle_operations: one batch of pushes and pops over a
    vector whose first `mark` elements are a heap and whose other elements wait to be
    merged.  The batch answers pops out of order; it is correct because some order of
    its operations on an ideal priority queue gives the same answers. */
module PriorityQueue {
  import opened Heap

  /** An operation of the batch; `fits` is false when push_back throws. */
  datatype Op<T> = Push(elem: T, fits: bool) | Pop

  datatype Outcome<T> = Waiting | Pushed | Threw | Popped(elem: T) | Empty

  // ----- the ideal priority queue

  /** `out` is an allowed answer of the ideal queue holding `q`. */
  ghost predicate Allows<T(!new)>(lt: (T, T) -> bool, q: multiset<T>, op: Op<T>, out: Outcome<T>) {
    match op
    case Push(_, fits) => if fits then out.Pushed? else out.Threw?
    case Pop =>
      || (out.Empty? && q == multiset{})
      || (out.Popped? && out.elem in q && forall y :: y in q ==> !lt(out.elem, y))
  }

  ghost function After<T>(q: multiset<T>, op: Op<T>, out: Outcome<T>): multiset<T> {
    if op.Push? && op.fits then q + multiset{op.elem}
    else if op.Pop? && out.Popped? then q - multiset{out.elem}
    else q
  }

  /** Operation number `idx` of the batch, taking effect with answer `out`. */
  datatype Event<T> = Event(idx: nat, op: Op<T>, out: Outcome<T>)

  ghost function Ideal<T>(q: multiset<T>, evs: seq<Event<T>>): multiset<T> {
    if evs == [] then q
    else
      var k := |evs| - 1;
      After(Ideal(q, evs[..k]), evs[k].op, evs[k].out)
  }

  /** Starting with `q`, the ideal queue can answer these operations in this order. */
  ghost predicate Legal<T(!new)>(lt: (T, T) -> bool, q: multiset<T>, evs: seq<Event<T>>) {
    evs == [] ||
    var k := |evs| - 1;
    Legal(lt, q, evs[..k]) && Allows(lt, Ideal(q, evs[..k]), evs[k].op, evs[k].out)
  }

  ghost function Indices<T>(evs: seq<Event<T>>): multiset<nat> {
    if evs == [] then multiset{} else Indices(evs[..|evs| - 1]) + multiset{evs[|evs| - 1].idx}
  }

  /** Each number below `n` once. */
  ghost function UpTo(n: nat): multiset<nat> {
    if n == 0 then multiset{} else UpTo(n - 1) + multiset{n - 1}
  }

  lemma {:induction false} UpToOnce(n: nat, i: nat)
    ensures UpTo(n)[i] == if i < n then 1 else 0
  {
    if n > 0 { UpToOnce(n - 1, i); }
  }

  lemma {:induction false} Append<T(!new)>(lt: (T, T) -> bool, q: multiset<T>, evs: seq<Event<T>>, e: Event<T>)
    requires Legal(lt, q, evs) && Allows(lt, Ideal(q, evs), e.op, e.out)
    ensures Legal(lt, q, evs + [e])
    ensures Ideal(q, evs + [e]) == After(Ideal(q, evs), e.op, e.out)
    ensures Indices(evs + [e]) == Indices(evs) + multiset{e.idx}
  {
    assert (evs + [e])[..|evs|] == evs;
  }

  lemma {:induction false} IndexCounts<T>(evs: seq<Event<T>>, k: nat)
    requires k < |evs|
    ensures Indices(evs)[evs[k].idx] >= 1
  {
    if k < |evs| - 1 { IndexCounts(evs[..|evs| - 1], k); }
  }

  /** Every event is an operation of the batch with the answer that was recorded. */
  ghost predicate Matches<T>(ops: seq<Op<T>>, outs: seq<Outcome<T>>, evs: seq<Event<T>>) {
    |outs| <= |ops| &&
    forall k :: 0 <= k < |evs| ==>
      evs[k].idx < |outs| && evs[k].op == ops[evs[k].idx] && evs[k].out == outs[evs[k].idx]
  }

  /** The batch is linearizable: one event per operation, in an order the ideal queue allows,
      taking the contents from `q` to `q'`. */
  ghost predicate Linearizes<T(!new)>(
    lt: (T, T) -> bool, q: multiset<T>, ops: seq<Op<T>>, outs: seq<Outcome<T>>, q': multiset<T>, evs: seq<Event<T>>)
  {
    && |outs| == |ops|
    && Matches(ops, outs, evs) && Indices(evs) == UpTo(|ops|)
    && Legal(lt, q, evs) && Ideal(q, evs) == q'
  }

  // ----- the state in the middle of a batch

  /** Each loose element is a push of the batch that has not taken effect yet; `owner`
      names it. */
  ghost predicate Shape<T>(lt: (T, T) -> bool, ops: seq<Op<T>>, d: seq<T>, mark: nat, owner: seq<nat>) {
    && IsHeap(lt, d, mark) && |owner| == |d| - mark
    && (forall k :: 0 <= k < |owner| ==> owner[k] < |ops| && ops[owner[k]] == Push(d[mark + k], true))
  }

  /** The operations that took effect so far lead from `q` to `h`. */
  ghost predicate Log<T(!new)>(lt: (T, T) -> bool, q: multiset<T>, evs: seq<Event<T>>, h: multiset<T>) {
    Legal(lt, q, evs) && Ideal(q, evs) == h
  }

  lemma {:induction false} LogStep<T(!new)>(
      lt: (T, T) -> bool, q: multiset<T>, evs: seq<Event<T>>, h: multiset<T>, e: Event<T>)
    requires Log(lt, q, evs, h) && Allows(lt, h, e.op, e.out)
    ensures Log(lt, q, evs + [e], After(h, e.op, e.out))
    ensures Indices(evs + [e]) == Indices(evs) + multiset{e.idx}
  {
    Append(lt, q, evs, e);
  }

  function Release<T>(x: T, i: nat): Event<T> { Event(i, Push(x, true), Pushed) }
  function Take<T>(x: T, i: nat): Event<T> { Event(i, Pop, Popped(x)) }

  /** One more operation takes effect. */
  lemma {:induction false} LogOne<T(!new)>(
      lt: (T, T) -> bool, q: multiset<T>, evs: seq<Event<T>>, h: multiset<T>, e: Event<T>)
    returns (evs': seq<Event<T>>)
    requires Log(lt, q, evs, h) && Allows(lt, h, e.op, e.out)
    ensures Log(lt, q, evs', After(h, e.op, e.out)) && Indices(evs') == Indices(evs) + multiset{e.idx}
    ensures |evs'| == |evs| + 1 && evs <= evs' && evs'[|evs|] == e
  {
    LogStep(lt, q, evs, h, e);
    evs' := evs + [e];
  }

  /** A push immediately popped: allowed when nothing in the queue is above it. */
  lemma {:induction false} PushThenPop<T(!new)>(
      lt: (T, T) -> bool, q: multiset<T>, evs: seq<Event<T>>, h: multiset<T>, x: T, p: nat, i: nat)
    returns (evs': seq<Event<T>>)
    requires StrictWeak(lt) && Log(lt, q, evs, h) && forall y :: y in h ==> !lt(x, y)
    ensures Log(lt, q, evs', h) && Indices(evs') == Indices(evs) + multiset{p} + multiset{i}
    ensures |evs'| == |evs| + 2 && evs <= evs' && evs'[|evs|] == Release(x, p) && evs'[|evs| + 1] == Take(x, i)
  {
    var e := LogOne(lt, q, evs, h, Release(x, p));
    evs' := LogOne(lt, q, e, h + multiset{x}, Take(x, i));
    assert h + multiset{x} - multiset{x} == h;
  }

  lemma {:induction false} HeapElement<T(!new)>(lt: (T, T) -> bool, d: seq<T>, mark: nat, y: T)
    requires StrictWeak(lt) && IsHeap(lt, d, mark) && y in multiset(d[..mark])
    ensures !lt(d[0], y)
  {
    assert y in d[..mark];
    var k :| 0 <= k < mark && d[..mark][k] == y;
    RootIsMax(lt, d, mark, k);
  }

  /** The root may be popped. */
  lemma {:induction false} PopRoot<T(!new)>(
      lt: (T, T) -> bool, q: multiset<T>, evs: seq<Event<T>>, d: seq<T>, mark: nat, i: nat)
    returns (evs': seq<Event<T>>)
    requires StrictWeak(lt) && IsHeap(lt, d, mark) && 0 < mark && Log(lt, q, evs, multiset(d[..mark]))
    ensures Log(lt, q, evs', multiset(d[..mark]) - multiset{d[0]}) && Indices(evs') == Indices(evs) + multiset{i}
    ensures |evs'| == |evs| + 1 && evs <= evs' && evs'[|evs|] == Take(d[0], i)
  {
    assert d[..mark][0] == d[0];
    forall y | y in multiset(d[..mark]) ensures !lt(d[0], y) { HeapElement(lt, d, mark, y); }
    evs' := LogOne(lt, q, evs, multiset(d[..mark]), Take(d[0], i));
  }

  /** A loose element above the root: nothing in the heap is above it. */
  lemma {:induction false} LastIsMax<T(!new)>(lt: (T, T) -> bool, d: seq<T>, mark: nat)
    requires StrictWeak(lt) && IsHeap(lt, d, mark) && mark < |d| && lt(d[0], d[|d| - 1])
    ensures forall y :: y in multiset(d[..mark]) ==> !lt(d[|d| - 1], y)
  {
    forall y | y in multiset(d[..mark]) ensures !lt(d[|d| - 1], y) { HeapElement(lt, d, mark, y); }
  }

  lemma {:induction false} ShapePop<T>(lt: (T, T) -> bool, ops: seq<Op<T>>, d: seq<T>, mark: nat, owner: seq<nat>)
    requires Shape(lt, ops, d, mark, owner) && mark < |d|
    ensures Shape(lt, ops, d[..|d| - 1], mark, owner[..|owner| - 1])
    ensures d[..|d| - 1][..mark] == d[..mark]
    ensures owner[|owner| - 1] < |ops| && ops[owner[|owner| - 1]] == Push(d[|d| - 1], true)
  {
    assert ops[owner[|owner| - 1]] == Push(d[mark + (|owner| - 1)], true);
  }

  lemma {:induction false} ShapeReheap<T(!new)>(
      lt: (T, T) -> bool, ops: seq<Op<T>>, d: seq<T>, mark: nat, owner: seq<nat>)
    requires StrictWeak(lt) && Shape(lt, ops, d, mark, owner) && 0 < mark < |d|
    ensures Shape(lt, ops, Reheaped(lt, d, mark), mark, owner[..|owner| - 1])
  {
    ReheapedIsHeap(lt, d, mark);
    ReheapedTail(lt, d, mark);
    var r := Reheaped(lt, d, mark);
    forall k | 0 <= k < |owner| - 1 ensures owner[k] < |ops| && ops[owner[k]] == Push(r[mark + k], true) {
      assert r[mark + k] == d[mark + k];
    }
  }

  lemma {:induction false} TailMultiset<T>(r: seq<T>, d: seq<T>, mark: nat)
    requires 0 < mark < |d| && |r| == |d| - 1 && multiset(r) == multiset(d) - multiset{d[0]}
    requires r[mark..] == d[mark..|d| - 1]
    ensures multiset(r[..mark]) == multiset(d[..mark]) - multiset{d[0]} + multiset{d[|d| - 1]}
  {
    var m := |d| - 1;
    var a, b, t := multiset(r[..mark]), multiset(d[..mark]), multiset(d[mark..m]);
    assert r == r[..mark] + r[mark..];
    assert multiset(r) == a + t;
    assert d == d[..mark] + (d[mark..m] + [d[m]]);
    assert multiset(d) == b + (t + multiset{d[m]});
    assert d[..mark][0] == d[0];
    Cancel(a, b, t, d[0], d[m]);
  }

  lemma {:induction false} Cancel<T>(a: multiset<T>, b: multiset<T>, t: multiset<T>, x: T, y: T)
    requires x in b && a + t == b + (t + multiset{y}) - multiset{x}
    ensures a == b - multiset{x} + multiset{y}
  {
    forall z ensures a[z] == (b - multiset{x} + multiset{y})[z] {
      assert (a + t)[z] == (b + (t + multiset{y}) - multiset{x})[z];
    }
  }

  /** The refilled heap holds the old one without its root, plus the last element. */
  lemma {:induction false} RefilledHeap<T(!new)>(lt: (T, T) -> bool, d: seq<T>, mark: nat)
    requires 0 < mark < |d|
    ensures multiset(Reheaped(lt, d, mark)[..mark]) == multiset(d[..mark]) - multiset{d[0]} + multiset{d[|d| - 1]}
  {
    var r := Reheaped(lt, d, mark);
    ReheapedKeeps(lt, d, mark);
    ReheapedTail(lt, d, mark);
    assert r[mark..] == d[mark..|d| - 1];
    TailMultiset(r, d, mark);
  }

  /** With no heap at all, the last loose element takes the place of the first. */
  lemma {:induction false} ShapeFirst<T(!new)>(lt: (T, T) -> bool, ops: seq<Op<T>>, d: seq<T>, owner: seq<nat>)
    requires Shape(lt, ops, d, 0, owner) && 0 < |d|
    ensures var owner' := owner[0 := owner[|owner| - 1]][..|owner| - 1];
            && Shape(lt, ops, Reheaped(lt, d, 0), 0, owner')
            && multiset(owner') == multiset(owner) - multiset{owner[0]}
    ensures owner[0] < |ops| && ops[owner[0]] == Push(d[0], true)
  {
    var n := |owner| - 1;
    var r, owner' := Reheaped(lt, d, 0), owner[0 := owner[n]][..n];
    assert ops[owner[0]] == Push(d[0 + 0], true);
    assert r == d[0 := d[n]][..n];
    forall k | 0 <= k < |owner'| ensures owner'[k] < |ops| && ops[owner'[k]] == Push(r[0 + k], true) {
      var j := if k == 0 then n else k;
      assert ops[owner[j]] == Push(d[0 + j], true);
    }
    FillAndDrop(owner, 0, owner[n]);
  }

  ghost function ReleaseAll<T>(xs: seq<T>, owner: seq<nat>): seq<Event<T>>
    requires |xs| == |owner|
  {
    if xs == [] then [] else ReleaseAll(xs[..|xs| - 1], owner[..|xs| - 1]) + [Release(xs[|xs| - 1], owner[|xs| - 1])]
  }

  lemma {:induction false} SplitLast<T>(h: multiset<T>, xs: seq<T>)
    requires |xs| > 0
    ensures h + multiset(xs) == h + multiset(xs[..|xs| - 1]) + multiset{xs[|xs| - 1]}
  {
    assert xs == xs[..|xs| - 1] + [xs[|xs| - 1]];
  }

  /** Merging: all remaining pushes take effect, in any order. */
  lemma {:induction false} LogReleaseAll<T(!new)>(
    lt: (T, T) -> bool, q: multiset<T>, evs: seq<Event<T>>, h: multiset<T>, xs: seq<T>, owner: seq<nat>)
    requires |xs| == |owner| && Log(lt, q, evs, h)
    ensures Log(lt, q, evs + ReleaseAll(xs, owner), h + multiset(xs))
    ensures Indices(evs + ReleaseAll(xs, owner)) == Indices(evs) + multiset(owner)
  {
    if xs == [] {
      assert evs + ReleaseAll(xs, owner) == evs;
    } else {
      var k := |xs| - 1;
      var r := ReleaseAll(xs[..k], owner[..k]);
      LogReleaseAll(lt, q, evs, h, xs[..k], owner[..k]);
      LogAppend(lt, q, evs + r, h + multiset(xs[..k]), Indices(evs) + multiset(owner[..k]), xs[k], owner[k]);
      assert ReleaseAll(xs, owner) == r + [Release(xs[k], owner[k])];
      assert evs + (r + [Release(xs[k], owner[k])]) == evs + r + [Release(xs[k], owner[k])];
      SplitLast(h, xs);
      SplitLast(Indices(evs), owner);
    }
  }

  lemma {:induction false} LogAppend<T(!new)>(
    lt: (T, T) -> bool, q: multiset<T>, e: seq<Event<T>>, h: multiset<T>, ix: multiset<nat>, x: T, p: nat)
    requires Log(lt, q, e, h) && Indices(e) == ix
    ensures Log(lt, q, e + [Release(x, p)], h + multiset{x}) && Indices(e + [Release(x, p)]) == ix + multiset{p}
  {
    LogStep(lt, q, e, h, Release(x, p));
  }

  lemma {:induction false} ReleaseAllMembers<T>(xs: seq<T>, owner: seq<nat>, k: nat)
    requires |xs| == |owner| && k < |ReleaseAll(xs, owner)|
    ensures exists j :: 0 <= j < |xs| && ReleaseAll(xs, owner)[k] == Release(xs[j], owner[j])
  {
    var n := |xs| - 1;
    if k < |ReleaseAll(xs[..n], owner[..n])| {
      ReleaseAllMembers(xs[..n], owner[..n], k);
      var j :| 0 <= j < n && ReleaseAll(xs[..n], owner[..n])[k] == Release(xs[..n][j], owner[..n][j]);
      assert ReleaseAll(xs, owner)[k] == Release(xs[j], owner[j]);
    } else {
      assert ReleaseAll(xs, owner)[k] == Release(xs[n], owner[n]);
    }
  }
}
