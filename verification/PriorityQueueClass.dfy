/** The queue object and its batch handler. */
module PriorityQueueClass {
  import opened Heap
  import opened PriorityQueue

  /** The books of a batch whose first `|outs|` operations have been looked at: each has
      either taken effect (`evs`), or is a push still loose (`owner`), or a postponed pop. */
  ghost predicate Books<T>(
    ops: seq<Op<T>>, outs: seq<Outcome<T>>, evs: seq<Event<T>>, owner: seq<nat>, pops: seq<nat>)
  {
    && Matches(ops, outs, evs)
    && Indices(evs) + multiset(owner) + multiset(pops) == UpTo(|outs|)
    && (forall k :: 0 <= k < |owner| ==> owner[k] < |outs| && outs[owner[k]] == Pushed)
    && (forall k :: 0 <= k < |pops| ==> pops[k] < |outs| && ops[pops[k]] == Pop)
  }

  lemma {:induction false} BooksFresh<T>(
      ops: seq<Op<T>>, outs: seq<Outcome<T>>, evs: seq<Event<T>>, owner: seq<nat>, pops: seq<nat>, k: nat)
    requires Books(ops, outs, evs, owner, pops) && k < |pops|
    ensures pops[k] !in owner && pops[k] !in pops[..k] && pops[k] !in pops[k + 1..]
    ensures forall j :: 0 <= j < |evs| ==> evs[j].idx != pops[k]
  {
    var i := pops[k];
    UpToOnce(|outs|, i);
    assert pops == pops[..k] + [i] + pops[k + 1..];
    assert multiset(pops)[i] == multiset(pops[..k])[i] + 1 + multiset(pops[k + 1..])[i];
    var a, b := pops[..k], pops[k + 1..];
    assert i in a ==> multiset(a)[i] > 0;
    assert i in b ==> multiset(b)[i] > 0;
    assert i in owner ==> multiset(owner)[i] > 0;
    forall j | 0 <= j < |evs| ensures evs[j].idx != i { IndexCounts(evs, j); }
  }

  /** Record the answer of the first postponed pop, which takes effect with `more` events. */
  lemma {:induction false} BooksAnswer<T>(
    ops: seq<Op<T>>, outs: seq<Outcome<T>>, evs: seq<Event<T>>, owner: seq<nat>, pops: seq<nat>,
    out: Outcome<T>, evs': seq<Event<T>>, owner': seq<nat>, more: multiset<nat>)
    requires Books(ops, outs, evs, owner, pops) && |pops| > 0
    requires Indices(evs') == Indices(evs) + more + multiset{pops[0]} && multiset(owner) == multiset(owner') + more
    requires evs <= evs' && forall k :: |evs| <= k < |evs'| ==> Adds(ops, owner, pops[0], out, evs'[k])
    ensures Books(ops, outs[pops[0] := out], evs', owner', pops[1..])
  {
    var i, outs' := pops[0], outs[pops[0] := out];
    BooksFresh(ops, outs, evs, owner, pops, 0);
    Recount(Indices(evs), more, i, multiset(owner'), pops);
    forall k | 0 <= k < |owner'| ensures owner'[k] < |outs| && outs'[owner'[k]] == Pushed {
      assert owner'[k] in multiset(owner') + more;
      assert owner'[k] in owner;
    }
    AnswerMatches(ops, outs, evs, owner, i, out, evs');
  }

  predicate Adds<T(==)>(ops: seq<Op<T>>, owner: seq<nat>, i: nat, out: Outcome<T>, e: Event<T>) {
    || e == Event(i, Pop, out)
    || (e.idx in owner && e.idx < |ops| && e.op == ops[e.idx] && e.out == Pushed)
  }

  lemma {:induction false} Recount(a: multiset<nat>, more: multiset<nat>, i: nat, o: multiset<nat>, pops: seq<nat>)
    requires |pops| > 0 && pops[0] == i
    ensures (a + more + multiset{i}) + o + multiset(pops[1..]) == a + (o + more) + multiset(pops)
  {
    assert pops == [i] + pops[1..];
  }

  lemma {:induction false} AnswerMatches<T>(
    ops: seq<Op<T>>, outs: seq<Outcome<T>>, evs: seq<Event<T>>, owner: seq<nat>, i: nat, out: Outcome<T>,
    evs': seq<Event<T>>)
    requires Matches(ops, outs, evs) && i < |outs| && ops[i] == Pop && i !in owner
    requires forall k :: 0 <= k < |owner| ==> owner[k] < |outs| && outs[owner[k]] == Pushed
    requires forall j :: 0 <= j < |evs| ==> evs[j].idx != i
    requires evs <= evs' && forall k :: |evs| <= k < |evs'| ==> Adds(ops, owner, i, out, evs'[k])
    ensures Matches(ops, outs[i := out], evs')
  {
    forall k | 0 <= k < |evs'|
      ensures evs'[k].idx < |outs| && evs'[k].op == ops[evs'[k].idx] && evs'[k].out == outs[i := out][evs'[k].idx]
    {
      if k < |evs| {
        assert evs'[k] == evs[k];
      } else {
        assert Adds(ops, owner, i, out, evs'[k]);
      }
    }
  }

  /** Look at the next operation: it takes effect at once, or is left loose or postponed. */
  lemma {:induction false} BooksNext<T>(
    ops: seq<Op<T>>, outs: seq<Outcome<T>>, evs: seq<Event<T>>, owner: seq<nat>, pops: seq<nat>,
    i: nat, out: Outcome<T>, evs': seq<Event<T>>, owner': seq<nat>, pops': seq<nat>)
    requires Books(ops, outs, evs, owner, pops) && i == |outs| < |ops|
    requires Indices(evs') + multiset(owner') + multiset(pops') == UpTo(i + 1)
    requires evs <= evs' && forall k :: |evs| <= k < |evs'| ==>
               || evs'[k] == Event(i, ops[i], out)
               || (evs'[k].idx in owner && evs'[k].op == ops[evs'[k].idx] && evs'[k].out == Pushed)
    requires forall k :: 0 <= k < |owner'| ==> owner'[k] in owner || (owner'[k] == i && out == Pushed)
    requires forall k :: 0 <= k < |pops'| ==> pops'[k] in pops || (pops'[k] == i && ops[i] == Pop)
    ensures Books(ops, outs + [out], evs', owner', pops')
  {
    NextMatches(ops, outs, evs, owner, i, out, evs');
    var outs' := outs + [out];
    forall k | 0 <= k < |owner'| ensures owner'[k] < |outs'| && outs'[owner'[k]] == Pushed {
      if owner'[k] in owner { var j :| 0 <= j < |owner| && owner[j] == owner'[k]; }
    }
    forall k | 0 <= k < |pops'| ensures pops'[k] < |outs'| && ops[pops'[k]] == Pop {
      if pops'[k] in pops { var j :| 0 <= j < |pops| && pops[j] == pops'[k]; }
    }
  }

  lemma {:induction false} NextMatches<T>(
    ops: seq<Op<T>>, outs: seq<Outcome<T>>, evs: seq<Event<T>>, owner: seq<nat>, i: nat, out: Outcome<T>,
    evs': seq<Event<T>>)
    requires Matches(ops, outs, evs) && i == |outs| < |ops|
    requires forall k :: 0 <= k < |owner| ==> owner[k] < |outs| && outs[owner[k]] == Pushed
    requires evs <= evs' && forall k :: |evs| <= k < |evs'| ==>
               || evs'[k] == Event(i, ops[i], out)
               || (evs'[k].idx in owner && evs'[k].op == ops[evs'[k].idx] && evs'[k].out == Pushed)
    ensures Matches(ops, outs + [out], evs')
  {
    var outs' := outs + [out];
    forall k | 0 <= k < |evs'|
      ensures evs'[k].idx < |outs'| && evs'[k].op == ops[evs'[k].idx] && evs'[k].out == outs'[evs'[k].idx]
    {
      if k < |evs| {
        assert evs'[k] == evs[k];
      } else if evs'[k] != Event(i, ops[i], out) {
        assert evs'[k].idx in owner;
      }
    }
  }

  lemma {:induction false} Shuffle(a: multiset<nat>, m: multiset<nat>, o: multiset<nat>, p: multiset<nat>, i: nat)
    ensures (a + m + multiset{i}) + o + p == (a + (o + m) + p) + multiset{i}
    ensures (a + multiset{i}) + o + p == (a + o + p) + multiset{i}
  {}

  lemma {:induction false} CountTake(a: multiset<nat>, owner: seq<nat>, p: multiset<nat>, i: nat)
    requires |owner| > 0
    ensures (a + multiset{owner[|owner| - 1]} + multiset{i}) + multiset(owner[..|owner| - 1]) + p ==
        (a + multiset(owner) + p) + multiset{i}
  {
    var n := |owner| - 1;
    assert owner == owner[..n] + [owner[n]];
    assert multiset(owner) == multiset(owner[..n]) + multiset{owner[n]};
    Shuffle(a, multiset{owner[n]}, multiset(owner[..n]), p, i);
  }

  /** In the middle of a batch that began with contents `q`: the heap prefix is what the
      ideal queue holds now. */
  ghost predicate InBatch<T(!new)>(
    lt: (T, T) -> bool, d: seq<T>, mark: nat, q: multiset<T>, ops: seq<Op<T>>, outs: seq<Outcome<T>>,
    pops: seq<nat>, evs: seq<Event<T>>, owner: seq<nat>)
  {
    && mark <= |d| && StrictWeak(lt)
    && Books(ops, outs, evs, owner, pops)
    && Shape(lt, ops, d, mark, owner)
    && Log(lt, q, evs, multiset(d[..mark]))
  }

  lemma {:induction false} StartBatch<T(!new)>(lt: (T, T) -> bool, d: seq<T>, ops: seq<Op<T>>)
    requires StrictWeak(lt) && IsHeap(lt, d, |d|)
    ensures InBatch(lt, d, |d|, multiset(d), ops, [], [], [], [])
  {
    assert d[..|d|] == d;
  }

  lemma {:induction false} TakeBooks<T>(
    ops: seq<Op<T>>, outs: seq<Outcome<T>>, evs: seq<Event<T>>, owner: seq<nat>, pops: seq<nat>, i: nat, x: T,
    evs': seq<Event<T>>)
    requires Books(ops, outs, evs, owner, pops) && i == |outs| < |ops| && ops[i] == Pop && |owner| > 0
    requires var p := owner[|owner| - 1];
             && p < |ops| && ops[p] == Push(x, true)
             && |evs'| == |evs| + 2 && evs <= evs' && evs'[|evs|] == Release(x, p) && evs'[|evs| + 1] == Take(x, i)
             && Indices(evs') == Indices(evs) + multiset{p} + multiset{i}
    ensures Books(ops, outs + [Popped(x)], evs', owner[..|owner| - 1], pops)
  {
    var n := |owner| - 1;
    CountTake(Indices(evs), owner, multiset(pops), i);
    forall k | 0 <= k < n ensures owner[..n][k] in owner {}
    BooksNext(ops, outs, evs, owner, pops, i, Popped(x), evs', owner[..n], pops);
  }

  lemma {:induction false} FirstTake<T(!new)>(
    lt: (T, T) -> bool, d: seq<T>, mark: nat, q: multiset<T>, ops: seq<Op<T>>, outs: seq<Outcome<T>>,
    pops: seq<nat>, evs: seq<Event<T>>, owner: seq<nat>, i: nat) returns (evs': seq<Event<T>>)
    requires InBatch(lt, d, mark, q, ops, outs, pops, evs, owner)
    requires i == |outs| < |ops| && ops[i] == Pop && mark < |d| && lt(d[0], d[|d| - 1])
    ensures InBatch(lt, d[..|d| - 1], mark, q, ops, outs + [Popped(d[|d| - 1])], pops, evs', owner[..|owner| - 1])
  {
    var x := d[|d| - 1];
    LastIsMax(lt, d, mark);
    ShapePop(lt, ops, d, mark, owner);
    evs' := PushThenPop(lt, q, evs, multiset(d[..mark]), x, owner[|owner| - 1], i);
    TakeBooks(ops, outs, evs, owner, pops, i, x, evs');
  }

  lemma {:induction false} FirstPostpone<T(!new)>(
    lt: (T, T) -> bool, d: seq<T>, mark: nat, q: multiset<T>, ops: seq<Op<T>>, outs: seq<Outcome<T>>,
    pops: seq<nat>, evs: seq<Event<T>>, owner: seq<nat>, i: nat)
    requires InBatch(lt, d, mark, q, ops, outs, pops, evs, owner) && i == |outs| < |ops| && ops[i] == Pop
    ensures InBatch(lt, d, mark, q, ops, outs + [Waiting], [i] + pops, evs, owner)
  {
    BooksNext(ops, outs, evs, owner, pops, i, Waiting, evs, owner, [i] + pops);
  }

  lemma {:induction false} FirstPush<T(!new)>(
    lt: (T, T) -> bool, d: seq<T>, mark: nat, q: multiset<T>, ops: seq<Op<T>>, outs: seq<Outcome<T>>,
    pops: seq<nat>, evs: seq<Event<T>>, owner: seq<nat>, i: nat)
    requires InBatch(lt, d, mark, q, ops, outs, pops, evs, owner)
    requires i == |outs| < |ops| && ops[i].Push? && ops[i].fits
    ensures InBatch(lt, d + [ops[i].elem], mark, q, ops, outs + [Pushed], pops, evs, owner + [i])
  {
    BooksNext(ops, outs, evs, owner, pops, i, Pushed, evs, owner + [i], pops);
    ShapePush(lt, ops, d, mark, owner, i);
    assert (d + [ops[i].elem])[..mark] == d[..mark];
  }

  lemma {:induction false} ShapePush<T>(
      lt: (T, T) -> bool, ops: seq<Op<T>>, d: seq<T>, mark: nat, owner: seq<nat>, i: nat)
    requires Shape(lt, ops, d, mark, owner) && i < |ops| && ops[i].Push? && ops[i].fits
    ensures Shape(lt, ops, d + [ops[i].elem], mark, owner + [i])
  {}

  lemma {:induction false} FirstThrow<T(!new)>(
    lt: (T, T) -> bool, d: seq<T>, mark: nat, q: multiset<T>, ops: seq<Op<T>>, outs: seq<Outcome<T>>,
    pops: seq<nat>, evs: seq<Event<T>>, owner: seq<nat>, i: nat) returns (evs': seq<Event<T>>)
    requires InBatch(lt, d, mark, q, ops, outs, pops, evs, owner)
    requires i == |outs| < |ops| && ops[i].Push? && !ops[i].fits
    ensures InBatch(lt, d, mark, q, ops, outs + [Threw], pops, evs', owner)
  {
    evs' := LogOne(lt, q, evs, multiset(d[..mark]), Event(i, ops[i], Threw));
    Shuffle(Indices(evs), multiset{}, multiset(owner), multiset(pops), i);
    BooksNext(ops, outs, evs, owner, pops, i, Threw, evs', owner, pops);
  }

  /** The postponed pop takes effect alone. */
  lemma {:induction false} BooksAlone<T>(
    ops: seq<Op<T>>, outs: seq<Outcome<T>>, evs: seq<Event<T>>, owner: seq<nat>, pops: seq<nat>, out: Outcome<T>,
    evs': seq<Event<T>>)
    requires Books(ops, outs, evs, owner, pops) && |pops| > 0
    requires Indices(evs') == Indices(evs) + multiset{pops[0]}
    requires |evs'| == |evs| + 1 && evs <= evs' && evs'[|evs|] == Event(pops[0], Pop, out)
    ensures Books(ops, outs[pops[0] := out], evs', owner, pops[1..])
  {
    var none: multiset<nat> := multiset{};
    assert Indices(evs') == Indices(evs) + none + multiset{pops[0]};
    BooksAnswer(ops, outs, evs, owner, pops, out, evs', owner, none);
  }

  // ----- the second pass: the first postponed pop is answered

  lemma {:induction false} SecondEmpty<T(!new)>(
    lt: (T, T) -> bool, mark: nat, q: multiset<T>, ops: seq<Op<T>>, outs: seq<Outcome<T>>,
    pops: seq<nat>, evs: seq<Event<T>>, owner: seq<nat>) returns (evs': seq<Event<T>>)
    requires InBatch(lt, [], mark, q, ops, outs, pops, evs, owner) && |pops| > 0
    ensures InBatch(lt, [], mark, q, ops, outs[pops[0] := Empty], pops[1..], evs', owner)
  {
    evs' := LogOne(lt, q, evs, multiset{}, Event(pops[0], Pop, Empty));
    BooksAlone(ops, outs, evs, owner, pops, Empty, evs');
  }

  lemma {:induction false} SecondTake<T(!new)>(
    lt: (T, T) -> bool, d: seq<T>, mark: nat, q: multiset<T>, ops: seq<Op<T>>, outs: seq<Outcome<T>>,
    pops: seq<nat>, evs: seq<Event<T>>, owner: seq<nat>) returns (evs': seq<Event<T>>)
    requires InBatch(lt, d, mark, q, ops, outs, pops, evs, owner) && |pops| > 0 && mark < |d| && lt(d[0], d[|d| - 1])
    ensures InBatch(lt, d[..|d| - 1], mark, q, ops, outs[pops[0] := Popped(d[|d| - 1])], pops[1..], evs',
        owner[..|owner| - 1])
  {
    var n, x := |owner| - 1, d[|d| - 1];
    LastIsMax(lt, d, mark);
    ShapePop(lt, ops, d, mark, owner);
    evs' := PushThenPop(lt, q, evs, multiset(d[..mark]), x, owner[n], pops[0]);
    LastOwner(owner);
    BooksAnswer(ops, outs, evs, owner, pops, Popped(x), evs', owner[..n], multiset{owner[n]});
  }

  lemma {:induction false} LastOwner(owner: seq<nat>)
    requires |owner| > 0
    ensures multiset(owner) == multiset(owner[..|owner| - 1]) + multiset{owner[|owner| - 1]}
    ensures owner[|owner| - 1] in owner
  {
    assert owner == owner[..|owner| - 1] + [owner[|owner| - 1]];
  }

  lemma {:induction false} FullReheap<T(!new)>(lt: (T, T) -> bool, ops: seq<Op<T>>, d: seq<T>, owner: seq<nat>)
    requires StrictWeak(lt) && 0 < |d| && Shape(lt, ops, d, |d|, owner)
    ensures Shape(lt, ops, Reheaped(lt, d, |d|), |d| - 1, owner)
    ensures multiset(Reheaped(lt, d, |d|)[..|d| - 1]) == multiset(d[..|d|]) - multiset{d[0]}
  {
    ReheapedIsHeap(lt, d, |d|);
    ReheapedKeeps(lt, d, |d|);
    var r := Reheaped(lt, d, |d|);
    assert r[..|d| - 1] == r && d[..|d|] == d;
  }

  /** The whole vector is a heap: its root is popped. */
  lemma {:induction false} SecondTopFull<T(!new)>(
    lt: (T, T) -> bool, d: seq<T>, q: multiset<T>, ops: seq<Op<T>>, outs: seq<Outcome<T>>,
    pops: seq<nat>, evs: seq<Event<T>>, owner: seq<nat>) returns (evs': seq<Event<T>>)
    requires InBatch(lt, d, |d|, q, ops, outs, pops, evs, owner) && |pops| > 0 && 0 < |d|
    ensures InBatch(lt, Reheaped(lt, d, |d|), |d| - 1, q, ops, outs[pops[0] := Popped(d[0])], pops[1..], evs', owner)
  {
    evs' := PopRoot(lt, q, evs, d, |d|, pops[0]);
    FullReheap(lt, ops, d, owner);
    BooksAlone(ops, outs, evs, owner, pops, Popped(d[0]), evs');
  }

  /** The root is popped and the last loose element refills the heap: its push takes effect
      right after the pop. */
  lemma {:induction false} SecondTopLoose<T(!new)>(
    lt: (T, T) -> bool, d: seq<T>, mark: nat, q: multiset<T>, ops: seq<Op<T>>, outs: seq<Outcome<T>>,
    pops: seq<nat>, evs: seq<Event<T>>, owner: seq<nat>) returns (evs': seq<Event<T>>)
    requires InBatch(lt, d, mark, q, ops, outs, pops, evs, owner) && |pops| > 0 && 0 < mark < |d|
    ensures InBatch(lt, Reheaped(lt, d, mark), mark, q, ops, outs[pops[0] := Popped(d[0])], pops[1..], evs',
        owner[..|owner| - 1])
  {
    var n, x := |owner| - 1, d[|d| - 1];
    ShapePop(lt, ops, d, mark, owner);
    evs' := PopThenPush(lt, q, evs, d, mark, pops[0], owner[n]);
    TopBooks(ops, outs, evs, owner, pops, d[0], x, evs');
    ShapeReheap(lt, ops, d, mark, owner);
    RefilledHeap(lt, d, mark);
  }

  lemma {:induction false} TopBooks<T>(
    ops: seq<Op<T>>, outs: seq<Outcome<T>>, evs: seq<Event<T>>, owner: seq<nat>, pops: seq<nat>, top: T, last: T,
    evs': seq<Event<T>>)
    requires Books(ops, outs, evs, owner, pops) && |pops| > 0 && |owner| > 0
    requires var p := owner[|owner| - 1];
             && p < |ops| && ops[p] == Push(last, true)
             && |evs'| == |evs| + 2 && evs <= evs' && evs'[|evs|] == Take(top, pops[0])
                 && evs'[|evs| + 1] == Release(last, p)
             && Indices(evs') == Indices(evs) + multiset{p} + multiset{pops[0]}
    ensures Books(ops, outs[pops[0] := Popped(top)], evs', owner[..|owner| - 1], pops[1..])
  {
    var n := |owner| - 1;
    LastOwner(owner);
    BooksAnswer(ops, outs, evs, owner, pops, Popped(top), evs', owner[..n], multiset{owner[n]});
  }

  lemma {:induction false} PopThenPush<T(!new)>(
    lt: (T, T) -> bool, q: multiset<T>, evs: seq<Event<T>>, d: seq<T>, mark: nat, i: nat, p: nat)
        returns (evs': seq<Event<T>>)
    requires StrictWeak(lt) && IsHeap(lt, d, mark) && 0 < mark < |d| && Log(lt, q, evs, multiset(d[..mark]))
    ensures Log(lt, q, evs', multiset(d[..mark]) - multiset{d[0]} + multiset{d[|d| - 1]})
    ensures Indices(evs') == Indices(evs) + multiset{p} + multiset{i}
    ensures |evs'| == |evs| + 2 && evs <= evs' && evs'[|evs|] == Take(d[0], i)
        && evs'[|evs| + 1] == Release(d[|d| - 1], p)
  {
    var e := PopRoot(lt, q, evs, d, mark, i);
    evs' := LogOne(lt, q, e, multiset(d[..mark]) - multiset{d[0]}, Release(d[|d| - 1], p));
  }

  /** There is no heap, because the queue was empty when the batch began: the first loose
      element is pushed and popped. */
  lemma {:induction false} SecondTopFirst<T(!new)>(
    lt: (T, T) -> bool, d: seq<T>, q: multiset<T>, ops: seq<Op<T>>, outs: seq<Outcome<T>>,
    pops: seq<nat>, evs: seq<Event<T>>, owner: seq<nat>) returns (evs': seq<Event<T>>, owner': seq<nat>)
    requires InBatch(lt, d, 0, q, ops, outs, pops, evs, owner) && |pops| > 0 && 0 < |d|
    ensures InBatch(lt, Reheaped(lt, d, 0), 0, q, ops, outs[pops[0] := Popped(d[0])], pops[1..], evs', owner')
  {
    ShapeFirst(lt, ops, d, owner);
    owner' := owner[0 := owner[|owner| - 1]][..|owner| - 1];
    assert multiset(d[..0]) == multiset{};
    evs' := PushThenPop(lt, q, evs, multiset{}, d[0], owner[0], pops[0]);
    FirstBooks(ops, outs, evs, owner, pops, d[0], evs', owner');
  }

  lemma {:induction false} FirstBooks<T>(
    ops: seq<Op<T>>, outs: seq<Outcome<T>>, evs: seq<Event<T>>, owner: seq<nat>, pops: seq<nat>, x: T,
    evs': seq<Event<T>>, owner': seq<nat>)
    requires Books(ops, outs, evs, owner, pops) && |pops| > 0 && |owner| > 0
        && multiset(owner') == multiset(owner) - multiset{owner[0]}
    requires var p := owner[0];
             && p < |ops| && ops[p] == Push(x, true)
             && |evs'| == |evs| + 2 && evs <= evs' && evs'[|evs|] == Release(x, p)
                 && evs'[|evs| + 1] == Take(x, pops[0])
             && Indices(evs') == Indices(evs) + multiset{p} + multiset{pops[0]}
    ensures Books(ops, outs[pops[0] := Popped(x)], evs', owner', pops[1..])
  {
    assert owner[0] in owner;
    Restore(owner, owner');
    BooksAnswer(ops, outs, evs, owner, pops, Popped(x), evs', owner', multiset{owner[0]});
  }

  lemma {:induction false} Restore(owner: seq<nat>, owner': seq<nat>)
    requires |owner| > 0 && multiset(owner') == multiset(owner) - multiset{owner[0]}
    ensures multiset(owner) == multiset(owner') + multiset{owner[0]}
  {
    assert owner[0] in multiset(owner);
  }

  /** The root is popped and the vector reheaped, whatever the split between heap and loose
      elements. */
  lemma {:induction false} SecondTop<T(!new)>(
    lt: (T, T) -> bool, d: seq<T>, mark: nat, q: multiset<T>, ops: seq<Op<T>>, outs: seq<Outcome<T>>,
    pops: seq<nat>, evs: seq<Event<T>>, owner: seq<nat>) returns (evs': seq<Event<T>>, owner': seq<nat>)
    requires InBatch(lt, d, mark, q, ops, outs, pops, evs, owner) && |pops| > 0 && 0 < |d|
    ensures InBatch(lt, Reheaped(lt, d, mark), if mark > |d| - 1 then |d| - 1 else mark, q, ops,
                    outs[pops[0] := Popped(d[0])], pops[1..], evs', owner')
  {
    if mark == |d| {
      evs' := SecondTopFull(lt, d, q, ops, outs, pops, evs, owner);
      owner' := owner;
    } else if mark > 0 {
      evs' := SecondTopLoose(lt, d, mark, q, ops, outs, pops, evs, owner);
      owner' := owner[..|owner| - 1];
    } else {
      evs', owner' := SecondTopFirst(lt, d, q, ops, outs, pops, evs, owner);
    }
  }

  /** The end of the batch: merging the loose elements makes the remaining pushes take effect. */
  lemma {:induction false} FinishBatch<T(!new)>(
    lt: (T, T) -> bool, d: seq<T>, mark: nat, q: multiset<T>, ops: seq<Op<T>>, outs: seq<Outcome<T>>,
    evs: seq<Event<T>>, owner: seq<nat>) returns (evs': seq<Event<T>>)
    requires InBatch(lt, d, mark, q, ops, outs, [], evs, owner) && |outs| == |ops|
    ensures Linearizes(lt, q, ops, outs, multiset(d), evs')
  {
    var xs := d[mark..];
    LogReleaseAll(lt, q, evs, multiset(d[..mark]), xs, owner);
    evs' := evs + ReleaseAll(xs, owner);
    assert d == d[..mark] + xs;
    FinishMatches(lt, d, mark, ops, outs, evs, owner);
  }

  lemma {:induction false} FinishMatches<T>(
    lt: (T, T) -> bool, d: seq<T>, mark: nat, ops: seq<Op<T>>, outs: seq<Outcome<T>>, evs: seq<Event<T>>,
        owner: seq<nat>)
    requires mark <= |d| && Shape(lt, ops, d, mark, owner) && Books(ops, outs, evs, owner, [])
    ensures Matches(ops, outs, evs + ReleaseAll(d[mark..], owner))
  {
    var xs := d[mark..];
    var evs' := evs + ReleaseAll(xs, owner);
    forall k | 0 <= k < |evs'|
      ensures evs'[k].idx < |outs| && evs'[k].op == ops[evs'[k].idx] && evs'[k].out == outs[evs'[k].idx]
    {
      if k < |evs| {
        assert evs'[k] == evs[k];
      } else {
        ReleaseAllMembers(xs, owner, k - |evs|);
        var j :| 0 <= j < |xs| && ReleaseAll(xs, owner)[k - |evs|] == Release(xs[j], owner[j]);
        assert ops[owner[j]] == Push(d[mark + j], true);
      }
    }
  }

  class Queue<T(!new)> {
    const lt: (T, T) -> bool
    var data: seq<T>
    var mark: nat
    var size: nat

    /** Between batches the whole vector is a heap. */
    ghost predicate Valid()
      reads this
    {
      StrictWeak(lt) && mark == |data| == size && IsHeap(lt, data, mark)
    }

    constructor (less: (T, T) -> bool, init: seq<T>)
      requires StrictWeak(less)
      ensures Valid() && lt == less && multiset(data) == multiset(init)
    {
      lt := less;
      data, mark, size := init, 0, |init|;
      new;
      Heapify();
    }

    /** Merge the loose elements into the heap, one sift up each. */
    method Heapify()
      requires StrictWeak(lt) && IsHeap(lt, data, mark)
      modifies this`data, this`mark
      ensures mark == |data| == |old(data)| && IsHeap(lt, data, mark)
      ensures multiset(data) == multiset(old(data))
    {
      if mark == 0 && |data| > 0 { mark := 1; }
      while mark < |data|
        invariant mark <= |data| == |old(data)| && IsHeap(lt, data, mark)
        invariant mark == 0 ==> data == []
        invariant multiset(data) == multiset(old(data))
      {
        ghost var d := data;
        SiftUpAt(mark);
        SiftUpKeeps(lt, d, mark);
        SiftUpHeap(lt, d, mark + 1, mark);
        mark := mark + 1;
      }
    }

    /** The do-while loop of heapify: `place` travels up, parents move down. */
    method SiftUpAt(i: nat)
      requires 0 < i < |data|
      modifies this`data
      ensures data == SiftUp(lt, old(data), i)
    {
      var cur: nat, place := i, data[i];
      assert data[i := place] == data;
      while cur > 0 && lt(data[Up(cur)], place)
        invariant cur < |data| == |old(data)|
        invariant SiftUp(lt, data[cur := place], cur) == SiftUp(lt, old(data), i)
      {
        assert Swap(data[cur := place], Up(cur), cur) == data[cur := data[Up(cur)]][Up(cur) := place];
        data := data[cur := data[Up(cur)]];
        cur := Up(cur);
      }
      data := data[cur := place];
    }

    /** Re-heapify after the root has been taken. */
    method Reheap()
      requires 0 < |data| && mark <= |data|
      modifies this`data, this`mark
      ensures data == Reheaped(lt, old(data), old(mark))
      ensures mark == if old(mark) > |data| then |data| else old(mark)
    {
      ghost var d0 := data;
      var last := |data| - 1;
      var x := data[last];
      var cur, child := 0, 1;
      ghost var h := Descend(lt, data, mark, x, 0);
      while child < mark
        invariant child == 2 * cur + 1 && cur < |data| == |d0| && (mark > 0 ==> cur < mark)
        invariant mark == old(mark) <= |data|
        invariant data[last] == x
        invariant Descend(lt, data, mark, x, cur) == h
        decreases |data| - cur
      {
        var target := child;
        if child + 1 < mark && lt(data[child], data[child + 1]) { target := target + 1; }
        assert target == Higher(lt, data, mark, cur);
        if lt(data[target], data[last]) { break; }
        data := data[cur := data[target]];
        cur := target;
        child := 2 * cur + 1;
      }
      assert h == Hole(data, cur);
      if cur != last { data := data[cur := data[last]]; }
      data := data[..last];
      if mark > |data| { mark := |data|; }
    }

    /** Pop the last loose element, which is above the root. */
    method TakeLast() returns (x: T)
      requires mark < |data| && 0 < size
      modifies this`data, this`size
      ensures x == old(data)[|old(data)| - 1] && data == old(data)[..|old(data)| - 1] && size == old(size) - 1
    {
      x := data[|data| - 1];
      size := size - 1;
      data := data[..|data| - 1];
    }

    /** First pass, a pop: answered at once if the last loose element is above the root,
        and postponed otherwise. */
    method LookAtPop(
      ghost q: multiset<T>, ops: seq<Op<T>>, outs: seq<Outcome<T>>, pops: seq<nat>, ghost evs: seq<Event<T>>,
          ghost owner: seq<nat>)
      returns (outs': seq<Outcome<T>>, pops': seq<nat>, ghost evs': seq<Event<T>>, ghost owner': seq<nat>)
      requires InBatch(lt, data, mark, q, ops, outs, pops, evs, owner) && |outs| < |ops| && ops[|outs|].Pop?
          && size == |data|
      modifies this`data, this`size
      ensures |outs'| == |outs| + 1 && InBatch(lt, data, mark, q, ops, outs', pops', evs', owner') && size == |data|
    {
      if mark < |data| && lt(data[0], data[|data| - 1]) {
        evs' := FirstTake(lt, data, mark, q, ops, outs, pops, evs, owner, |outs|);
        owner', pops' := owner[..|owner| - 1], pops;
        var x := TakeLast();
        outs' := outs + [Popped(x)];
      } else {
        FirstPostpone(lt, data, mark, q, ops, outs, pops, evs, owner, |outs|);
        outs', pops', evs', owner' := outs + [Waiting], [|outs|] + pops, evs, owner;
      }
    }

    /** First pass, a push: the element is appended loose, unless push_back throws. */
    method LookAtPush(
      ghost q: multiset<T>, ops: seq<Op<T>>, outs: seq<Outcome<T>>, pops: seq<nat>, ghost evs: seq<Event<T>>,
          ghost owner: seq<nat>)
      returns (outs': seq<Outcome<T>>, ghost evs': seq<Event<T>>, ghost owner': seq<nat>)
      requires InBatch(lt, data, mark, q, ops, outs, pops, evs, owner) && |outs| < |ops| && ops[|outs|].Push?
          && size == |data|
      modifies this`data, this`size
      ensures |outs'| == |outs| + 1 && InBatch(lt, data, mark, q, ops, outs', pops, evs', owner') && size == |data|
    {
      if ops[|outs|].fits {
        FirstPush(lt, data, mark, q, ops, outs, pops, evs, owner, |outs|);
        outs', evs', owner' := outs + [Pushed], evs, owner + [|outs|];
        data := data + [ops[|outs|].elem];
        size := size + 1;
      } else {
        evs' := FirstThrow(lt, data, mark, q, ops, outs, pops, evs, owner, |outs|);
        outs', owner' := outs + [Threw], owner;
      }
    }

    method FirstPass(ops: seq<Op<T>>)
      returns (outs: seq<Outcome<T>>, pops: seq<nat>, ghost evs: seq<Event<T>>, ghost owner: seq<nat>)
      requires Valid()
      modifies this`data, this`size
      ensures size == |data| && |outs| == |ops|
      ensures InBatch(lt, data, mark, multiset(old(data)), ops, outs, pops, evs, owner)
    {
      ghost var q := multiset(data);
      outs, pops, evs, owner := [], [], [], [];
      StartBatch(lt, data, ops);
      while |outs| < |ops|
        invariant |outs| <= |ops| && size == |data| && InBatch(lt, data, mark, q, ops, outs, pops, evs, owner)
        decreases |ops| - |outs|
      {
        if ops[|outs|].Pop? {
          outs, pops, evs, owner := LookAtPop(q, ops, outs, pops, evs, owner);
        } else {
          outs, evs, owner := LookAtPush(q, ops, outs, pops, evs, owner);
        }
      }
    }

    /** Second pass, one postponed pop with elements left: the last loose element if it is
        above the root, else the root. */
    method AnswerPop(
      ghost q: multiset<T>, ghost ops: seq<Op<T>>, outs: seq<Outcome<T>>, pops: seq<nat>, ghost evs: seq<Event<T>>,
          ghost owner: seq<nat>)
      returns (outs': seq<Outcome<T>>, ghost evs': seq<Event<T>>, ghost owner': seq<nat>)
      requires InBatch(lt, data, mark, q, ops, outs, pops, evs, owner) && |pops| > 0 && 0 < size == |data|
      modifies this`data, this`mark, this`size
      ensures |outs'| == |outs| && InBatch(lt, data, mark, q, ops, outs', pops[1..], evs', owner') && size == |data|
    {
      if mark < |data| && lt(data[0], data[|data| - 1]) {
        evs' := SecondTake(lt, data, mark, q, ops, outs, pops, evs, owner);
        owner' := owner[..|owner| - 1];
        var x := TakeLast();
        outs' := outs[pops[0] := Popped(x)];
      } else {
        outs' := outs[pops[0] := Popped(data[0])];
        evs', owner' := SecondTop(lt, data, mark, q, ops, outs, pops, evs, owner);
        size := size - 1;
        Reheap();
      }
    }

    method SecondPass(
      ghost q: multiset<T>, ghost ops: seq<Op<T>>, outs0: seq<Outcome<T>>, pops0: seq<nat>, ghost evs0: seq<Event<T>>,
          ghost owner0: seq<nat>)
      returns (outs: seq<Outcome<T>>, ghost evs: seq<Event<T>>, ghost owner: seq<nat>)
      requires InBatch(lt, data, mark, q, ops, outs0, pops0, evs0, owner0) && size == |data|
      modifies this`data, this`mark, this`size
      ensures |outs| == |outs0| && InBatch(lt, data, mark, q, ops, outs, [], evs, owner) && size == |data|
    {
      var pops := pops0;
      outs, evs, owner := outs0, evs0, owner0;
      while pops != []
        invariant |outs| == |outs0| && size == |data| && InBatch(lt, data, mark, q, ops, outs, pops, evs, owner)
        decreases |pops|
      {
        if data == [] {
          evs := SecondEmpty(lt, mark, q, ops, outs, pops, evs, owner);
          outs := outs[pops[0] := Empty];
        } else {
          outs, evs, owner := AnswerPop(q, ops, outs, pops, evs, owner);
        }
        pops := pops[1..];
      }
    }

    /** A batch is linearizable, and leaves a full heap holding what the ideal queue holds. */
    method HandleOperations(ops: seq<Op<T>>) returns (outs: seq<Outcome<T>>, ghost evs: seq<Event<T>>)
      requires Valid()
      modifies this`data, this`mark, this`size
      ensures Valid() && Linearizes(lt, multiset(old(data)), ops, outs, multiset(data), evs)
    {
      ghost var q := multiset(data);
      var pops;
      ghost var owner;
      outs, pops, evs, owner := FirstPass(ops);
      outs, evs, owner := SecondPass(q, ops, outs, pops, evs, owner);
      evs := FinishBatch(lt, data, mark, q, ops, outs, evs, owner);
      if mark < |data| { Heapify(); }
    }
  }
}
