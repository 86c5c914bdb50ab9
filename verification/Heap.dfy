/** The binary heap inside concurrent_priority_queue: a comparator, the heap order on a
    prefix of the vector, and the two sifting walks. */
module Heap {

  /** The comparator is a strict weak order. */
  ghost predicate StrictWeak<T(!new)>(lt: (T, T) -> bool) {
    && (forall a :: !lt(a, a))
    && (forall a, b, c :: lt(a, b) && lt(b, c) ==> lt(a, c))
    && (forall a, b, c :: !lt(a, b) && !lt(b, c) ==> !lt(a, c))
  }

  function Up(i: nat): nat { if i == 0 then 0 else (i - 1) / 2 }

  /** The first `n` elements form a heap: no element is above its parent. */
  predicate IsHeap<T>(lt: (T, T) -> bool, d: seq<T>, n: nat) {
    n <= |d| && forall i {:trigger Up(i)} :: 0 < i < n ==> !lt(d[Up(i)], d[i])
  }

  /** The root of a heap is a maximal element. */
  lemma {:induction false} RootIsMax<T(!new)>(lt: (T, T) -> bool, d: seq<T>, n: nat, i: nat)
    requires StrictWeak(lt) && IsHeap(lt, d, n) && i < n
    ensures !lt(d[0], d[i])
  {
    if i > 0 { RootIsMax(lt, d, n, Up(i)); }
  }

  function Swap<T>(d: seq<T>, i: nat, j: nat): (r: seq<T>)
    requires i < |d| && j < |d|
    ensures |r| == |d|
  {
    d[i := d[j]][j := d[i]]
  }

  lemma {:induction false} SwapKeeps<T>(d: seq<T>, i: nat, j: nat)
    requires i < |d| && j < |d|
    ensures multiset(Swap(d, i, j)) == multiset(d)
  {}

  // ----- sift up: the inner loop of heapify

  /** Move the element at `i` up while it is above its parent. */
  function SiftUp<T>(lt: (T, T) -> bool, d: seq<T>, i: nat): (r: seq<T>)
    requires i < |d|
    ensures |r| == |d|
    decreases i
  {
    if i > 0 && lt(d[Up(i)], d[i]) then SiftUp(lt, Swap(d, Up(i), i), Up(i)) else d
  }

  lemma {:induction false} SiftUpKeeps<T>(lt: (T, T) -> bool, d: seq<T>, i: nat)
    requires i < |d|
    ensures multiset(SiftUp(lt, d, i)) == multiset(d)
    ensures SiftUp(lt, d, i)[i + 1..] == d[i + 1..]
    decreases i
  {
    if i > 0 && lt(d[Up(i)], d[i]) {
      var e := Swap(d, Up(i), i);
      SwapKeeps(d, Up(i), i);
      SiftUpKeeps(lt, e, Up(i));
      var r := SiftUp(lt, d, i);
      assert r[Up(i) + 1..][i - Up(i)..] == r[i + 1..];
      assert e[Up(i) + 1..][i - Up(i)..] == e[i + 1..] == d[i + 1..];
    }
  }

  /** A heap of `n` elements except that position `i` may be above its parent; the children
      of `i` are still not above `i`'s parent. */
  predicate HeapBut<T>(lt: (T, T) -> bool, d: seq<T>, n: nat, i: nat) {
    && i < n <= |d|
    && (forall j {:trigger Up(j)} :: 0 < j < n && j != i ==> !lt(d[Up(j)], d[j]))
    && (forall j {:trigger Up(j)} :: 0 < j < n && i > 0 && Up(j) == i ==> !lt(d[Up(i)], d[j]))
  }

  lemma {:induction false} SiftUpHeap<T(!new)>(lt: (T, T) -> bool, d: seq<T>, n: nat, i: nat)
    requires StrictWeak(lt) && HeapBut(lt, d, n, i)
    ensures IsHeap(lt, SiftUp(lt, d, i), n)
    decreases i
  {
    if i > 0 && lt(d[Up(i)], d[i]) {
      var p := Up(i);
      var e := Swap(d, p, i);
      forall j | 0 < j < n && j != p ensures !lt(e[Up(j)], e[j]) {
        if j == i {
        } else if Up(j) == i {
          assert e[Up(j)] == d[p] && e[j] == d[j];
        } else if Up(j) == p {
          assert e[Up(j)] == d[i] && e[j] == d[j];
          assert !lt(d[p], d[j]);
          assert !lt(d[i], d[p]);
        } else {
          assert e[Up(j)] == d[Up(j)] && e[j] == d[j];
        }
      }
      forall j | 0 < j < n && p > 0 && Up(j) == p ensures !lt(e[Up(p)], e[j]) {
        assert e[Up(p)] == d[Up(p)] && !lt(d[Up(p)], d[p]);
        if j != i { assert e[j] == d[j] && !lt(d[p], d[j]); }
      }
      SiftUpHeap(lt, e, n, p);
    } else {
      assert forall j {:trigger Up(j)} :: 0 < j < n ==> !lt(d[Up(j)], d[j]);
    }
  }

  // ----- sift down: reheap

  /** The child of `i` with the higher priority, within the heap of `n` elements. */
  function Higher<T>(lt: (T, T) -> bool, d: seq<T>, n: nat, i: nat): (r: nat)
    requires 2 * i + 1 < n <= |d|
    ensures Up(r) == i && i < r < n
  {
    if 2 * i + 2 < n && lt(d[2 * i + 1], d[2 * i + 2]) then 2 * i + 2 else 2 * i + 1
  }

  datatype Hole<T> = Hole(d: seq<T>, at: nat)

  /** Move a hole down from `i`, pulling up the higher child, until `x` may fill it. */
  function Descend<T>(lt: (T, T) -> bool, d: seq<T>, n: nat, x: T, i: nat): (r: Hole<T>)
    requires n <= |d| && i < |d| && (n > 0 ==> i < n)
    ensures |r.d| == |d| && i <= r.at < |d| && (n > 0 ==> r.at < n)
    decreases |d| - i
  {
    if 2 * i + 1 >= n || lt(d[Higher(lt, d, n, i)], x) then Hole(d, i)
    else
      var c := Higher(lt, d, n, i);
      Descend(lt, d[i := d[c]], n, x, c)
  }

  lemma {:induction false} DescendKeeps<T>(lt: (T, T) -> bool, d: seq<T>, n: nat, x: T, i: nat, y: T)
    requires n <= |d| && i < |d| && (n > 0 ==> i < n)
    ensures var r := Descend(lt, d, n, x, i);
            && multiset(r.d[r.at := y]) == multiset(d[i := y])
            && (forall j :: r.at <= j < |d| ==> r.d[j] == d[j])
            && (forall j :: n <= j < |d| ==> r.d[j] == d[j])
    decreases |d| - i
  {
    if !(2 * i + 1 >= n || lt(d[Higher(lt, d, n, i)], x)) {
      var c := Higher(lt, d, n, i);
      var e := d[i := d[c]];
      DescendKeeps(lt, e, n, x, c, y);
      assert e[c := y] == Swap(d[i := y], i, c);
      SwapKeeps(d[i := y], i, c);
    }
  }

  /** A heap of `n` elements around a hole at `i` into which `x` could still go. */
  predicate HoleHeap<T>(lt: (T, T) -> bool, d: seq<T>, n: nat, x: T, i: nat) {
    && n <= |d|
    && (forall j {:trigger Up(j)} :: 0 < j < n && j != i && Up(j) != i ==> !lt(d[Up(j)], d[j]))
    && (forall j {:trigger Up(j)} :: 0 < j < n && Up(j) == i && 0 < i < n ==> !lt(d[Up(i)], d[j]))
    && (0 < i < n ==> !lt(d[Up(i)], x))
  }

  lemma {:induction false} DescendHeap<T(!new)>(lt: (T, T) -> bool, d: seq<T>, n: nat, x: T, i: nat)
    requires StrictWeak(lt) && n <= |d| && i < |d| && (n > 0 ==> i < n) && HoleHeap(lt, d, n, x, i)
    ensures var r := Descend(lt, d, n, x, i); IsHeap(lt, r.d[r.at := x], n)
    decreases |d| - i
  {
    if 2 * i + 1 >= n {
      HoleFills(lt, d, n, x, i);
    } else {
      var c := Higher(lt, d, n, i);
      assert forall j :: 0 < j < n && Up(j) == i ==> j == 2 * i + 1 || j == 2 * i + 2;
      if lt(d[c], x) {
        forall j | 0 < j < n && Up(j) == i ensures !lt(x, d[j]) {
          assert !lt(d[c], d[j]);
        }
        HoleFills(lt, d, n, x, i);
      } else {
        HoleMoves(lt, d, n, x, i);
        DescendHeap(lt, d[i := d[c]], n, x, c);
      }
    }
  }

  lemma {:induction false} HoleFills<T(!new)>(lt: (T, T) -> bool, d: seq<T>, n: nat, x: T, i: nat)
    requires n <= |d| && i < |d| && HoleHeap(lt, d, n, x, i)
    requires forall j {:trigger Up(j)} :: 0 < j < n && Up(j) == i ==> !lt(x, d[j])
    ensures IsHeap(lt, d[i := x], n)
  {}

  lemma {:induction false} HoleMoves<T(!new)>(lt: (T, T) -> bool, d: seq<T>, n: nat, x: T, i: nat)
    requires StrictWeak(lt) && HoleHeap(lt, d, n, x, i) && 2 * i + 1 < n
    requires !lt(d[Higher(lt, d, n, i)], x)
    ensures var c := Higher(lt, d, n, i); HoleHeap(lt, d[i := d[c]], n, x, c)
  {
    var c := Higher(lt, d, n, i);
    var e := d[i := d[c]];
    forall j | 0 < j < n && j != c && Up(j) != c ensures !lt(e[Up(j)], e[j]) {
      if j == i {
        assert e[j] == d[c] && e[Up(j)] == d[Up(i)];
      } else if Up(j) == i {
        assert j == 2 * i + 1 || j == 2 * i + 2;
        assert e[Up(j)] == d[c] && e[j] == d[j];
      }
    }
  }

  /** reheap: drop the root, refilling from the last element of the vector. */
  function Reheaped<T>(lt: (T, T) -> bool, d: seq<T>, n: nat): (r: seq<T>)
    requires 0 < |d| && n <= |d|
    ensures |r| == |d| - 1
  {
    var x := d[|d| - 1];
    var h := Descend(lt, d, n, x, 0);
    h.d[h.at := x][..|d| - 1]
  }

  lemma {:induction false} FillAndDrop<T>(w: seq<T>, at: nat, x: T)
    requires at < |w| && w[at := x][|w| - 1] == x
    ensures multiset(w[at := x][..|w| - 1]) == multiset(w) - multiset{w[at]}
  {
    var v := w[at := x];
    assert multiset(v) == multiset(w) - multiset{w[at]} + multiset{x};
    assert v == v[..|w| - 1] + [x];
    var p, q := multiset(v[..|w| - 1]), multiset(w) - multiset{w[at]};
    assert p == (p + multiset{x}) - multiset{x};
    assert q == (q + multiset{x}) - multiset{x};
  }

  /** Extracting the root keeps exactly the other elements. */
  lemma {:induction false} ReheapedKeeps<T(!new)>(lt: (T, T) -> bool, d: seq<T>, n: nat)
    requires 0 < |d| && n <= |d|
    ensures var r := Reheaped(lt, d, n);
            multiset(r) == multiset(d) - multiset{d[0]}
  {
    var x := d[|d| - 1];
    var h := Descend(lt, d, n, x, 0);
    DescendKeeps(lt, d, n, x, 0, d[0]);
    assert d[0 := d[0]] == d;
    var w := h.d[h.at := d[0]];
    assert w[h.at := x] == h.d[h.at := x];
    assert Reheaped(lt, d, n) == w[h.at := x][..|w| - 1];
    FillAndDrop(w, h.at, x);
  }

  /** The loose elements behind a non-empty heap stay, except the last one. */
  lemma {:induction false} ReheapedTail<T(!new)>(lt: (T, T) -> bool, d: seq<T>, n: nat)
    requires 0 < n <= |d|
    ensures var r := Reheaped(lt, d, n); forall j :: n <= j < |r| ==> r[j] == d[j]
  {
    DescendKeeps(lt, d, n, d[|d| - 1], 0, d[0]);
  }

  /** Extracting the root leaves a heap. */
  lemma {:induction false} ReheapedIsHeap<T(!new)>(lt: (T, T) -> bool, d: seq<T>, n: nat)
    requires StrictWeak(lt) && 0 < |d| && IsHeap(lt, d, n)
    ensures var r := Reheaped(lt, d, n); IsHeap(lt, r, if n > |r| then |r| else n)
  {
    DescendHeap(lt, d, n, d[|d| - 1], 0);
  }
}
