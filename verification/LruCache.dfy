/** concurrent_lru_cache: the serial handlers and what threads do between them. Any
    interleaving of the threads is a sequence of these calls. */
module LruCache {

  datatype Record<V> = Record(value: V, refs: nat, ready: bool)

  /** What is only needed to state the guarantees. */
  datatype Ledger<K> = Ledger(
    handles: map<K, nat>,       // outstanding handles, those being acquired included
    computing: set<K>,          // keys whose value some thread was asked to compute
    loads: map<K, nat>,         // how often the key entered the storage
    calls: map<K, nat>,         // how often its value was computed
    since: map<K, nat>,         // when a key of the history fell idle
    clock: nat
  )

  /** A counter that is zero where nothing was counted. */
  function Count<K>(m: map<K, nat>, k: K): nat { if k in m then m[k] else 0 }

  ghost predicate NoDups<K>(s: seq<K>) { forall i, j :: 0 <= i < j < |s| ==> s[i] != s[j] }

  /** The history is ordered by the time its entries fell idle, the latest first. */
  ghost predicate Ordered<K>(s: seq<K>, since: map<K, nat>) {
    && (forall i :: 0 <= i < |s| ==> s[i] in since)
    && (forall i, j :: 0 <= i < j < |s| ==> since[s[i]] > since[s[j]])
  }

  /** The reference count is the number of handles; a record that is not ready is in use by the
      one thread that computes its value; each residency computes the value once. */
  ghost predicate RecordOk<K, V>(compute: K -> V, l: Ledger<K>, k: K, r: Record<V>) {
    && r.refs == Count(l.handles, k)
    && (k in l.computing <==> !r.ready)
    && (!r.ready ==> r.refs >= 1)
    && (r.ready ==> r.value == compute(k))
    && Count(l.loads, k) == Count(l.calls, k) + (if r.ready then 0 else 1)
  }

  ghost predicate Inv<K(!new), V>(
      compute: K -> V, limit: nat, storage: map<K, Record<V>>, history: seq<K>, l: Ledger<K>) {
    && |history| <= limit && NoDups(history)
    && (forall k :: k in history <==> k in storage && storage[k].refs == 0)
    && (forall k :: k in storage ==> RecordOk(compute, l, k, storage[k]))
    && (forall k :: k !in storage ==>
          Count(l.handles, k) == 0 && k !in l.computing && Count(l.calls, k) == Count(l.loads, k))
    && Ordered(history, l.since) && (forall k :: k in l.since ==> l.since[k] < l.clock)
  }

  // ----- the operations on values

  function Without<K>(s: seq<K>, i: nat): seq<K>
    requires i < |s|
  {
    s[..i] + s[i + 1..]
  }

  lemma {:induction false} DropOne<K>(s: seq<K>, i: nat, since: map<K, nat>)
    requires i < |s| && NoDups(s) && Ordered(s, since)
    ensures NoDups(Without(s, i)) && Ordered(Without(s, i), since)
    ensures forall k :: k in Without(s, i) <==> k in s && k != s[i]
  {
    var r := Without(s, i);
    assert forall j :: 0 <= j < |r| ==> r[j] == s[if j < i then j else j + 1];
    forall k | k in s && k != s[i] ensures k in r {
      var j :| 0 <= j < |s| && s[j] == k;
      assert r[if j < i then j else j - 1] == k;
    }
  }

  /** One more handle. */
  function Held<K>(l: Ledger<K>, k: K): Ledger<K> { l.(handles := l.handles[k := Count(l.handles, k) + 1]) }

  /** The key enters the storage; its value is to be computed. */
  function Loaded<K>(l: Ledger<K>, k: K): Ledger<K> {
    l.(computing := l.computing + {k}, loads := l.loads[k := Count(l.loads, k) + 1])
  }

  lemma {:induction false} LoadInv<K(!new), V>(
      compute: K -> V, limit: nat, storage: map<K, Record<V>>, history: seq<K>, l: Ledger<K>, k: K, blank: V)
    requires Inv(compute, limit, storage, history, l) && k !in storage
    ensures Inv(compute, limit, storage[k := Record(blank, 1, false)], history,
                Held(Loaded(l, k), k))
  {}

  lemma {:induction false} ReuseInv<K(!new), V>(
      compute: K -> V, limit: nat, storage: map<K, Record<V>>, history: seq<K>, l: Ledger<K>, k: K)
    requires Inv(compute, limit, storage, history, l) && k in storage && k !in history
    ensures Inv(compute, limit, storage[k := storage[k].(refs := storage[k].refs + 1)], history, Held(l, k))
  {}

  lemma {:induction false} ReviveInv<K(!new), V>(
      compute: K -> V, limit: nat, storage: map<K, Record<V>>, history: seq<K>, l: Ledger<K>, i: nat)
    requires Inv(compute, limit, storage, history, l) && i < |history|
    ensures var k := history[i];
            && k in storage
            && Inv(compute, limit, storage[k := storage[k].(refs := storage[k].refs + 1)],
                   Without(history, i), Held(l, k))
  {
    DropOne(history, i, l.since);
    assert history[i] in history;
  }

  /** One handle less. */
  function Given<K>(l: Ledger<K>, k: K): Ledger<K>
    requires Count(l.handles, k) >= 1
  {
    l.(handles := l.handles[k := Count(l.handles, k) - 1])
  }

  /** The key falls idle. */
  function Idled<K>(l: Ledger<K>, k: K): Ledger<K> { l.(since := l.since[k := l.clock], clock := l.clock + 1) }

  lemma {:induction false} GiveInv<K(!new), V>(
      compute: K -> V, limit: nat, storage: map<K, Record<V>>, history: seq<K>, l: Ledger<K>, k: K)
    requires Inv(compute, limit, storage, history, l) && k in storage && storage[k].refs > 1
    ensures Inv(compute, limit, storage[k := storage[k].(refs := storage[k].refs - 1)], history, Given(l, k))
  {}

  lemma {:induction false} IdleOrdered<K>(history: seq<K>, l: Ledger<K>, k: K)
    requires Ordered(history, l.since) && NoDups(history) && k !in history
        && (forall x :: x in l.since ==> l.since[x] < l.clock)
    ensures Ordered([k] + history, Idled(l, k).since) && NoDups([k] + history)
  {
    assert forall i :: 0 <= i < |history| ==> history[i] in history && history[i] != k;
  }

  lemma {:induction false} IdleInv<K(!new), V>(
      compute: K -> V, limit: nat, storage: map<K, Record<V>>, history: seq<K>, l: Ledger<K>, k: K)
    requires Inv(compute, limit, storage, history, l) && k in storage && storage[k].refs == 1 && storage[k].ready
        && |history| < limit
    ensures Inv(compute, limit, storage[k := storage[k].(refs := 0)], [k] + history, Idled(Given(l, k), k))
  {
    IdleOrdered(history, l, k);
  }

  /** The last entry of the history leaves the cache. */
  lemma {:induction false} EvictInv<K(!new), V>(
      compute: K -> V, limit: nat, storage: map<K, Record<V>>, history: seq<K>, l: Ledger<K>)
    requires Inv(compute, limit, storage, history, l) && history != []
    ensures var e := history[|history| - 1];
            e in storage && Inv(compute, limit, storage - {e}, history[..|history| - 1], l)
  {
    var n := |history| - 1;
    assert history[n] in history;
    DropOne(history, n, l.since);
    assert Without(history, n) == history[..n];
  }

  /** How many entries the eviction loop pops before one more is put at the front. */
  function ToEvict(len: nat, limit: nat): nat { if len >= limit then 1 + len - limit else 0 }

  /** Whatever is in the cache: the loop pops only what is there if and only if the history may
      hold something at all. */
  lemma {:induction false} PopsWhatIsThere<K(!new), V>(
      compute: K -> V, limit: nat, storage: map<K, Record<V>>, history: seq<K>, l: Ledger<K>)
    requires Inv(compute, limit, storage, history, l)
    ensures ToEvict(|history|, limit) <= |history| <==> limit >= 1
    ensures limit == 0 ==> history == [] && ToEvict(|history|, limit) == 1
  {}

  // ----- the cache

  class Cache<K(==, !new), V(!new)> {
    const compute: K -> V
    const blank: V
    const limit: nat                     // my_number_of_lru_history_items
    var storage: map<K, Record<V>>
    var history: seq<K>                  // front first
    ghost var ledger: Ledger<K>

    ghost predicate Valid()
      reads this
    {
      Inv(compute, limit, storage, history, ledger)
    }

    constructor (compute: K -> V, blank: V, limit: nat)
      ensures Valid() && storage == map[] && this.limit == limit && this.compute == compute
    {
      this.compute, this.blank, this.limit := compute, blank, limit;
      storage, history := map[], [];
      ledger := Ledger(map[], {}, map[], map[], map[], 0);
    }

    /** A record without a value, whose first handle goes to the caller. */
    method Load(k: K)
      requires Valid() && k !in storage
      modifies this`storage, this`ledger
      ensures Valid() && storage.Keys == old(storage.Keys) + {k}
      ensures ledger == Held(Loaded(old(ledger), k), k)
    {
      LoadInv(compute, limit, storage, history, ledger, k, blank);
      storage := storage[k := Record(blank, 1, false)];
      ledger := Held(Loaded(ledger, k), k);
    }

    /** A record in the history is going to be used: it is no longer subject to eviction. */
    method Revive(k: K)
      requires Valid() && k in history
      modifies this
      ensures Valid() && storage.Keys == old(storage.Keys) && ledger == Held(old(ledger), k)
      ensures forall x :: x in history <==> x in old(history) && x != k
    {
      var i := Position(history, k);
      ReviveInv(compute, limit, storage, history, ledger, i);
      DropOne(history, i, ledger.since);
      history := Without(history, i);
      storage := storage[k := storage[k].(refs := storage[k].refs + 1)];
      ledger := Held(ledger, k);
    }

    /** retrieve_serial: a handle on the record of the key; `isNew` asks the caller to compute
        the value. */
    method Retrieve(k: K) returns (isNew: bool)
      requires Valid()
      modifies this
      ensures Valid() && storage.Keys == old(storage.Keys) + {k}
      ensures isNew <==> k !in old(storage)
      ensures ledger == Held(if isNew then Loaded(old(ledger), k) else old(ledger), k)
      ensures forall x :: x in history <==> x in old(history) && x != k
    {
      isNew := k !in storage;
      if isNew {
        Load(k);
      } else if k in history {
        Revive(k);
      } else {
        ReuseInv(compute, limit, storage, history, ledger, k);
        storage := storage[k := storage[k].(refs := storage[k].refs + 1)];
        ledger := Held(ledger, k);
      }
    }

    /** The thread that was asked to computes the value and marks the record ready. */
    method Publish(k: K)
      requires Valid() && k in ledger.computing
      modifies this
      ensures Valid() && k in storage && storage[k].ready && storage[k].value == compute(k)
      ensures ledger == old(ledger).(computing := old(ledger).computing - {k},
                                        calls := old(ledger).calls[k := Count(old(ledger).calls, k) + 1])
      ensures history == old(history) && storage.Keys == old(storage.Keys)
    {
      storage := storage[k := storage[k].(value := compute(k), ready := true)];
      ledger := ledger.(computing := ledger.computing - {k}, calls := ledger.calls[k := Count(ledger.calls, k) + 1]);
    }

    /** A caller that holds a handle gets the value once the record is ready, and it is the
        right one. */
    method Value(k: K) returns (ready: bool, v: V)
      requires Valid() && Count(ledger.handles, k) >= 1
      ensures k in storage && (ready <==> k !in ledger.computing)
      ensures ready ==> v == compute(k)
    {
      ready, v := storage[k].ready, storage[k].value;
    }

    method EvictLast()
      requires Valid() && history != []
      modifies this`storage, this`history
      ensures Valid() && history == old(history)[..|old(history)| - 1]
      ensures storage == old(storage) - {old(history)[|old(history)| - 1]}
    {
      EvictInv(compute, limit, storage, history, ledger);
      var e := history[|history| - 1];
      history := history[..|history| - 1];
      storage := storage - {e};
    }

    /** The eviction loop: the records idle longest make room for one more. With no room for
        any, it pops from an empty list, which is not defined; the model stops there. */
    method Evict() returns (defined: bool)
      requires Valid() && |history| >= limit
      modifies this`storage, this`history
      ensures Valid() && (defined <==> limit >= 1)
      ensures if defined
              then history == old(history)[..limit - 1] && storage == old(storage) - {old(history)[limit - 1]}
              else history == old(history) && storage == old(storage)
    {
      var n := ToEvict(|history|, limit);
      var i := 0;
      ghost var before := old(storage);
      while i < n
        invariant n == 1 && 0 <= i <= 1 && Valid() && i <= limit && history == old(history)[..limit - i]
        invariant storage == if i == 0 then before else before - {old(history)[limit - 1]}
      {
        if history == [] {
          return false;
        }
        EvictLast();
        i := i + 1;
      }
      return true;
    }

    /** The last handle on `k` is given back. (The source decrements the count first.) */
    method Retire(k: K) returns (defined: bool)
      requires Valid() && k in storage && storage[k].refs == 1 && storage[k].ready
      modifies this
      ensures Valid() && (defined <==> limit >= 1)
      ensures !defined ==> unchanged(this)
      ensures defined ==> ledger == Idled(Given(old(ledger), k), k)
      ensures defined ==> Retired(old(storage.Keys), old(history), limit, storage.Keys, history, k)
    {
      defined := true;
      if |history| >= limit {
        assert limit >= 1 ==> history[limit - 1] in history;
        defined := Evict();
      }
      if defined {
        IdleInv(compute, limit, storage, history, ledger, k);
        history := [k] + history;
        storage := storage[k := storage[k].(refs := 0)];
        ledger := Idled(Given(ledger, k), k);
      }
    }

    /** signal_end_of_usage_serial: a handle is given back. The last one puts the record at the
        front of the history; if that is full, the record idle longest is evicted. This is
        defined unless the last handle is given back to a cache without a history. */
    method Release(k: K) returns (defined: bool)
      requires Valid() && Count(ledger.handles, k) >= 1 && k !in ledger.computing
      modifies this
      ensures Valid() && (defined <==> old(Count(ledger.handles, k)) > 1 || limit >= 1)
      ensures !defined ==> unchanged(this)
      ensures defined
          ==> Released(old(ledger), old(storage.Keys), old(history), limit, ledger, storage.Keys, history, k)
    {
      defined := true;
      if storage[k].refs == 1 {
        defined := Retire(k);
      } else {
        GiveInv(compute, limit, storage, history, ledger, k);
        storage := storage[k := storage[k].(refs := storage[k].refs - 1)];
        ledger := Given(ledger, k);
      }
    }
  }

  /** A handle on `k` was given back. */
  ghost predicate Released<K>(l: Ledger<K>, keys: set<K>, history: seq<K>, limit: nat,
                              l': Ledger<K>, keys': set<K>, history': seq<K>, k: K) {
    && Count(l.handles, k) >= 1
    && if Count(l.handles, k) > 1 then l' == Given(l, k) && history' == history && keys' == keys
       else l' == Idled(Given(l, k), k) && Retired(keys, history, limit, keys', history', k)
  }

  /** A cache without a history: the first value that is given back leads to an eviction from
      an empty list. */
  method NoHistory<K(==, !new), V(!new)>(compute: K -> V, blank: V, k: K)
    returns (c: Cache<K, V>, isNew: bool, defined: bool)
    ensures isNew && !defined && c.limit == 0
  {
    c := new Cache(compute, blank, 0);
    isNew := c.Retrieve(k);
    c.Publish(k);
    defined := c.Release(k);
  }

  /** The key comes to the front of the history; from a full one the last entry is evicted. */
  ghost predicate Retired<K>(keys: set<K>, history: seq<K>, limit: nat, keys': set<K>, history': seq<K>, k: K) {
    if |history| < limit then history' == [k] + history && keys' == keys
    else limit >= 1 && history' == [k] + history[..limit - 1] && keys' == keys - {history[limit - 1]}
  }

  /** The entry at the end of the history is the one idle longest. */
  lemma {:induction false} LastIdlesLongest<K(!new), V>(
      compute: K -> V, limit: nat, storage: map<K, Record<V>>, history: seq<K>, l: Ledger<K>, x: K)
    requires Inv(compute, limit, storage, history, l) && x in history
    ensures l.since[history[|history| - 1]] <= l.since[x]
  {
    var i :| 0 <= i < |history| && history[i] == x;
    if i < |history| - 1 { assert l.since[history[i]] > l.since[history[|history| - 1]]; }
  }

  method Position<K(==)>(s: seq<K>, k: K) returns (i: nat)
    requires k in s
    ensures i < |s| && s[i] == k
  {
    i := 0;
    while s[i] != k
      invariant i < |s| && k in s[i..]
      decreases |s| - i
    {
      assert s[i..] == [s[i]] + s[i + 1..];
      i := i + 1;
    }
  }
}
