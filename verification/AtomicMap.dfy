/** The atomic map every operation of the concurrent table has to look like: a request is
    called, takes effect once and atomically, and is answered. */
module AtomicMap {
  import opened HashMapProtocol

  /** An operation; exclude is about the node of its accessor, `item`. */
  datatype Request = Request(op: Op, item: NodeId)

  /** How far a client's request is: it has taken effect, with answer `ans`, when done. */
  datatype Phase = Quiet | Called(r: Request) | Done(r: Request, ans: bool)

  /** The nodes of the map with their keys, and the clients. */
  datatype Abstract = Abstract(contents: map<NodeId, Key>, phases: seq<Phase>)

  ghost predicate HasKeyOf(m: map<NodeId, Key>, k: Key) { exists n :: n in m && m[n] == k }

  /** The sequential meaning of a request: find and count look, insert adds a node for a new key
      and only for a new one, erase removes the node of the key, exclude its own node. */
  ghost predicate Applies(m: map<NodeId, Key>, r: Request, ans: bool, m': map<NodeId, Key>) {
    match r.op
    case Find(k, _) => m' == m && (ans <==> HasKeyOf(m, k))
    case Insert(k, _) =>
      if ans then !HasKeyOf(m, k) && exists n: NodeId :: n !in m && m' == m[n := k] else HasKeyOf(m, k) && m' == m
    case Erase(k) =>
      if ans then exists n :: n in m && m[n] == k && m' == m - {n} else !HasKeyOf(m, k) && m' == m
    case Exclude(k) =>
      if ans then r.item in m && m[r.item] == k && m' == m - {r.item} else r.item !in m && m' == m
  }

  /** What a step shows: nothing, a call, an effect, an answer, or an effect that is answered at
      once. */
  datatype Event = Silent | Call(r: Request) | Effect(ans: bool) | Answer(ans: bool) | EffectAnswer(ans: bool)

  predicate TakesEffect(e: Event) { e.Effect? || e.EffectAnswer? }

  predicate Answers(e: Event) { e.Answer? || e.EffectAnswer? }

  /** A step that shows `e` takes a client from phase `p` to `p'` and the contents from `m` to
      `m'`. */
  ghost predicate Shows(m: map<NodeId, Key>, p: Phase, e: Event, p': Phase, m': map<NodeId, Key>) {
    match e
    case Silent => p' == p && m' == m
    case Call(r) => p == Quiet && p' == Called(r) && m' == m
    case Effect(ans) => p.Called? && p' == Done(p.r, ans) && Applies(m, p.r, ans, m')
    case Answer(ans) => p.Done? && p.ans == ans && p' == Quiet && m' == m
    case EffectAnswer(ans) => p.Called? && p' == Quiet && Applies(m, p.r, ans, m')
  }

  /** Client `t` of the atomic map takes a step that shows `e`. */
  ghost predicate AtomicStep(x: Abstract, x': Abstract, t: nat, e: Event) {
    && |x'.phases| == |x.phases| && t < |x.phases|
    && (forall u :: 0 <= u < |x.phases| && u != t ==> x'.phases[u] == x.phases[u])
    && Shows(x.contents, x.phases[t], e, x'.phases[t], x'.contents)
  }

  /** A run of the atomic map: step `i` is taken by client `who[i]` and shows `es[i]`. */
  ghost predicate AtomicRun(xs: seq<Abstract>, who: seq<nat>, es: seq<Event>) {
    && |xs| == |who| + 1 == |es| + 1 && xs[0].contents == map[]
    && (forall u :: 0 <= u < |xs[0].phases| ==> xs[0].phases[u] == Quiet)
    && (forall i :: 0 <= i < |who| ==> AtomicStep(xs[i], xs[i + 1], who[i], es[i]))
  }

  // ----- one effect between call and answer

  /** Client `t` shows nothing at the steps from `i` up to `j`. */
  predicate ShowsNothing(who: seq<nat>, es: seq<Event>, t: nat, i: nat, j: nat) {
    forall m :: i <= m < j && m < |who| && m < |es| && who[m] == t ==> es[m] == Silent
  }

  lemma {:induction false} PhaseBefore(xs: seq<Abstract>, who: seq<nat>, es: seq<Event>, t: nat, j: nat)
    requires AtomicRun(xs, who, es) && 0 < j < |xs| && t < |xs[j].phases|
    ensures t < |xs[j - 1].phases|
    ensures who[j - 1] != t || es[j - 1] == Silent ==> xs[j - 1].phases[t] == xs[j].phases[t]
    ensures who[j - 1] == t ==> AtomicStep(xs[j - 1], xs[j], t, es[j - 1])
  {
    assert AtomicStep(xs[j - 1], xs[j - 1 + 1], who[j - 1], es[j - 1]);
  }

  /** A request that has been called and has taken no effect yet was called at some step `i`,
      and its client has shown nothing since. */
  lemma {:induction false} CalledAt(xs: seq<Abstract>, who: seq<nat>, es: seq<Event>, t: nat, j: nat) returns (i: nat)
    requires AtomicRun(xs, who, es) && j < |xs| && t < |xs[j].phases| && xs[j].phases[t].Called?
    ensures i < j && who[i] == t && es[i] == Call(xs[j].phases[t].r) && ShowsNothing(who, es, t, i + 1, j)
    decreases j
  {
    assert j != 0;
    PhaseBefore(xs, who, es, t, j);
    i := j - 1;
    if who[i] != t || es[i] == Silent { i := CalledAt(xs, who, es, t, j - 1); }
  }

  /** A request that is done took effect at some step `k`, with its answer, and its client has
      shown nothing since. */
  lemma {:induction false} DoneAt(xs: seq<Abstract>, who: seq<nat>, es: seq<Event>, t: nat, j: nat) returns (k: nat)
    requires AtomicRun(xs, who, es) && j < |xs| && t < |xs[j].phases| && xs[j].phases[t].Done?
    ensures k < j && who[k] == t && es[k] == Effect(xs[j].phases[t].ans) && ShowsNothing(who, es, t, k + 1, j)
    ensures t < |xs[k].phases| && xs[k].phases[t] == Called(xs[j].phases[t].r)
    decreases j
  {
    assert j != 0;
    PhaseBefore(xs, who, es, t, j);
    k := j - 1;
    if who[k] != t || es[k] == Silent { k := DoneAt(xs, who, es, t, j - 1); }
  }

  /** Every answered request was called at a step `i` and took effect atomically at one step `k`
      after it and not after the answer, with the sequential meaning of the request and with the
      answer given; apart from these its client shows nothing between call and answer, so it
      took effect exactly once. */
  lemma {:induction false} OneEffect(
      xs: seq<Abstract>, who: seq<nat>, es: seq<Event>, t: nat, j: nat) returns (i: nat, k: nat)
    requires AtomicRun(xs, who, es) && j < |who| && who[j] == t && Answers(es[j])
    ensures i < k <= j && who[i] == t && es[i].Call? && who[k] == t && TakesEffect(es[k]) && es[k].ans == es[j].ans
    ensures Applies(xs[k].contents, es[i].r, es[j].ans, xs[k + 1].contents)
    ensures ShowsNothing(who, es, t, i + 1, k) && ShowsNothing(who, es, t, k + 1, j)
  {
    assert AtomicStep(xs[j], xs[j + 1], who[j], es[j]);
    k := j;
    if es[j].Answer? {
      k := DoneAt(xs, who, es, t, j);
      assert AtomicStep(xs[k], xs[k + 1], who[k], es[k]);
    }
    i := CalledAt(xs, who, es, t, k);
  }

  /** The contents change only where some request takes effect. */
  lemma {:induction false} OnlyEffectsChange(xs: seq<Abstract>, who: seq<nat>, es: seq<Event>, j: nat)
    requires AtomicRun(xs, who, es) && j < |who| && xs[j + 1].contents != xs[j].contents
    ensures TakesEffect(es[j])
  {
    assert AtomicStep(xs[j], xs[j + 1], who[j], es[j]);
  }
}
