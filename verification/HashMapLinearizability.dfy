/** The concurrent table is linearizable: every run of it is a run of the atomic map. */
module HashMapLinearizability {
  import opened HashMapProtocol
  import opened HashMapInvariant
  import opened HashMapSafety
  import opened HashMapContents
  import opened HashMapGuarantees
  import opened AtomicMap

  // ----- what the table stands for

  /** The nodes of the table with their keys. */
  ghost function Contents(s: State): map<NodeId, Key> { map n | n in s.key && InTable(s, n) :: s.key[n] }

  function RequestOf(c: Client): Request {
    Request(c.op, if !c.op.Exclude? then 0 else if Owner(c) then c.node else if c.acc.Acc? then c.acc.node else 0)
  }

  /** The effect is over: the operation has concluded that its key is absent, or its node is
      linked or unlinked. */
  predicate Committed(c: Client) { Owner(c) || c.pc.Alloc? || c.pc.Publish? || (c.pc.ItemTry? && c.isNew) }

  function PhaseOf(c: Client): Phase {
    if c.pc.Idle? then Quiet
    else if c.pc.Absent? then Done(RequestOf(c), false)
    else if Committed(c) then Done(RequestOf(c), true)
    else Called(RequestOf(c))
  }

  ghost function Abs(s: State): Abstract {
    Abstract(Contents(s), seq(|s.clients|, t requires 0 <= t < |s.clients| => PhaseOf(s.clients[t])))
  }

  /** What a step of client `c` shows of the atomic map. */
  function EventOf(s: State, c: Client, a: Step): Event {
    match a
    case Acquire(x) => if x.Begin? then Call(RequestOf(AcquireTo(s, c, x))) else Silent
    case Work(w) =>
      if w.ReturnAbsent? then Answer(false) else if WorkTo(s, c, w).pc.Absent? then Effect(false) else Silent
    case Item(i) =>
      if !i.SkipItem? && !i.TakeItem? then Silent
      else if !c.isNew then EffectAnswer(c.op.Find?)
      else if c.grow != 0 then Silent
      else Answer(true)
    case Share(h) =>
      if h.InsertNode? || h.UnlinkNode? then Effect(true)
      else if h.DeleteNode? || h.PublishMask? then Answer(true)
      else Silent
  }

  // ----- the node at hand has the key of the operation

  predicate AtHand(c: Client) { c.pc.ItemTry? || c.pc.UpgErase? || c.pc.Unlink? || Owner(c) }

  predicate NodeFits(s: State, c: Client) { AtHand(c) ==> c.node in s.key && s.key[c.node] == c.op.key }

  ghost predicate NodesFit(s: State) { forall t :: 0 <= t < |s.clients| ==> NodeFits(s, s.clients[t]) }

  lemma {:induction false} AcquireFits(s: State, t: nat, c: Client, x: AcquireAction)
    requires CanAcquire(s, t, c, x) && NodeFits(s, c)
    ensures NodeFits(s, AcquireTo(s, c, x))
  {}

  lemma {:induction false} WorkFits(s: State, t: nat, c: Client, w: WorkAction)
    requires CanWork(s, t, c, w) && NodeFits(s, c) && SearchOk(s, c) && c.tgt < |s.slots| && Placed(s)
    ensures NodeFits(s, WorkTo(s, c, w))
  {
    if w.Found? {
      assert w.n in s.slots[c.tgt].list;
      assert PlacedAt(s, w.n, c.tgt);
    }
  }

  lemma {:induction false} ItemFits(s: State, t: nat, c: Client, i: ItemAction)
    requires CanItem(s, t, c, i) && NodeFits(s, c)
    ensures NodeFits(s, ItemTo(c, i))
  {}

  lemma {:induction false} ShareFits(s: State, s': State, t: nat, h: ShareAction)
    requires t < |s.clients| && Shares(s, s', t, s.clients[t], h) && NodeFits(s, s.clients[t])
    requires ClientOk(s, s.clients[t])
    ensures |s'.clients| == |s.clients| && NodeFits(s', s'.clients[t])
  {}

  lemma {:induction false} FitsStep(s: State, s': State, t: nat, a: Step)
    requires t < |s.clients| && Does(s, s', t, a) && ClientsOk(s) && Placed(s) && NodesFit(s)
    ensures NodesFit(s')
  {
    var c := s.clients[t];
    assert ClientOk(s, c) && NodeFits(s, c);
    match a
    case Acquire(x) => AcquireFits(s, t, c, x);
    case Work(w) => WorkFits(s, t, c, w);
    case Item(i) => ItemFits(s, t, c, i);
    case Share(h) => ShareFits(s, s', t, h);
    OthersFit(s, s', t, a);
  }

  lemma {:induction false} OthersFit(s: State, s': State, t: nat, a: Step)
    requires t < |s.clients| && Does(s, s', t, a) && NodesFit(s)
    requires |s'.clients| == |s.clients| && NodeFits(s', s'.clients[t])
    ensures NodesFit(s')
  {
    ClientsElse(s, s', t, a);
    forall u | 0 <= u < |s'.clients| ensures NodeFits(s', s'.clients[u]) {
      if u != t { assert NodeFits(s, s.clients[u]); }
    }
  }

  lemma {:induction false} RunFits(tr: seq<State>, i: nat)
    requires Run(tr) && i < |tr|
    ensures NodesFit(tr[i])
  {
    if i == 0 {
      forall t | 0 <= t < |tr[0].clients| ensures NodeFits(tr[0], tr[0].clients[t]) {
        assert tr[0].clients[t] in tr[0].clients;
      }
    } else {
      RunFits(tr, i - 1);
      RunInv(tr, i - 1);
      assert Next(tr[i - 1], tr[i - 1 + 1]);
      FitsNext(tr[i - 1], tr[i]);
    }
  }

  lemma {:induction false} FitsNext(s: State, s': State)
    requires Next(s, s') && Inv(s) && NodesFit(s)
    ensures NodesFit(s')
  {
    var t: nat, a: Step :| t < |s.clients| && Does(s, s', t, a);
    FitsStep(s, s', t, a);
  }

  // ----- contents

  /** The contents change as the abstract effect says. */
  lemma {:induction false} ContentsStep(s: State, s': State, t: nat, a: Step)
    requires t < |s.clients| && Does(s, s', t, a) && Inv(s)
    ensures Contents(s') ==
            if a.Share? && a.h.InsertNode? then Contents(s)[a.h.n := s.clients[t].op.key]
            else if a.Share? && a.h.UnlinkNode? then Contents(s) - {s.clients[t].node}
            else Contents(s)
  {
    KeysStep(s, s', t, a);
    TableStepAll(s, s', t, a);
    ContentsFrom(s, s', t, a);
  }

  lemma {:induction false} TableStepAll(s: State, s': State, t: nat, a: Step)
    requires t < |s.clients| && Does(s, s', t, a) && Inv(s)
    ensures forall n :: InTable(s', n) == TableAfter(s, t, a, n)
  {
    forall n ensures InTable(s', n) == TableAfter(s, t, a, n) { TableStep(s, s', t, a, n); }
  }

  lemma {:induction false} ContentsFrom(s: State, s': State, t: nat, a: Step)
    requires t < |s.clients| && forall n :: InTable(s', n) == TableAfter(s, t, a, n)
    requires s'.key == if a.Share? && a.h.InsertNode? then s.key[a.h.n := s.clients[t].op.key] else s.key
    requires a.Share? && a.h.InsertNode? ==> a.h.n !in s.key
    ensures Contents(s') ==
            if a.Share? && a.h.InsertNode? then Contents(s)[a.h.n := s.clients[t].op.key]
            else if a.Share? && a.h.UnlinkNode? then Contents(s) - {s.clients[t].node}
            else Contents(s)
  {
    if a.Share? && a.h.InsertNode? {
      ContentsAdd(s, s', a.h.n, s.clients[t].op.key);
    } else if a.Share? && a.h.UnlinkNode? {
      ContentsDrop(s, s', s.clients[t].node);
    }
  }

  lemma {:induction false} ContentsAdd(s: State, s': State, n: NodeId, k: Key)
    requires s'.key == s.key[n := k] && n !in s.key && forall x :: InTable(s', x) == (InTable(s, x) || x == n)
    ensures Contents(s') == Contents(s)[n := k]
  {}

  lemma {:induction false} ContentsDrop(s: State, s': State, n: NodeId)
    requires s'.key == s.key && forall x :: InTable(s', x) == (InTable(s, x) && x != n)
    ensures Contents(s') == Contents(s) - {n}
  {}

  lemma {:induction false} KeysStep(s: State, s': State, t: nat, a: Step)
    requires t < |s.clients| && Does(s, s', t, a)
    ensures s'.key == if a.Share? && a.h.InsertNode? then s.key[a.h.n := s.clients[t].op.key] else s.key
    ensures a.Share? && a.h.InsertNode? ==> a.h.n !in s.key
  {
    match a
    case Acquire(_) =>
    case Work(_) =>
    case Item(_) =>
    case Share(_) =>
  }

  lemma {:induction false} InContents(s: State, n: NodeId)
    requires Placed(s)
    ensures n in Contents(s) <==> InTable(s, n)
    ensures n in Contents(s) ==> Contents(s)[n] == KeyOf(s, n)
  {
    if InTable(s, n) {
      var b :| 0 <= b < |s.slots| && n in s.slots[b].list;
      assert PlacedAt(s, n, b);
    }
  }

  // ----- the effects

  /** Inserting: the key was absent. */
  lemma {:induction false} InsertApplies(s: State, s': State, t: nat, n: NodeId)
    requires t < |s.clients| && Does(s, s', t, Share(InsertNode(n))) && Inv(s)
    ensures Applies(Contents(s), RequestOf(s.clients[t]), true, Contents(s'))
  {
    var c := s.clients[t];
    assert ClientOk(s, c);
    ContentsStep(s, s', t, Share(InsertNode(n)));
    ReadyIsAbsent(s, t);
    assert n !in Contents(s);
    forall x | x in Contents(s) ensures Contents(s)[x] != c.op.key {
      InContents(s, x);
      var b :| 0 <= b < |s.slots| && x in s.slots[b].list;
    }
  }

  lemma {:induction false} ReadyIsAbsent(s: State, t: nat)
    requires t < |s.clients| && s.clients[t].pc.Ready? && Inv(s)
    ensures forall b, x :: 0 <= b < |s.slots| && x in s.slots[b].list ==> KeyOf(s, x) != s.clients[t].op.key
  {
    assert ClientOk(s, s.clients[t]);
    HashMapTable.NowhereElse(s, t);
  }

  /** Unlinking: the node was there, with the key of the operation. */
  lemma {:induction false} UnlinkApplies(s: State, s': State, t: nat, p: nat)
    requires t < |s.clients| && Does(s, s', t, Share(UnlinkNode(p))) && Inv(s) && NodesFit(s)
    ensures Applies(Contents(s), RequestOf(s.clients[t]), true, Contents(s'))
  {
    var c := s.clients[t];
    assert ClientOk(s, c) && NodeFits(s, c);
    ContentsStep(s, s', t, Share(UnlinkNode(p)));
    assert c.node in s.slots[c.tgt].list;
    InContents(s, c.node);
    assert c.op.Erase? || c.op.Exclude?;
  }

  /** A positive find, or an insertion that finds its key: the node is in the locked bucket. */
  lemma {:induction false} FoundApplies(s: State, t: nat)
    requires t < |s.clients| && s.clients[t].pc.ItemTry? && Inv(s) && NodesFit(s)
    ensures var c := s.clients[t];
            && c.node in Contents(s) && Contents(s)[c.node] == c.op.key && (c.op.Find? || c.op.Insert?)
            && Applies(Contents(s), RequestOf(c), c.op.Find?, Contents(s))
  {
    var c := s.clients[t];
    assert ClientOk(s, c) && NodeFits(s, c);
    assert c.node in s.slots[c.tgt].list;
    InContents(s, c.node);
  }

  /** A conclusion: what was sought is not in the table. */
  lemma {:induction false} AbsentApplies(s: State, t: nat, w: WorkAction)
    requires t < |s.clients| && CanWork(s, t, s.clients[t], w) && !w.ReturnAbsent? && Inv(s)
    requires WorkTo(s, s.clients[t], w).pc.Absent?
    ensures Applies(Contents(s), RequestOf(s.clients[t]), false, Contents(s))
  {
    var c := s.clients[t];
    assert ClientOk(s, c);
    ConclusionHolds(s, t, w);
    forall x | x in Contents(s) ensures if c.op.Exclude? then x != c.acc.node else Contents(s)[x] != c.op.key {
      InContents(s, x);
      var b :| 0 <= b < |s.slots| && x in s.slots[b].list;
    }
  }

  // ----- the simulation

  lemma {:induction false} AcquireShows(s: State, t: nat, c: Client, x: AcquireAction)
    requires CanAcquire(s, t, c, x)
    ensures Shows(Contents(s), PhaseOf(c), EventOf(s, c, Acquire(x)), PhaseOf(AcquireTo(s, c, x)), Contents(s))
  {}

  lemma {:induction false} WorkPhase(s: State, t: nat, c: Client, w: WorkAction)
    requires CanWork(s, t, c, w) && SearchOk(s, c) && !c.isNew
    ensures var c' := WorkTo(s, c, w);
            if w.ReturnAbsent? then PhaseOf(c) == Done(RequestOf(c), false) && PhaseOf(c') == Quiet
            else if c'.pc.Absent? then PhaseOf(c) == Called(RequestOf(c)) && PhaseOf(c') == Done(RequestOf(c), false)
            else PhaseOf(c') == PhaseOf(c)
  {}

  /** Steps that conclude nothing. */
  lemma {:induction false} WorkQuiet(s: State, t: nat, c: Client, w: WorkAction, m: map<NodeId, Key>)
    requires CanWork(s, t, c, w) && SearchOk(s, c) && !c.isNew && (w.ReturnAbsent? || !WorkTo(s, c, w).pc.Absent?)
    ensures Shows(m, PhaseOf(c), EventOf(s, c, Work(w)), PhaseOf(WorkTo(s, c, w)), m)
  {
    WorkPhase(s, t, c, w);
  }

  lemma {:induction false} WorkAbsent(s: State, t: nat, c: Client, w: WorkAction, m: map<NodeId, Key>)
    requires CanWork(s, t, c, w) && SearchOk(s, c) && !c.isNew && !w.ReturnAbsent? && WorkTo(s, c, w).pc.Absent?
    requires Applies(m, RequestOf(c), false, m)
    ensures Shows(m, PhaseOf(c), EventOf(s, c, Work(w)), PhaseOf(WorkTo(s, c, w)), m)
  {
    WorkPhase(s, t, c, w);
  }

  /** What the invariant says of one client. */
  lemma {:induction false} ClientFacts(s: State, t: nat)
    requires t < |s.clients| && Inv(s)
    ensures var c := s.clients[t];
            && ClientOk(s, c) && GrowerOk(s, c)
            && (c.isNew ==> c.pc.ItemTry? && forall w :: ItemFree(s, t, c.node, w))
            && (c.pc.ItemUpg? ==> HasAcc(c, c.node))
  {
    var c := s.clients[t];
    NewIsItemTry(s, t);
    if c.isNew {
      forall w ensures ItemFree(s, t, c.node, w) { HashMapItems.NewItemFree(s, t, w); }
    }
    if Owner(c) { assert OwnerOk(s, t); }
  }

  lemma {:induction false} WorkShows(s: State, t: nat, w: WorkAction)
    requires t < |s.clients| && CanWork(s, t, s.clients[t], w) && Inv(s)
    ensures var c := s.clients[t];
            Shows(Contents(s), PhaseOf(c), EventOf(s, c, Work(w)), PhaseOf(WorkTo(s, c, w)), Contents(s))
  {
    var c := s.clients[t];
    ClientFacts(s, t);
    if !w.ReturnAbsent? && WorkTo(s, c, w).pc.Absent? {
      AbsentApplies(s, t, w);
      WorkAbsent(s, t, c, w, Contents(s));
    } else {
      WorkQuiet(s, t, c, w, Contents(s));
    }
  }

  lemma {:induction false} NewIsItemTry(s: State, t: nat)
    requires t < |s.clients| && NodesOk(s)
    ensures s.clients[t].isNew ==> s.clients[t].pc.ItemTry?
  {
    if s.clients[t].isNew { assert NewOk(s, t); }
  }

  lemma {:induction false} ItemPhase(s: State, t: nat, c: Client, i: ItemAction)
    requires CanItem(s, t, c, i) && GrowerOk(s, c) && (c.isNew ==> c.pc.ItemTry? && !i.GiveUp?)
    requires c.pc.ItemTry? ==> c.op.Find? || c.op.Insert?
    requires c.op.Exclude? && c.pc.ItemUpg? ==> HasAcc(c, c.node)
    ensures var c' := ItemTo(c, i);
            if !i.SkipItem? && !i.TakeItem? then PhaseOf(c') == PhaseOf(c)
            else if !c.isNew then PhaseOf(c) == Called(RequestOf(c)) && PhaseOf(c') == Quiet
            else PhaseOf(c) == Done(RequestOf(c), true) && PhaseOf(c') == if c.grow != 0 then PhaseOf(c) else Quiet
  {}

  lemma {:induction false} ItemEvent(s: State, t: nat, c: Client, i: ItemAction, m: map<NodeId, Key>)
    requires CanItem(s, t, c, i) && GrowerOk(s, c) && (c.isNew ==> c.pc.ItemTry? && !i.GiveUp?)
    requires c.pc.ItemTry? ==> (c.op.Find? || c.op.Insert?) && (c.isNew || Applies(m, RequestOf(c), c.op.Find?, m))
    requires c.op.Exclude? && c.pc.ItemUpg? ==> HasAcc(c, c.node)
    ensures Shows(m, PhaseOf(c), EventOf(s, c, Item(i)), PhaseOf(ItemTo(c, i)), m)
  {
    ItemPhase(s, t, c, i);
  }

  lemma {:induction false} ItemShows(s: State, t: nat, i: ItemAction)
    requires t < |s.clients| && CanItem(s, t, s.clients[t], i) && Inv(s) && NodesFit(s)
    ensures var c := s.clients[t];
            Shows(Contents(s), PhaseOf(c), EventOf(s, c, Item(i)), PhaseOf(ItemTo(c, i)), Contents(s))
  {
    var c := s.clients[t];
    ClientFacts(s, t);
    if c.pc.ItemTry? { FoundApplies(s, t); }
    ItemEvent(s, t, c, i, Contents(s));
  }

  lemma {:induction false} SharePhase(s: State, s': State, t: nat, c: Client, h: ShareAction)
    requires t < |s.clients| && c == s.clients[t] && Shares(s, s', t, c, h) && ClientOk(s, c) && !c.isNew
    ensures |s'.clients| == |s.clients|
    ensures var c' := s'.clients[t];
            if h.InsertNode? || h.UnlinkNode?
            then PhaseOf(c) == Called(RequestOf(c)) && PhaseOf(c') == Done(RequestOf(c), true)
            else if h.DeleteNode? || h.PublishMask? then PhaseOf(c) == Done(RequestOf(c), true) && PhaseOf(c') == Quiet
            else PhaseOf(c') == PhaseOf(c)
  {
    match h
    case Mark =>
    case ScanDone =>
    case ScanMove =>
    case InsertNode(_) =>
    case UnlinkNode(_) =>
    case DeleteNode =>
    case AllocSegment =>
    case PublishMask =>
  }

  lemma {:induction false} ShareShows(s: State, s': State, t: nat, h: ShareAction)
    requires t < |s.clients| && Does(s, s', t, Share(h)) && Inv(s) && NodesFit(s)
    ensures |s'.clients| == |s.clients|
    ensures var c := s.clients[t];
            Shows(Contents(s), PhaseOf(c), EventOf(s, c, Share(h)), PhaseOf(s'.clients[t]), Contents(s'))
  {
    var c := s.clients[t];
    assert ClientOk(s, c);
    NewIsItemTry(s, t);
    SharePhase(s, s', t, c, h);
    ContentsStep(s, s', t, Share(h));
    match h
    case InsertNode(n) => InsertApplies(s, s', t, n);
    case UnlinkNode(p) => UnlinkApplies(s, s', t, p);
    case _ =>
  }

  lemma {:induction false} StepShows(s: State, s': State, t: nat, a: Step)
    requires t < |s.clients| && Does(s, s', t, a) && Inv(s) && NodesFit(s)
    ensures |s'.clients| == |s.clients|
    ensures Shows(Contents(s), PhaseOf(s.clients[t]), EventOf(s, s.clients[t], a), PhaseOf(s'.clients[t]), Contents(s'))
  {
    var c := s.clients[t];
    match a
    case Acquire(x) => ContentsStep(s, s', t, a); AcquireShows(s, t, c, x);
    case Work(w) => ContentsStep(s, s', t, a); WorkShows(s, t, w);
    case Item(i) => ContentsStep(s, s', t, a); ItemShows(s, t, i);
    case Share(h) => ShareShows(s, s', t, h);
  }

  /** Every step of the concurrent table is a step of the atomic map. */
  lemma {:induction false} Simulates(s: State, s': State, t: nat, a: Step)
    requires t < |s.clients| && Does(s, s', t, a) && Inv(s) && NodesFit(s)
    ensures AtomicStep(Abs(s), Abs(s'), t, EventOf(s, s.clients[t], a))
  {
    StepShows(s, s', t, a);
    ClientsElse(s, s', t, a);
  }

  // ----- runs

  /** A run with the client and the step taken at each point. */
  ghost predicate RunWith(tr: seq<State>, who: seq<nat>, steps: seq<Step>) {
    && |tr| == |who| + 1 == |steps| + 1 && Init(tr[0])
    && forall i :: 0 <= i < |who| ==> who[i] < |tr[i].clients| && Does(tr[i], tr[i + 1], who[i], steps[i])
  }

  ghost function AbsRun(tr: seq<State>): seq<Abstract> {
    seq(|tr|, i requires 0 <= i < |tr| => Abs(tr[i]))
  }

  ghost function Events(tr: seq<State>, who: seq<nat>, steps: seq<Step>): (es: seq<Event>)
    requires RunWith(tr, who, steps)
    ensures |es| == |who|
  {
    seq(|who|, i requires 0 <= i < |who| => EventOf(tr[i], tr[i].clients[who[i]], steps[i]))
  }

  lemma {:induction false} RunWithRuns(tr: seq<State>, who: seq<nat>, steps: seq<Step>)
    requires RunWith(tr, who, steps)
    ensures Run(tr)
  {
    forall i | 0 <= i < |tr| - 1 ensures Next(tr[i], tr[i + 1]) {
      assert Does(tr[i], tr[i + 1], who[i], steps[i]);
    }
  }

  /** Every run of the concurrent table, with lazy rehashing, stale masks and growth, is a run
      of the atomic map. */
  lemma {:induction false} RunIsAtomic(tr: seq<State>, who: seq<nat>, steps: seq<Step>)
    requires RunWith(tr, who, steps)
    ensures AtomicRun(AbsRun(tr), who, Events(tr, who, steps))
  {
    RunWithRuns(tr, who, steps);
    var xs, es := AbsRun(tr), Events(tr, who, steps);
    forall i | 0 <= i < |who| ensures AtomicStep(xs[i], xs[i + 1], who[i], es[i]) {
      RunInv(tr, i);
      RunFits(tr, i);
      Simulates(tr[i], tr[i + 1], who[i], steps[i]);
    }
    InitAbs(tr[0]);
  }

  lemma {:induction false} InitAbs(s: State)
    requires Init(s)
    ensures Contents(s) == map[] && forall t :: 0 <= t < |s.clients| ==> PhaseOf(s.clients[t]) == Quiet
  {
    forall t | 0 <= t < |s.clients| ensures PhaseOf(s.clients[t]) == Quiet { assert s.clients[t] in s.clients; }
  }

  /** Client `who[j]` called a request at step `i`, it took effect with its answer at step `k`,
      and apart from that the client showed nothing up to its answer at step `j`. */
  ghost predicate Linearized(tr: seq<State>, who: seq<nat>, es: seq<Event>, i: nat, k: nat, j: nat)
    requires |tr| == |who| + 1 == |es| + 1
  {
    && i < k <= j < |who| && who[i] == who[k] == who[j]
    && es[i].Call? && TakesEffect(es[k]) && Answers(es[j]) && es[k].ans == es[j].ans
    && Applies(Contents(tr[k]), es[i].r, es[j].ans, Contents(tr[k + 1]))
    && ShowsNothing(who, es, who[j], i + 1, k) && ShowsNothing(who, es, who[j], k + 1, j)
  }

  lemma {:induction false} LinearizedAt(tr: seq<State>, who: seq<nat>, es: seq<Event>, j: nat) returns (i: nat, k: nat)
    requires |tr| == |who| + 1 == |es| + 1 && AtomicRun(AbsRun(tr), who, es) && j < |who| && Answers(es[j])
    ensures Linearized(tr, who, es, i, k, j)
  {
    i, k := OneEffect(AbsRun(tr), who, es, who[j], j);
  }

  /** Linearizability: every operation that is answered took effect atomically at exactly one
      step between its call and its answer, with the sequential meaning of find, insert, erase
      or exclude on the contents of the table, and with the answer given. */
  lemma {:induction false} Linearizable(
      tr: seq<State>, who: seq<nat>, steps: seq<Step>, j: nat) returns (i: nat, k: nat)
    requires RunWith(tr, who, steps) && j < |who| && Answers(Events(tr, who, steps)[j])
    ensures Linearized(tr, who, Events(tr, who, steps), i, k, j)
  {
    RunIsAtomic(tr, who, steps);
    i, k := LinearizedAt(tr, who, Events(tr, who, steps), j);
  }

  /** An accessor is handed out on the node that the map has for the key. */
  lemma {:induction false} AccessorFits(tr: seq<State>, who: seq<nat>, steps: seq<Step>, j: nat)
    requires RunWith(tr, who, steps) && j < |who| && steps[j] == Item(TakeItem)
    ensures var c, c' := tr[j].clients[who[j]], tr[j + 1].clients[who[j]];
            && c'.acc == Acc(c.node, c.op.want.WriteAccess?)
            && c.node in Contents(tr[j + 1]) && Contents(tr[j + 1])[c.node] == c.op.key
  {
    RunWithRuns(tr, who, steps);
    RunInv(tr, j);
    RunFits(tr, j);
    assert Does(tr[j], tr[j + 1], who[j], steps[j]);
    FoundApplies(tr[j], who[j]);
    ContentsStep(tr[j], tr[j + 1], who[j], steps[j]);
  }
}
