/** The aggregator: every step keeps the invariant. */
module AggregatorSteps {
  import opened Aggregator

  // ----- what a step of one thread leaves alone

  /** Only `t` moved; the operations of `l` did not change. */
  predicate Moves(s: State, t: Tid, s': State, l: seq<Addr>) {
    && t in s.pc && t in s'.pc && s'.pc == s.pc[t := s'.pc[t]]
    && forall i :: 0 <= i < |l| ==> Same(s, s', l[i])
  }

  predicate Same(s: State, s': State, a: Addr) {
    && (a in s.next ==> a in s'.next && s'.next[a] == s.next[a])
    && (a in s.finished ==> a in s'.finished && s'.finished[a] == s.finished[a])
    && (a in s.applied ==> a in s'.applied && s'.applied[a] == s.applied[a])
    && (a in s.owner ==> a in s'.owner && s'.owner[a] == s.owner[a])
  }

  /** `t` does not own a listed operation, or it goes on with the same one in a similar place. */
  predicate Keeps(s: State, t: Tid, s': State)
    requires t in s.pc && t in s'.pc
  {
    && (Waiting(s.pc[t]) <==> Waiting(s'.pc[t])) && (Waiting(s.pc[t]) ==> s.pc[t].op == s'.pc[t].op)
  }

  predicate NotIn(s: State, t: Tid, l: seq<Addr>) {
    forall i :: 0 <= i < |l| && l[i] in s.owner ==> s.owner[l[i]] != t
  }

  lemma {:induction false} QueueFrame(s: State, t: Tid, s': State)
    requires QueueOk(s) && Moves(s, t, s', s.queue) && Keeps(s, t, s')
    requires s'.queue == s.queue && s'.mailbox == s.mailbox
    requires Waiting(s.pc[t]) || NotIn(s, t, s.queue)
    ensures QueueOk(s')
  {}

  lemma {:induction false} WorkFrame(s: State, t: Tid, s': State)
    requires WorkOk(s) && Moves(s, t, s', s.work) && s'.work == s.work && s'.busy == s.busy && s'.handler == s.handler
    requires NotIn(s, t, s.work) && !Handling(s.pc[t]) && !Handling(s'.pc[t])
    ensures WorkOk(s')
  {
    forall u | u in s'.pc && Handling(s'.pc[u]) ensures Progress(s', s'.pc[u]) {
      assert s'.pc[u] == s.pc[u] && Progress(s, s.pc[u]);
    }
  }

  lemma {:induction false} BusyFrame(s: State, t: Tid, s': State)
    requires BusyOk(s) && Moves(s, t, s', []) && s'.busy == s.busy && s'.handler == s.handler
    requires Inside(s.pc[t]) <==> Inside(s'.pc[t])
    requires s'.pc[t].Seize? ==> !s.busy
    ensures BusyOk(s')
  {}

  /** The other threads' operations did not change, nor did the lists. */
  lemma {:induction false} OwnsFrame(s: State, t: Tid, s': State)
    requires Owns(s) && Moves(s, t, s', []) && s'.queue == s.queue && s'.work == s.work
    requires forall u :: u in s.pc && u != t && !s.pc[u].Idle? ==> Same(s, s', s.pc[u].op)
    requires Own(s', s'.pc[t])
    ensures Owns(s')
  {
    forall u | u in s'.pc ensures Own(s', s'.pc[u]) {
      if u != t { assert Own(s, s.pc[u]); }
    }
  }

  lemma {:induction false} OwnersFrame(s: State, t: Tid, s': State)
    requires OwnersApart(s) && Moves(s, t, s', [])
    requires forall u :: u in s.pc && !s.pc[u].Idle?
              ==> Known(s', s.pc[u].op) && s'.owner[s.pc[u].op] == s.owner[s.pc[u].op]
    requires s'.pc[t].Idle? || (!s.pc[t].Idle? && s'.pc[t].op == s.pc[t].op)
    ensures OwnersApart(s')
  {}

  /** A thread that owns no listed operation: idle, entering or leaving. */
  lemma {:induction false} Unlisted(s: State, t: Tid)
    requires OwnersApart(s) && QueueOk(s) && WorkOk(s) && Owns(s) && t in s.pc
    requires s.pc[t].Idle? || s.pc[t].Read? || s.pc[t].Cas? || s.pc[t].Leave? || s.pc[t].Release?
    ensures NotIn(s, t, s.queue) && NotIn(s, t, s.work)
  {
    assert Own(s, s.pc[t]);
    forall i | 0 <= i < |s.queue| && s.queue[i] in s.owner ensures s.owner[s.queue[i]] != t {
      assert Alive(s, s.queue[i]);
    }
    forall i | 0 <= i < |s.work| && s.work[i] in s.owner ensures s.owner[s.work[i]] != t {
      assert Alive(s, s.work[i]);
    }
  }

  // ----- the steps keep the invariant

  lemma {:induction false} BeginUnlisted(s: State, t: Tid, a: Addr, s': State)
    requires QueueOk(s) && WorkOk(s) && Begin(s, t, a, s')
    ensures a !in s.queue && a !in s.work
  {
    forall i | 0 <= i < |s.queue| ensures s.queue[i] != a { assert Alive(s, s.queue[i]); }
    forall i | 0 <= i < |s.work| ensures s.work[i] != a { assert Alive(s, s.work[i]); }
  }

  lemma {:induction false} BeginOwners(s: State, t: Tid, a: Addr, s': State)
    requires OwnersApart(s) && Begin(s, t, a, s')
    ensures OwnersApart(s')
  {}

  lemma {:induction false} BeginOwns(s: State, t: Tid, a: Addr, s': State)
    requires Owns(s) && Begin(s, t, a, s') && a !in s.queue && a !in s.work
    ensures Owns(s')
  {
    OwnsFrame(s, t, s');
  }

  lemma {:induction false} BeginQueue(s: State, t: Tid, a: Addr, s': State)
    requires QueueOk(s) && Begin(s, t, a, s') && a !in s.queue && NotIn(s, t, s.queue)
    ensures QueueOk(s')
  {
    BeginMoves(s, t, a, s', s.queue);
    QueueFrame(s, t, s');
  }

  lemma {:induction false} BeginMoves(s: State, t: Tid, a: Addr, s': State, l: seq<Addr>)
    requires Begin(s, t, a, s') && a !in l
    ensures Moves(s, t, s', l)
  {
    forall i | 0 <= i < |l| ensures Same(s, s', l[i]) { assert l[i] in l; }
  }

  lemma {:induction false} BeginWork(s: State, t: Tid, a: Addr, s': State)
    requires WorkOk(s) && Begin(s, t, a, s') && a !in s.work && NotIn(s, t, s.work)
    ensures WorkOk(s')
  {
    BeginMoves(s, t, a, s', s.work);
    WorkFrame(s, t, s');
  }

  lemma {:induction false} BeginInv(s: State, t: Tid, a: Addr, s': State)
    requires Inv(s) && Begin(s, t, a, s')
    ensures Inv(s')
  {
    Unlisted(s, t);
    BeginUnlisted(s, t, a, s');
    BeginOwners(s, t, a, s');
    BeginQueue(s, t, a, s');
    BeginWork(s, t, a, s');
    BusyFrame(s, t, s');
    BeginOwns(s, t, a, s');
  }

  lemma {:induction false} ReadInv(s: State, t: Tid, s': State)
    requires Inv(s) && ReadMailbox(s, t, s')
    ensures Inv(s')
  {
    Unlisted(s, t);
    assert Own(s, s.pc[t]);
    OwnersFrame(s, t, s');
    QueueFrame(s, t, s');
    WorkFrame(s, t, s');
    BusyFrame(s, t, s');
    OwnsFrame(s, t, s');
  }

  lemma {:induction false} CasFailsInv(s: State, t: Tid, s': State)
    requires Inv(s) && CasFails(s, t, s')
    ensures Inv(s')
  {
    Unlisted(s, t);
    assert Own(s, s.pc[t]);
    OwnersFrame(s, t, s');
    QueueFrame(s, t, s');
    WorkFrame(s, t, s');
    BusyFrame(s, t, s');
    OwnsFrame(s, t, s');
  }

  /** Whoever waits owns the last operation of the mailbox list, so at most one thread does. */
  lemma {:induction false} OneWaits(s: State, t: Tid, u: Tid)
    requires OwnersApart(s) && QueueOk(s)
    requires t in s.pc && u in s.pc && Waiting(s.pc[t]) && Waiting(s.pc[u])
    ensures t == u
  {}

  /** The compare-and-swap found the mailbox as it was read, so the new operation leads to
      the whole list, whatever happened to the mailbox in between. */
  lemma {:induction false} CasQueue(s: State, t: Tid, s': State)
    requires OwnersApart(s) && QueueOk(s) && CasSucceeds(s, t, s') && Own(s, s.pc[t]) && NotIn(s, t, s.queue)
    ensures QueueOk(s')
  {
    var op := s.pc[t].op;
    assert s'.queue[1..] == s.queue;
    forall i | 0 <= i < |s'.queue|
      ensures Alive(s', s'.queue[i]) && s'.applied[s'.queue[i]] == 0 && s'.next[s'.queue[i]] == Head(s'.queue[i + 1..])
    {
      if i > 0 {
        assert s'.queue[i] == s.queue[i - 1] && s'.queue[i + 1..] == s.queue[i..];
        assert Alive(s, s.queue[i - 1]);
      }
    }
    forall i | 0 <= i < |s'.queue| - 1 ensures s'.pc[s'.owner[s'.queue[i]]].Spin? {
      if i > 0 { assert s'.queue[i] == s.queue[i - 1]; }
    }
    if s.queue != [] { assert s'.queue[|s'.queue| - 1] == s.queue[|s.queue| - 1]; }
  }

  lemma {:induction false} CasOwns(s: State, t: Tid, s': State)
    requires Owns(s) && OwnersApart(s) && CasSucceeds(s, t, s')
    ensures Owns(s')
  {
    forall u | u in s'.pc ensures Own(s', s'.pc[u]) {
      assert Own(s, s.pc[u]);
      if u != t && !s.pc[u].Idle? { assert s.pc[u].op != s.pc[t].op; }
      assert s'.queue[0] == s.pc[t].op && s'.queue[1..] == s.queue;
    }
  }

  lemma {:induction false} CasApart(s: State, t: Tid, s': State)
    requires Apart(s) && CasSucceeds(s, t, s') && Own(s, s.pc[t])
    ensures Apart(s')
  {
    assert forall i :: 1 <= i < |s'.queue| ==> s'.queue[i] == s.queue[i - 1];
  }

  lemma {:induction false} CasSucceedsInv(s: State, t: Tid, s': State)
    requires Inv(s) && CasSucceeds(s, t, s')
    ensures Inv(s')
  {
    Unlisted(s, t);
    assert Own(s, s.pc[t]);
    OwnersFrame(s, t, s');
    CasQueue(s, t, s');
    WorkFrame(s, t, s');
    BusyFrame(s, t, s');
    CasApart(s, t, s');
    CasOwns(s, t, s');
  }

  lemma {:induction false} SeesFreeInv(s: State, t: Tid, s': State)
    requires Inv(s) && SeesFree(s, t, s')
    ensures Inv(s')
  {
    WaiterNotWorking(s, t);
    OwnersFrame(s, t, s');
    QueueFrame(s, t, s');
    WorkFrame(s, t, s');
    BusyFrame(s, t, s');
    OwnsFrame(s, t, s');
  }

  lemma {:induction false} WaiterNotWorking(s: State, t: Tid)
    requires QueueOk(s) && WorkOk(s) && Apart(s) && t in s.pc && Waiting(s.pc[t])
    ensures NotIn(s, t, s.work)
  {
    forall i | 0 <= i < |s.work| && s.work[i] in s.owner ensures s.owner[s.work[i]] != t {
      assert Alive(s, s.work[i]);
      assert s.queue[|s.queue| - 1] == s.pc[t].op;
    }
  }

  lemma {:induction false} SetsBusyInv(s: State, t: Tid, s': State)
    requires Inv(s) && SetsBusy(s, t, s')
    ensures Inv(s')
  {
    OwnersFrame(s, t, s');
    QueueFrame(s, t, s');
    SetsBusyBusy(s, t, s');
    assert s.work == [];
    OwnsFrame(s, t, s');
  }

  lemma {:induction false} SetsBusyBusy(s: State, t: Tid, s': State)
    requires OwnersApart(s) && QueueOk(s) && BusyOk(s) && SetsBusy(s, t, s')
    ensures BusyOk(s')
  {
    forall u | u in s'.pc && s'.pc[u].Seize? ensures false { OneWaits(s, t, u); }
  }

  lemma {:induction false} GrabsListInv(s: State, t: Tid, s': State)
    requires Inv(s) && GrabsList(s, t, s')
    ensures Inv(s')
  {
    OwnersFrame(s, t, s');
    GrabWork(s, t, s');
    GrabQueue(s, t, s');
    BusyFrame(s, t, s');
    GrabOwns(s, t, s');
    assert s.work == [];
  }

  lemma {:induction false} GrabQueue(s: State, t: Tid, s': State)
    requires OwnersApart(s) && QueueOk(s) && GrabsList(s, t, s')
    ensures QueueOk(s')
  {
    forall u | u in s'.pc && Waiting(s'.pc[u]) ensures false { OneWaits(s, t, u); }
  }

  lemma {:induction false} GrabWork(s: State, t: Tid, s': State)
    requires OwnersApart(s) && QueueOk(s) && BusyOk(s) && GrabsList(s, t, s')
    ensures WorkOk(s')
  {
    forall i | 0 <= i < |s'.work|
        ensures Alive(s', s'.work[i]) && (s'.pc[s'.owner[s'.work[i]]].Spin? || s'.owner[s'.work[i]] == s'.handler) {
      assert Alive(s, s.queue[i]);
    }
  }

  lemma {:induction false} GrabOwns(s: State, t: Tid, s': State)
    requires Owns(s) && QueueOk(s) && WorkOk(s) && BusyOk(s) && GrabsList(s, t, s')
    ensures Owns(s')
  {
    assert s.work == [];
    assert s.queue[|s.queue| - 1] == s.pc[t].op;
    forall u | u in s'.pc ensures Own(s', s'.pc[u]) {
      assert Own(s, s.pc[u]);
    }
  }

  /** Inside handle_operations the handler is alone, so only its own place matters. */
  lemma {:induction false} HandlerFrame(s: State, t: Tid, s': State)
    requires Inv(s) && t in s.pc && Handling(s.pc[t])
    requires Moves(s, t, s', s.queue) && s'.queue == s.queue && s'.mailbox == s.mailbox && s'.next == s.next
        && s'.owner == s.owner
    requires s'.busy == s.busy && s'.handler == s.handler && s'.finished.Keys == s.finished.Keys
        && s'.applied.Keys == s.applied.Keys
    requires (Handling(s'.pc[t]) || s'.pc[t].Release?) && s'.pc[t].op == s.pc[t].op
    ensures OwnersApart(s') && QueueOk(s') && BusyOk(s')
  {
    OwnersFrame(s, t, s');
    HandlerNotQueued(s, t);
    QueueFrame(s, t, s');
    BusyFrame(s, t, s');
  }

  lemma {:induction false} HandlerNotQueued(s: State, t: Tid)
    requires QueueOk(s) && t in s.pc && Inside(s.pc[t]) && !s.pc[t].Grab?
    ensures NotIn(s, t, s.queue)
  {
    forall i | 0 <= i < |s.queue| && s.queue[i] in s.owner ensures s.owner[s.queue[i]] != t {
      assert Alive(s, s.queue[i]);
    }
  }

  lemma {:induction false} TakesNextInv(s: State, t: Tid, s': State)
    requires Inv(s) && TakesNext(s, t, s')
    ensures Inv(s')
  {
    HandlerFrame(s, t, s');
    TakesNextWork(s, t, s');
    OwnsFrame(s, t, s');
  }

  lemma {:induction false} TakesNextWork(s: State, t: Tid, s': State)
    requires WorkOk(s) && BusyOk(s) && TakesNext(s, t, s')
    ensures WorkOk(s')
  {
    assert Progress(s, s.pc[t]);
    LinkedTail(s.next, s.pc[t].cur, s.work);
    WorkAlive(s, t, s');
  }

  lemma {:induction false} LinkedTail(next: map<Addr, Ptr>, p: Ptr, l: seq<Addr>)
    requires Linked(next, p, l) && l != []
    ensures l[0] in next && p == At(l[0]) && Linked(next, next[l[0]], l[1..])
  {
    var tail := l[1..];
    forall i | 0 <= i < |tail| ensures tail[i] in next && next[tail[i]] == Head(tail[i + 1..]) {
      assert tail[i] == l[i + 1] && tail[i + 1..] == l[i + 2..];
    }
  }

  /** The handler stays inside; nothing is finished. */
  lemma {:induction false} WorkAlive(s: State, t: Tid, s': State)
    requires WorkOk(s) && BusyOk(s) && t in s.pc && Handling(s.pc[t]) && Moves(s, t, s', [])
    requires s'.work == s.work && s'.next == s.next && s'.owner == s.owner && s'.finished == s.finished
        && s'.applied.Keys == s.applied.Keys
    requires s'.busy == s.busy && s'.handler == s.handler
    requires Handling(s'.pc[t]) && s'.pc[t].op == s.pc[t].op && Progress(s', s'.pc[t])
    ensures WorkOk(s')
  {
    forall i | 0 <= i < |s'.work|
        ensures Alive(s', s'.work[i]) && (s'.pc[s'.owner[s'.work[i]]].Spin? || s'.owner[s'.work[i]] == s'.handler) {
      assert Alive(s, s.work[i]);
    }
    assert t == s.handler;
  }

  lemma {:induction false} ListEndsInv(s: State, t: Tid, s': State)
    requires Inv(s) && ListEnds(s, t, s')
    ensures Inv(s')
  {
    HandlerFrame(s, t, s');
    assert Progress(s, s.pc[t]) && Own(s, s.pc[t]);
    assert s.work == [];
    assert t == s.handler;
    OwnsFrame(s, t, s');
  }

  lemma {:induction false} AppliesBodyInv(s: State, t: Tid, s': State)
    requires Inv(s) && AppliesBody(s, t, s')
    ensures Inv(s')
  {
    var p := s.pc[t];
    assert Progress(s, p);
    assert forall i :: 0 <= i < |s.queue| ==> s.queue[i] != p.req;
    HandlerFrame(s, t, s');
    AppliesWork(s, t, s');
    AppliesOwns(s, t, s');
  }

  lemma {:induction false} AppliesWork(s: State, t: Tid, s': State)
    requires WorkOk(s) && BusyOk(s) && Apart(s) && AppliesBody(s, t, s')
    ensures WorkOk(s')
  {
    assert Progress(s, s.pc[t]);
    WorkAlive(s, t, s');
  }

  lemma {:induction false} AppliesOwns(s: State, t: Tid, s': State)
    requires Owns(s) && WorkOk(s) && AppliesBody(s, t, s')
    ensures Owns(s')
  {
    var req := s.pc[t].req;
    assert Progress(s, s.pc[t]) && Alive(s, s.work[0]);
    forall u | u in s'.pc ensures Own(s', s'.pc[u]) {
      assert Own(s, s.pc[u]);
    }
  }

  lemma {:induction false} FinishesInv(s: State, t: Tid, s': State)
    requires Inv(s) && Finishes(s, t, s')
    ensures Inv(s')
  {
    var p := s.pc[t];
    assert Progress(s, p) && Alive(s, s.work[0]);
    assert forall i :: 0 <= i < |s.queue| ==> s.queue[i] != p.req;
    HandlerFrame(s, t, s');
    FinishesWork(s, t, s');
    FinishesOwns(s, t, s');
    assert forall i :: 0 <= i < |s'.work| ==> s'.work[i] == s.work[i + 1];
  }

  lemma {:induction false} FinishesWork(s: State, t: Tid, s': State)
    requires WorkOk(s) && BusyOk(s) && Apart(s) && Finishes(s, t, s')
    ensures WorkOk(s')
  {
    assert Progress(s, s.pc[t]);
    forall i | 0 <= i < |s'.work|
        ensures Alive(s', s'.work[i]) && (s'.pc[s'.owner[s'.work[i]]].Spin? || s'.owner[s'.work[i]] == s'.handler) {
      assert s'.work[i] == s.work[i + 1] && Alive(s, s.work[i + 1]);
    }
    assert t == s.handler;
  }

  lemma {:induction false} FinishesOwns(s: State, t: Tid, s': State)
    requires Owns(s) && WorkOk(s) && Finishes(s, t, s')
    ensures Owns(s')
  {
    var req := s.pc[t].req;
    assert Progress(s, s.pc[t]) && Alive(s, s.work[0]);
    forall u | u in s'.pc ensures Own(s', s'.pc[u]) {
      assert Own(s, s.pc[u]);
      assert forall a :: a in s.work ==> a == req || a in s'.work;
    }
  }

  lemma {:induction false} ClearsBusyInv(s: State, t: Tid, s': State)
    requires Inv(s) && ClearsBusy(s, t, s')
    ensures Inv(s')
  {
    Unlisted(s, t);
    assert Own(s, s.pc[t]);
    OwnersFrame(s, t, s');
    QueueFrame(s, t, s');
    ClearsBusyWork(s, t, s');
    OwnsFrame(s, t, s');
  }

  lemma {:induction false} ClearsBusyWork(s: State, t: Tid, s': State)
    requires WorkOk(s) && BusyOk(s) && ClearsBusy(s, t, s')
    ensures WorkOk(s') && BusyOk(s')
  {
    assert t == s.handler && s.work == [];
    forall u | u in s'.pc ensures !Inside(s'.pc[u]) {
      if u != t { assert s'.pc[u] == s.pc[u]; }
    }
  }

  lemma {:induction false} SeesFinishedInv(s: State, t: Tid, s': State)
    requires Inv(s) && SeesFinished(s, t, s')
    ensures Inv(s')
  {
    assert Own(s, s.pc[t]);
    FinishedUnlisted(s, t);
    OwnersFrame(s, t, s');
    QueueFrame(s, t, s');
    WorkFrame(s, t, s');
    BusyFrame(s, t, s');
    OwnsFrame(s, t, s');
  }

  lemma {:induction false} FinishedUnlisted(s: State, t: Tid)
    requires QueueOk(s) && WorkOk(s) && t in s.pc && !s.pc[t].Idle? && s.pc[t].op in s.finished
        && s.finished[s.pc[t].op]
    ensures NotIn(s, t, s.queue) && NotIn(s, t, s.work) && s.pc[t].op !in s.queue && s.pc[t].op !in s.work
  {
    forall i | 0 <= i < |s.queue|
        ensures s.queue[i] != s.pc[t].op && (s.queue[i] in s.owner ==> s.owner[s.queue[i]] != t) {
      assert Alive(s, s.queue[i]);
    }
    forall i | 0 <= i < |s.work| ensures s.work[i] != s.pc[t].op && (s.work[i] in s.owner ==> s.owner[s.work[i]] != t) {
      assert Alive(s, s.work[i]);
    }
  }

  lemma {:induction false} ReturnsInv(s: State, t: Tid, s': State)
    requires Inv(s) && Returns(s, t, s')
    ensures Inv(s')
  {
    Unlisted(s, t);
    OwnersFrame(s, t, s');
    QueueFrame(s, t, s');
    WorkFrame(s, t, s');
    BusyFrame(s, t, s');
    OwnsFrame(s, t, s');
  }

  lemma {:induction false} StepInv(s: State, t: Tid, s': State)
    requires Inv(s) && Step(s, t, s')
    ensures Inv(s')
  {
    if a :| Begin(s, t, a, s') { BeginInv(s, t, a, s'); }
    else if ReadMailbox(s, t, s') { ReadInv(s, t, s'); }
    else if CasFails(s, t, s') { CasFailsInv(s, t, s'); }
    else if CasSucceeds(s, t, s') { CasSucceedsInv(s, t, s'); }
    else if SeesFree(s, t, s') { SeesFreeInv(s, t, s'); }
    else if SetsBusy(s, t, s') { SetsBusyInv(s, t, s'); }
    else if GrabsList(s, t, s') { GrabsListInv(s, t, s'); }
    else if TakesNext(s, t, s') { TakesNextInv(s, t, s'); }
    else if ListEnds(s, t, s') { ListEndsInv(s, t, s'); }
    else if AppliesBody(s, t, s') { AppliesBodyInv(s, t, s'); }
    else if Finishes(s, t, s') { FinishesInv(s, t, s'); }
    else if ClearsBusy(s, t, s') { ClearsBusyInv(s, t, s'); }
    else if SeesFinished(s, t, s') { SeesFinishedInv(s, t, s'); }
    else { ReturnsInv(s, t, s'); }
  }
}
