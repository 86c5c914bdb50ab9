/** The aggregator: what holds in every run. */
module AggregatorGuarantees {
  import opened Aggregator
  import opened AggregatorSteps

  // ----- guarantees over every run

  ghost predicate Moved(s: State, s': State) { exists t :: Step(s, t, s') }

  ghost predicate IsRun(run: seq<State>) {
    run != [] && Init(run[0]) && forall i :: 0 <= i < |run| - 1 ==> Moved(run[i], run[i + 1])
  }

  lemma {:induction false} RunInv(run: seq<State>, i: nat)
    requires IsRun(run) && i < |run|
    ensures Inv(run[i])
  {
    if i == 0 {
      InitInv(run[0]);
    } else {
      RunInv(run, i - 1);
      assert Moved(run[i - 1], run[i - 1 + 1]);
      var t :| Step(run[i - 1], t, run[i]);
      StepInv(run[i - 1], t, run[i]);
    }
  }

  /** At most one thread is between setting and clearing handler_busy, and at most one more
      waits for it. */
  lemma {:induction false} OneHandlerOneWaiter(run: seq<State>, i: nat, t: Tid, u: Tid)
    requires IsRun(run) && i < |run| && t in run[i].pc && u in run[i].pc
    ensures Inside(run[i].pc[t]) && Inside(run[i].pc[u]) ==> t == u
    ensures Waiting(run[i].pc[t]) && Waiting(run[i].pc[u]) ==> t == u
  {
    RunInv(run, i);
    if Waiting(run[i].pc[t]) && Waiting(run[i].pc[u]) { OneWaits(run[i], t, u); }
  }

  /** A thread returns only when its operation was applied exactly once and is finished. */
  lemma {:induction false} ReturnsWhenApplied(run: seq<State>, i: nat, t: Tid, s': State)
    requires IsRun(run) && i < |run| && Returns(run[i], t, s')
    ensures var op := run[i].pc[t].op;
            Complete(run[i], op)
  {
    RunInv(run, i);
    assert Own(run[i], run[i].pc[t]);
  }

  /** A body is applied only to an operation not applied yet, whose thread is still waiting in
      execute_impl. */
  lemma {:induction false} AppliedAtMostOnce(run: seq<State>, i: nat, t: Tid, s': State)
    requires IsRun(run) && i < |run| && AppliesBody(run[i], t, s')
    ensures var req := run[i].pc[t].req;
            Alive(run[i], req) && run[i].applied[req] == 0 && s'.applied[req] == 1
  {
    RunInv(run, i);
    var s := run[i];
    assert Progress(s, s.pc[t]);
    assert Alive(s, s.work[0]);
  }

  /** The addresses a thread inside handle_operations may still follow. */
  function Reach(p: PC): set<Ptr> {
    match p
    case Loop(_, cur) => {cur}
    case Apply(_, req, rest) => {At(req), rest}
    case Finish(_, req, rest) => {At(req), rest}
    case _ => {}
  }

  /** The handler holds no address of a finished operation. */
  lemma {:induction false} HandlerHoldsPending(run: seq<State>, i: nat, t: Tid, a: Addr)
    requires IsRun(run) && i < |run| && t in run[i].pc && At(a) in Reach(run[i].pc[t])
    ensures Alive(run[i], a)
  {
    RunInv(run, i);
    var s := run[i];
    assert Progress(s, s.pc[t]);
    if s.pc[t].Loop? || a == s.work[0] {
      assert a == s.work[0] && Alive(s, s.work[0]);
    } else {
      assert a == s.work[1..][0] && s.work[1..][0] == s.work[1] && Alive(s, s.work[1]);
    }
  }

  /** Once finished, an operation is not touched again until its address is used for a new one. */
  lemma {:induction false} FinishedUntouched(run: seq<State>, i: nat, t: Tid, s': State, a: Addr)
    requires IsRun(run) && i < |run| && Works(run[i], t, s')
    requires Known(run[i], a) && run[i].finished[a]
    ensures Same(run[i], s', a)
  {
    RunInv(run, i);
    var s := run[i];
    assert Own(s, s.pc[t]);
    if s.pc[t].Apply? || s.pc[t].Finish? {
      assert Progress(s, s.pc[t]) && Alive(s, s.work[0]);
    }
  }

  /** While any thread is inside execute_impl, some thread can take a step. */
  lemma {:induction false} SomeoneMoves(run: seq<State>, i: nat, t: Tid) returns (u: Tid, s': State)
    requires IsRun(run) && i < |run| && t in run[i].pc && !run[i].pc[t].Idle?
    ensures Works(run[i], u, s')
  {
    RunInv(run, i);
    u := Mover(run[i], t);
    s' := After(run[i], u);
  }

  /** A thread whose guard holds: `t` itself, or the handler, or the one waiting to handle. */
  lemma {:induction false} Mover(s: State, t: Tid) returns (u: Tid)
    requires Inv(s) && t in s.pc && !s.pc[t].Idle?
    ensures Ready(s, u)
  {
    u := t;
    assert Own(s, s.pc[t]);
    if s.pc[t].Spin? && !s.finished[s.pc[t].op] {
      u := if s.pc[t].op in s.queue then s.owner[s.queue[|s.queue| - 1]] else s.handler;
    }
    if s.pc[u].Await? && s.busy { u := s.handler; }
    HandlerReady(s, u);
  }

  predicate Ready(s: State, u: Tid) {
    && u in s.pc && !s.pc[u].Idle?
    && (s.pc[u].Spin? ==> s.pc[u].op in s.finished && s.finished[s.pc[u].op])
    && (s.pc[u].Await? ==> !s.busy)
    && (s.pc[u].Loop? && s.pc[u].cur.At? ==> s.pc[u].cur.a in s.next)
    && (s.pc[u].Apply? ==> s.pc[u].req in s.applied)
  }

  lemma {:induction false} HandlerReady(s: State, u: Tid)
    requires Inv(s) && u in s.pc
    ensures s.pc[u].Loop? && s.pc[u].cur.At? ==> s.pc[u].cur.a in s.next
    ensures s.pc[u].Apply? ==> s.pc[u].req in s.applied
  {
    if Handling(s.pc[u]) { assert Progress(s, s.pc[u]); }
  }

  lemma {:induction false} After(s: State, u: Tid) returns (s': State)
    requires Ready(s, u)
    ensures Works(s, u, s')
  {
    var p := s.pc[u];
    match p
    case Read(op) => s' := Goto(s, u, Cas(op, s.mailbox)).(next := s.next[op := s.mailbox]);
    case Cas(op, res) =>
      s' := if s.mailbox != res then Goto(s, u, Read(op))
            else Goto(s, u, if res == Null then Await(op) else Spin(op)).(mailbox := At(op), queue := [op] + s.queue);
    case Await(op) => s' := Goto(s, u, Seize(op));
    case Seize(op) => s' := Goto(s, u, Grab(op)).(busy := true, handler := u);
    case Grab(op) => s' := Goto(s, u, Loop(op, s.mailbox)).(mailbox := Null, queue := [], work := s.queue);
    case Loop(op, cur) =>
      s' := if cur == Null then Goto(s, u, Release(op)) else Goto(s, u, Apply(op, cur.a, s.next[cur.a]));
    case Apply(op, req, rest) =>
        s' := Goto(s, u, Finish(op, req, rest)).(applied := s.applied[req := s.applied[req] + 1]);
    case Finish(op, req, rest) =>
      s' := Goto(s, u, Loop(op, rest))
              .(finished := s.finished[req := true], work := if s.work == [] then [] else s.work[1..]);
    case Release(op) => s' := Goto(s, u, Leave(op)).(busy := false);
    case Spin(op) => s' := Goto(s, u, Leave(op));
    case Leave(op) => s' := Goto(s, u, Idle);
  }
}
